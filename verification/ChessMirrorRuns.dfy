/** The mirror over whole runs: as long as no capture is rejected, a game played on the mirrored
    board with the mirrored events stays the mirror image of the original game. */
module ChessMirrorRuns {
  import opened ChessModel
  import opened ChessMirror

  // ----- what `Same` leaves out is never read -----

  lemma MovePieceRespectsSame(c: Colour, a: Chess, b: Chess, pin: nat)
    requires Ok(a) && Ok(b) && Same(a, b) && pin < 64
    ensures Same(MovePiece(c, a, pin), MovePiece(c, b, pin))
  {
  }

  lemma CapturePieceRespectsSame(c: Colour, a: Chess, b: Chess, pin: nat)
    requires Ok(a) && Ok(b) && Same(a, b) && pin < 64
    ensures Same(CapturePiece(c, a, pin), CapturePiece(c, b, pin))
  {
    assert CapturedBoard(a, pin) == CapturedBoard(b, pin);
  }

  lemma MoveRespectsSame(c: Colour, a: Chess, b: Chess, pin: nat, up: bool)
    requires Ok(a) && Ok(b) && Same(a, b) && pin < 64
    ensures Same(RunMove(c, a, pin, up), RunMove(c, b, pin, up))
  {
    ReadParts(a, b);
    if !up && a.x != pin { MovePieceRespectsSame(c, a, b, pin); }
    else if !up { GotoRespectsSame(a, b, Turn(c)); }
    else if IsOf(c.Other(), a.board[pin]) { GotoRespectsSame(a, b, Capture(c)); }
    else { GotoRespectsSame(a, b, Error); }
  }

  lemma CaptureRespectsSame(c: Colour, a: Chess, b: Chess, pin: nat, up: bool)
    requires Ok(a) && Ok(b) && Same(a, b) && pin < 64
    ensures Same(RunCapture(c, a, pin, up), RunCapture(c, b, pin, up))
  {
    if !up && (a.y == pin || TakesEnPassant(a, pin)) { CapturePieceRespectsSame(c, a, b, pin); }
  }

  lemma GotoRespectsSame(a: Chess, b: Chess, to: State)
    requires Same(a, b)
    ensures Same(Goto(a, to), Goto(b, to))
    ensures forall x :: Same(Goto(a, to).(x := x), Goto(b, to).(x := x))
    ensures forall y :: Same(Goto(a, to).(y := y), Goto(b, to).(y := y))
    ensures forall x, y :: Same(Goto(a, to).(y := y, x := x), Goto(b, to).(y := y, x := x))
  {
  }

  lemma ReadParts(a: Chess, b: Chess)
    requires Same(a, b)
    ensures a.board == b.board && a.rights == b.rights && a.directToError == b.directToError && a.x == b.x && a.y == b.y
  {
  }

  lemma TurnRespectsSame(c: Colour, a: Chess, b: Chess, pin: nat, up: bool)
    requires Ok(a) && Ok(b) && Same(a, b) && pin < 64
    ensures Same(RunTurn(c, a, pin, up), RunTurn(c, b, pin, up))
  {
    ReadParts(a, b);
    if a.directToError || !up || a.board[pin] == EMPTY { GotoRespectsSame(a, b, Error); }
    else if a.board[pin] == King(c) && a.rights.HasAny(c) { GotoRespectsSame(a, b, Castling(c)); }
    else if IsOf(c, a.board[pin]) { GotoRespectsSame(a, b, Move(c)); }
    else { GotoRespectsSame(a, b, EnemyCapture(c)); }
  }

  lemma EnemyCaptureRespectsSame(c: Colour, a: Chess, b: Chess, pin: nat, up: bool)
    requires Ok(a) && Ok(b) && Same(a, b) && pin < 64
    ensures Same(RunEnemyCapture(c, a, pin, up), RunEnemyCapture(c, b, pin, up))
  {
    ReadParts(a, b);
    GotoRespectsSame(a, b, Error);
    GotoRespectsSame(a, b, Capture(c));
    GotoRespectsSame(a, b, Turn(c));
  }

  lemma CastlingRespectsSame(c: Colour, a: Chess, b: Chess, pin: nat, up: bool)
    requires Ok(a) && Ok(b) && Same(a, b) && pin < 64
    ensures Same(RunCastling(c, a, pin, up), RunCastling(c, b, pin, up))
  {
    if !up { CastlingPutRespectsSame(c, a, b, pin); }
    else if IsOf(c, a.board[pin]) { CastlingRookRespectsSame(c, a, b, pin); }
    else { GotoRespectsSame(a, b, Capture(c)); }
  }

  lemma CastlingRookRespectsSame(c: Colour, a: Chess, b: Chess, pin: nat)
    requires Ok(a) && Ok(b) && Same(a, b) && pin < 64 && IsOf(c, a.board[pin])
    ensures Same(RunCastling(c, a, pin, true), RunCastling(c, b, pin, true))
  {
    ReadParts(a, b);
    if a.board[pin] != Rook(c) { GotoRespectsSame(a, b, Error); }
    else if pin == RookHome(c, KingSide) && a.rights.Has(c, KingSide) {
      GotoRespectsSame(a, b, KingUpRookUp(c, KingSide));
    }
    else if pin == RookHome(c, QueenSide) && a.rights.Has(c, QueenSide) {
      GotoRespectsSame(a, b, KingUpRookUp(c, QueenSide));
    }
    else { GotoRespectsSame(a, b, Error); }
  }

  lemma CastlingPutRespectsSame(c: Colour, a: Chess, b: Chess, pin: nat)
    requires Ok(a) && Ok(b) && Same(a, b) && pin < 64
    ensures Same(RunCastling(c, a, pin, false), RunCastling(c, b, pin, false))
  {
    ReadParts(a, b);
    if pin == KingHome(c) { GotoRespectsSame(a, b, Turn(c)); }
    else if pin == KingCastled(c, KingSide) && a.rights.Has(c, KingSide) {
      GotoRespectsSame(a, b, KingDown(c, KingSide));
    }
    else if pin == KingCastled(c, QueenSide) && a.rights.Has(c, QueenSide) {
      GotoRespectsSame(a, b, KingDown(c, QueenSide));
    }
    else {
      GotoRespectsSame(a, b, Move(c));
      MoveRespectsSame(c, Goto(a, Move(c)).(x := KingHome(c)), Goto(b, Move(c)).(x := KingHome(c)), pin, false);
    }
  }

  lemma EndCastlingRespectsSame(c: Colour, w: Wing, a: Chess, b: Chess)
    requires Ok(a) && Ok(b) && Same(a, b)
    ensures Same(EndCastling(c, w, a), EndCastling(c, w, b))
  {
  }

  lemma WingsRespectSame(c: Colour, w: Wing, a: Chess, b: Chess, pin: nat, up: bool)
    requires Ok(a) && Ok(b) && Same(a, b) && pin < 64
    ensures Same(RunKingDownRookUp(c, w, a, pin, up), RunKingDownRookUp(c, w, b, pin, up))
    ensures Same(RunKingUpRookDown(c, w, a, pin, up), RunKingUpRookDown(c, w, b, pin, up))
    ensures Same(RunKingDown(c, w, a, pin, up), RunKingDown(c, w, b, pin, up))
    ensures Same(RunKingUpRookUp(c, w, a, pin, up), RunKingUpRookUp(c, w, b, pin, up))
  {
    EndCastlingRespectsSame(c, w, a, b);
    ReadParts(a, b);
    GotoRespectsSame(a, b, Error);
    GotoRespectsSame(a, b, KingDownRookUp(c, w));
    GotoRespectsSame(a, b, KingUpRookDown(c, w));
  }

  /** Two states that differ only in a dead en passant square or in the last castling record behave alike. */
  lemma StepRespectsSame(a: Chess, b: Chess, pin: nat, up: bool)
    requires Ok(a) && Ok(b) && Same(a, b) && pin < 64
    ensures Same(Step(a, pin, up), Step(b, pin, up))
  {
    var a', b' := Started(a), Started(b);
    assert Same(a', b');
    if !a'.terminated { StateRespectsSame(a', b', pin, up); }
  }

  lemma StateRespectsSame(a: Chess, b: Chess, pin: nat, up: bool)
    requires Ok(a) && Ok(b) && Same(a, b) && pin < 64 && !a.terminated
    ensures Same(RunState(a, pin, up), RunState(b, pin, up))
  {
    match a.current
    case Turn(c) => TurnRespectsSame(c, a, b, pin, up);
    case Move(c) => MoveRespectsSame(c, a, b, pin, up);
    case Capture(c) => CaptureRespectsSame(c, a, b, pin, up);
    case EnemyCapture(c) => EnemyCaptureRespectsSame(c, a, b, pin, up);
    case Castling(c) => CastlingRespectsSame(c, a, b, pin, up);
    case Error =>
    case _ => WingStateRespectsSame(a, b, pin, up);
  }

  lemma WingStateRespectsSame(a: Chess, b: Chess, pin: nat, up: bool)
    requires Ok(a) && Ok(b) && Same(a, b) && pin < 64 && !a.terminated
    requires a.current.KingDown? || a.current.KingUpRookUp? || a.current.KingDownRookUp? || a.current.KingUpRookDown?
    ensures Same(RunState(a, pin, up), RunState(b, pin, up))
  {
    WingsRespectSame(a.current.c, a.current.w, a, b, pin, up);
  }

  lemma SameTransitive(a: Chess, b: Chess, c: Chess)
    requires Same(a, b) && Same(b, c)
    ensures Same(a, c)
  {
  }

  // ----- pieces stay pieces -----

  predicate AllPieces(b: seq<char>) { |b| == 64 && forall i :: 0 <= i < 64 ==> IsPiece(b[i]) }

  lemma LandingKeepsPieces(c: Colour, s: Chess, pin: nat)
    requires Pieces(s) && pin < 64
    ensures AllPieces(MovePiece(c, s, pin).board) && AllPieces(CapturePiece(c, s, pin).board)
  {
    var moved, captured := s.board[pin := s.board[s.x]][s.x := EMPTY], CapturedBoard(s, pin);
    assert AllPieces(moved) && AllPieces(captured);
    PromotedMirror(c, moved[pin], pin);
    PromotedMirror(c, captured[pin], pin);
    assert MovePiece(c, s, pin).board == moved[pin := Promoted(c, moved[pin], pin)];
    assert CapturePiece(c, s, pin).board == captured[pin := Promoted(c, captured[pin], pin)];
  }

  lemma CastlingKeepsPieces(c: Colour, w: Wing, s: Chess)
    requires Pieces(s)
    ensures AllPieces(EndCastling(c, w, s).board)
  {
  }

  lemma CastlingLiftKeepsBoard(c: Colour, s: Chess, pin: nat)
    requires Ok(s) && pin < 64
    ensures RunCastling(c, s, pin, true).board == s.board && RunCastling(c, s, pin, true).started == s.started
  {
  }

  lemma KingStaysKeepsBoard(c: Colour, s: Chess, pin: nat)
    requires Ok(s) && pin < 64 && KingStays(c, s.rights, pin)
    ensures RunCastling(c, s, pin, false).board == s.board && RunCastling(c, s, pin, false).started == s.started
  {
  }

  lemma LiftedKingKeepsPieces(c: Colour, s: Chess, pin: nat, up: bool)
    requires Pieces(s) && pin < 64
    ensures AllPieces(RunCastling(c, s, pin, up).board) && RunCastling(c, s, pin, up).started == s.started
  {
    if up { CastlingLiftKeepsBoard(c, s, pin); }
    else if KingStays(c, s.rights, pin) { KingStaysKeepsBoard(c, s, pin); }
    else {
      KingMovesOn(c, s, pin);
      LandingKeepsPieces(c, Goto(s, Move(c)).(x := KingHome(c)), pin);
    }
  }

  lemma QuietKeepsBoard(s: Chess, pin: nat, up: bool)
    requires Ok(s) && pin < 64
    requires s.current.Turn? || s.current.EnemyCapture? || s.current.KingDown? || s.current.KingUpRookUp?
        || s.current.Error?
    ensures RunState(s, pin, up).board == s.board && RunState(s, pin, up).started == s.started
  {
  }

  lemma LandingStateKeepsPieces(s: Chess, pin: nat, up: bool)
    requires Pieces(s) && pin < 64 && !s.terminated && (s.current.Move? || s.current.Capture?)
    ensures AllPieces(RunState(s, pin, up).board) && RunState(s, pin, up).started == s.started
  {
    LandingKeepsPieces(s.current.c, s, pin);
  }

  lemma EndStateKeepsPieces(s: Chess, pin: nat, up: bool)
    requires Pieces(s) && pin < 64 && !s.terminated && (s.current.KingDownRookUp? || s.current.KingUpRookDown?)
    ensures AllPieces(RunState(s, pin, up).board) && RunState(s, pin, up).started == s.started
  {
    CastlingKeepsPieces(s.current.c, s.current.w, s);
  }

  lemma StateKeepsPieces(s: Chess, pin: nat, up: bool)
    requires Pieces(s) && pin < 64 && !s.terminated
    ensures AllPieces(RunState(s, pin, up).board) && RunState(s, pin, up).started == s.started
  {
    if s.current.Move? || s.current.Capture? { LandingStateKeepsPieces(s, pin, up); }
    else if s.current.KingDownRookUp? || s.current.KingUpRookDown? { EndStateKeepsPieces(s, pin, up); }
    else if s.current.Castling? { LiftedKingKeepsPieces(s.current.c, s, pin, up); }
    else { QuietKeepsBoard(s, pin, up); }
  }

  lemma StepKeepsPieces(s: Chess, pin: nat, up: bool)
    requires Pieces(s) && pin < 64 && s.started
    ensures Pieces(Step(s, pin, up)) && Step(s, pin, up).started
  {
    if !s.terminated { StateKeepsPieces(s, pin, up); }
  }

  // ----- runs -----

  function MirrorEvents(es: seq<Event>): (m: seq<Event>)
    requires ValidEvents(es)
    ensures |m| == |es| && ValidEvents(m)
  {
    seq(|es|, i requires 0 <= i < |es| => Event(Flip(es[i].pin), es[i].up))
  }

  /** No capture of the run is rejected. */
  predicate NoRejection(s: Chess, es: seq<Event>)
    requires Ok(s) && ValidEvents(es)
    decreases |es|
  {
    es == [] ||
      var n := |es| - 1;
      var before := Run(s, es[..n]);
      NoRejection(s, es[..n]) && (before.terminated || !RejectsCapture(before, es[n].pin, es[n].up))
  }

  lemma MirrorOfLonger(s: Chess, es: seq<Event>, m: Chess, t: Chess)
    requires Ok(s) && ValidEvents(es) && es != []
    requires Pieces(t) && Ok(m) && t.started && Same(m, Mirror(t))
    requires t.terminated || !RejectsCapture(t, es[|es| - 1].pin, es[|es| - 1].up)
    ensures var last := es[|es| - 1];
      Same(Step(m, Flip(last.pin), last.up), Mirror(Step(t, last.pin, last.up)))
  {
    var last := es[|es| - 1];
    StepMirror(t, last.pin, last.up);
    StepRespectsSame(m, Mirror(t), Flip(last.pin), last.up);
    SameTransitive(Step(m, Flip(last.pin), last.up), Step(Mirror(t), Flip(last.pin), last.up),
        Mirror(Step(t, last.pin, last.up)));
  }

  lemma LastMirrorEvent(es: seq<Event>)
    requires ValidEvents(es) && es != []
    ensures var n := |es| - 1;
      MirrorEvents(es)[..n] == MirrorEvents(es[..n]) && MirrorEvents(es)[n] == Event(Flip(es[n].pin), es[n].up)
  {
  }

  lemma LongerMirrorRun(m: Chess, es: seq<Event>)
    requires Ok(m) && ValidEvents(es) && es != []
    ensures var n := |es| - 1;
      Run(m, MirrorEvents(es)) == Step(Run(m, MirrorEvents(es[..n])), Flip(es[n].pin), es[n].up)
  {
    LastMirrorEvent(es);
  }

  lemma {:induction false} RunKeepsPieces(s: Chess, es: seq<Event>)
    requires Pieces(s) && s.started && ValidEvents(es)
    ensures Pieces(Run(s, es)) && Run(s, es).started
    decreases |es|
  {
    if es == [] {
    } else {
      var n := |es| - 1;
      RunKeepsPieces(s, es[..n]);
      StepKeepsPieces(Run(s, es[..n]), es[n].pin, es[n].up);
    }
  }

  /** The game on the mirrored board is the mirror image of the game, for runs of any length. */
  lemma {:induction false} RunMirror(s: Chess, es: seq<Event>)
    requires Pieces(s) && s.started && ValidEvents(es) && NoRejection(s, es)
    ensures Same(Run(Mirror(s), MirrorEvents(es)), Mirror(Run(s, es)))
    decreases |es|
  {
    if es == [] {
    } else {
      var n := |es| - 1;
      RunMirror(s, es[..n]);
      RunKeepsPieces(s, es[..n]);
      LongerMirrorRun(Mirror(s), es);
      MirrorOfLonger(s, es, Run(Mirror(s), MirrorEvents(es[..n])), Run(s, es[..n]));
    }
  }

  /** A rejected capture happens: after a reset White lifts the pawns on e2 and e7, and puts one on e4. */
  lemma RejectionIsReachable()
    ensures var s := Step(Step(Reset(START_BOARD), 52, true), 12, true);
      && Pieces(s) && s.started && !s.terminated && s.current == Capture(White) && RejectsCapture(s, 36, false)
      && Step(s, 36, false).stateVal == Error && Step(s, 36, false).current == Turn(Black)
  {
    StartPieces();
    TwoLifts(Reset(START_BOARD), 52, 12);
    PutIsRejected(Step(Step(Reset(START_BOARD), 52, true), 12, true));
  }

  lemma StartPieces()
    ensures AllPieces(START_BOARD) && START_BOARD[52] == 'P' && START_BOARD[12] == 'p'
  {
  }

  lemma TwoLifts(s: Chess, x: nat, y: nat)
    requires Ok(s) && !s.started && !s.directToError && s.current == Turn(White) && x < 64 && y < 64
    requires s.board[x] == 'P' && s.board[y] == 'p'
    ensures Step(Step(s, x, true), y, true) == Goto(Goto(Started(s), Move(White)).(x := x), Capture(White)).(y := y)
  {
    assert Step(s, x, true) == Goto(Started(s), Move(White)).(x := x);
  }

  lemma PutIsRejected(s: Chess)
    requires Pieces(s) && s.started && !s.terminated && s.current == Capture(White) && s.x == 52 && s.y == 12
    requires s.board[52] == 'P' && !s.enPassant
    ensures RejectsCapture(s, 36, false)
    ensures Step(s, 36, false).stateVal == Error && Step(s, 36, false).current == Turn(Black)
  {
  }
}
