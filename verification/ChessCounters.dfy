/** What the counters and the en passant data mean over a whole run, read off the moves made. */
module ChessCounters {
  import opened Basics
  import opened ChessModel
  import opened ChessRecords

  /** What an event has brought to an end, judged by the turn and the record alone. */
  datatype Deed = Nothing | Moved(c: Colour, from: nat, to: nat, piece: char) | Captured | Castled

  function DeedOf(s: Chess, s': Chess): Deed
    requires Ok(s)
  {
    if !Completes(s, s') || s'.record.None? then Nothing
    else
      var m := s'.record.value;
      if m.moveType.CastlingMove? then Castled
      else if s.current.Capture? || m.from >= 64 then Captured
      else Moved(s.current.c, m.from, m.to, s.board[m.from])
  }

  predicate PawnMove(d: Deed) { d.Moved? && d.piece == Pawn(d.c) }

  predicate PawnJump(d: Deed) { PawnMove(d) && d.to - d.from == 2 * Forward(d.c) }

  // ----- one event -----

  /** How the counters and the flag after an event follow from what it brought to an end. */
  predicate CountersFollow(s: Chess, s': Chess, d: Deed) {
    && s'.ply == (if d.Nothing? then s.ply else NextByte(s.ply))
    && s'.plySincePonr ==
       (if d.Captured? || PawnMove(d) then 0 else if d.Moved? then NextByte(s.plySincePonr) else s.plySincePonr)
    && s'.enPassant == (PawnJump(d) || (s.enPassant && (d.Nothing? || (d.Moved? && !PawnMove(d)))))
    && (PawnJump(d) ==> 2 * s'.enPassantSquare == d.from + d.to)
    && (s'.enPassant && !PawnJump(d) ==> s'.enPassantSquare == s.enPassantSquare)
  }

  lemma MoveFollows(c: Colour, s: Chess, pin: nat)
    requires Ok(s) && pin < 64 && s.x != pin && s.current != Error && !s.current.Capture? && s.current.c == c
    ensures var s' := MovePiece(c, s, pin); Follows(s, s')
  {
    var s' := MovePiece(c, s, pin);
    assert DeedOf(s, s') == Moved(c, s.x, pin, s.board[s.x]);
  }

  lemma CaptureFollows(c: Colour, s: Chess, pin: nat)
    requires Ok(s) && pin < 64 && s.current == Capture(c)
    ensures var s' := CapturePiece(c, s, pin); CountersFollow(s, s', DeedOf(s, s'))
  {
  }

  lemma CastlingFollows(c: Colour, w: Wing, s: Chess)
    requires Ok(s) && (s.current == KingDownRookUp(c, w) || s.current == KingUpRookDown(c, w))
    ensures var s' := EndCastling(c, w, s); CountersFollow(s, s', DeedOf(s, s'))
  {
  }

  predicate Follows(s: Chess, s': Chess)
    requires Ok(s)
  {
    CountersFollow(s, s', DeedOf(s, s'))
  }

  /** An event that leaves all this alone and does not hand the turn over. */
  lemma IdleFollows(s: Chess, s': Chess)
    requires Ok(s) && !Completes(s, s')
    requires s'.ply == s.ply && s'.plySincePonr == s.plySincePonr
    requires s'.enPassant == s.enPassant && s'.enPassantSquare == s.enPassantSquare
    ensures Follows(s, s')
  {
  }

  lemma TurnFollows(c: Colour, s: Chess, pin: nat, up: bool)
    requires Ok(s) && pin < 64 && s.current == Turn(c)
    ensures Follows(s, RunTurn(c, s, pin, up))
  {
    IdleFollows(s, RunTurn(c, s, pin, up));
  }

  lemma EnemyCaptureFollows(c: Colour, s: Chess, pin: nat, up: bool)
    requires Ok(s) && pin < 64 && s.current == EnemyCapture(c)
    ensures Follows(s, RunEnemyCapture(c, s, pin, up))
  {
    IdleFollows(s, RunEnemyCapture(c, s, pin, up));
  }

  lemma RunMoveFollows(c: Colour, s: Chess, pin: nat, up: bool)
    requires Ok(s) && pin < 64 && s.current == Move(c)
    ensures Follows(s, RunMove(c, s, pin, up))
  {
    if !up && s.x != pin { MoveFollows(c, s, pin); } else { IdleFollows(s, RunMove(c, s, pin, up)); }
  }

  lemma RunCaptureFollows(c: Colour, s: Chess, pin: nat, up: bool)
    requires Ok(s) && pin < 64 && s.current == Capture(c)
    ensures Follows(s, RunCapture(c, s, pin, up))
  {
    if !up && (s.y == pin || TakesEnPassant(s, pin)) { CaptureFollows(c, s, pin); }
    else { IdleFollows(s, RunCapture(c, s, pin, up)); }
  }

  lemma CastlingLiftFollows(c: Colour, s: Chess, pin: nat)
    requires Ok(s) && pin < 64 && s.current == Castling(c)
    ensures Follows(s, RunCastling(c, s, pin, true))
  {
    KingLiftWaits(c, s, pin);
    IdleFollows(s, RunCastling(c, s, pin, true));
  }

  lemma CastlingPutFollows(c: Colour, s: Chess, pin: nat)
    requires Ok(s) && pin < 64 && s.current == Castling(c)
    ensures Follows(s, RunCastling(c, s, pin, false))
  {
    if KingStays(c, s.rights, pin) {
      IdleFollows(s, RunCastling(c, s, pin, false));
    } else {
      KingMoveFollows(c, s, pin);
    }
  }

  lemma KingMoveFollows(c: Colour, s: Chess, pin: nat)
    requires Ok(s) && pin < 64 && s.current == Castling(c) && !KingStays(c, s.rights, pin)
    ensures Follows(s, RunCastling(c, s, pin, false))
  {
    var t := Goto(s, Move(c)).(x := KingHome(c));
    var s' := MovePiece(c, t, pin);
    assert RunCastling(c, s, pin, false) == s';
    MoveFollows(c, t, pin);
    assert DeedOf(s, s') == DeedOf(t, s');
  }

  lemma WingFollows(c: Colour, w: Wing, s: Chess, pin: nat, up: bool)
    requires Ok(s) && pin < 64 && (s.current == KingDown(c, w) || s.current == KingUpRookUp(c, w))
    ensures s.current.KingDown? ==> Follows(s, RunKingDown(c, w, s, pin, up))
    ensures s.current.KingUpRookUp? ==> Follows(s, RunKingUpRookUp(c, w, s, pin, up))
  {
    if s.current.KingDown? {
      IdleFollows(s, RunKingDown(c, w, s, pin, up));
    } else {
      IdleFollows(s, RunKingUpRookUp(c, w, s, pin, up));
    }
  }

  lemma CastlingEndFollows(c: Colour, w: Wing, s: Chess, pin: nat, up: bool)
    requires Ok(s) && pin < 64 && (s.current == KingDownRookUp(c, w) || s.current == KingUpRookDown(c, w))
    ensures Follows(s, RunKingDownRookUp(c, w, s, pin, up)) && Follows(s, RunKingUpRookDown(c, w, s, pin, up))
  {
    CastlingFollows(c, w, s);
    IdleFollows(s, Goto(s, Error));
  }

  lemma StateFollows(s: Chess, pin: nat, up: bool)
    requires Ok(s) && pin < 64 && !s.terminated
    ensures Follows(s, RunState(s, pin, up))
  {
    match s.current
    case Turn(c) => TurnFollows(c, s, pin, up);
    case Move(c) => RunMoveFollows(c, s, pin, up);
    case Capture(c) => RunCaptureFollows(c, s, pin, up);
    case EnemyCapture(c) => EnemyCaptureFollows(c, s, pin, up);
    case Castling(c) => if up { CastlingLiftFollows(c, s, pin); } else { CastlingPutFollows(c, s, pin); }
    case KingDown(c, w) => WingFollows(c, w, s, pin, up);
    case KingUpRookUp(c, w) => WingFollows(c, w, s, pin, up);
    case KingDownRookUp(c, w) => CastlingEndFollows(c, w, s, pin, up);
    case KingUpRookDown(c, w) => CastlingEndFollows(c, w, s, pin, up);
    case Error => IdleFollows(s, s.(terminated := true));
  }

  /** The same for an event from any state, running or not. */
  lemma StepFollows(s: Chess, pin: nat, up: bool)
    requires Ok(s) && pin < 64
    ensures Follows(Started(s), Step(s, pin, up))
  {
    var t := Started(s);
    if t.terminated { IdleFollows(t, t); } else { StateFollows(t, pin, up); }
  }

  // ----- runs -----

  /** What event number i of a run has brought to an end. */
  function DeedAt(s: Chess, es: seq<Event>, i: nat): Deed
    requires Ok(s) && ValidEvents(es) && i < |es|
  {
    var t := Run(s, es[..i]);
    DeedOf(Started(t), Step(t, es[i].pin, es[i].up))
  }

  /** The moves, captures and castlings made so far. */
  function Made(s: Chess, es: seq<Event>): nat
    requires Ok(s) && ValidEvents(es)
    decreases |es|
  {
    if es == [] then 0
    else Made(s, es[..|es| - 1]) + if DeedAt(s, es, |es| - 1).Nothing? then 0 else 1
  }

  function QuietAfter(d: Deed, before: nat): nat {
    if d.Captured? || PawnMove(d) then 0 else if d.Moved? then before + 1 else before
  }

  function JumpAfter(d: Deed, before: Option<Deed>): Option<Deed> {
    if PawnJump(d) then Some(d) else if d.Nothing? || (d.Moved? && !PawnMove(d)) then before else None
  }

  /** The moves of pieces since the last pawn move or capture; castling is not one of them. */
  function QuietMoves(s: Chess, es: seq<Event>): nat
    requires Ok(s) && ValidEvents(es)
    decreases |es|
  {
    if es == [] then 0
    else
      QuietAfter(DeedAt(s, es, |es| - 1), QuietMoves(s, es[..|es| - 1]))
  }

  /** The last pawn jump, if no pawn move, capture or castling has come after it. */
  function LastJump(s: Chess, es: seq<Event>): Option<Deed>
    requires Ok(s) && ValidEvents(es)
    decreases |es|
  {
    if es == [] then None
    else JumpAfter(DeedAt(s, es, |es| - 1), LastJump(s, es[..|es| - 1]))
  }

  predicate CountersMean(s: Chess, made: nat, quiet: nat, jump: Option<Deed>) {
    && s.ply == made % 256 && s.plySincePonr == quiet % 256
    && (s.enPassant <==> jump.Some?)
    && (jump.Some? ==> jump.value.Moved? && 2 * s.enPassantSquare == jump.value.from + jump.value.to)
  }

  lemma NextOf(n: nat)
    ensures NextByte(n % 256) == (n + 1) % 256
  {
  }

  /** Over every run from a reset: the ply number counts what was made, the other counter the quiet
      moves, and the en passant flag is set exactly while the last pawn jump is the last thing that
      matters, with the square it jumped over. */
  lemma {:induction false} CountersCount(board: seq<char>, es: seq<Event>)
    requires |board| == 64 && ValidEvents(es)
    ensures var s := Reset(board); CountersMean(Run(s, es), Made(s, es), QuietMoves(s, es), LastJump(s, es))
    decreases |es|
  {
    var s := Reset(board);
    if es == [] {
    } else {
      var n := |es| - 1;
      CountersCount(board, es[..n]);
      CountOne(s, es);
    }
  }

  lemma MeansStep(t: Chess, t': Chess, d: Deed, made: nat, quiet: nat, jump: Option<Deed>)
    requires CountersMean(t, made, quiet, jump) && CountersFollow(t, t', d)
    ensures CountersMean(t', made + if d.Nothing? then 0 else 1, QuietAfter(d, quiet), JumpAfter(d, jump))
  {
    NextOf(made);
    NextOf(quiet);
  }

  lemma CountOne(s: Chess, es: seq<Event>)
    requires Ok(s) && ValidEvents(es) && es != []
    requires var b := es[..|es| - 1]; CountersMean(Run(s, b), Made(s, b), QuietMoves(s, b), LastJump(s, b))
    ensures CountersMean(Run(s, es), Made(s, es), QuietMoves(s, es), LastJump(s, es))
  {
    var b, e := es[..|es| - 1], es[|es| - 1];
    var t := Run(s, b);
    var t' := Step(t, e.pin, e.up);
    StepFollows(t, e.pin, e.up);
    MeansStep(Started(t), t', DeedOf(Started(t), t'), Made(s, b), QuietMoves(s, b), LastJump(s, b));
  }
}
