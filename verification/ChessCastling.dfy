/** Castling rights and king squares over every run, undoing a lift, and castling in any order. */
module ChessCastling {
  import opened ChessModel

  // ----- what every reachable state keeps -----

  predicate KingsHome(c: Colour, s: Chess) {
    s.rights.HasAny(c) ==> forall i :: 0 <= i < |s.board| && s.board[i] == King(c) ==> i == KingHome(c)
  }

  /** What the framework's state says about the pieces in hand. */
  predicate InHand(s: Chess)
    requires Ok(s)
  {
    match s.current
    case Move(c) => IsOf(c, s.board[s.x])
    case Capture(c) => IsOf(c, s.board[s.x])
    case Castling(c) => s.rights.HasAny(c) && s.board[KingHome(c)] == King(c)
    case _ => true
  }

  /** `reset_fsm` leaves an old framework state behind, which the first event replaces. */
  predicate Inv(s: Chess) {
    Ok(s) && KingsHome(White, s) && KingsHome(Black, s) && (s.started ==> InHand(s)) && !s.directToError
  }

  lemma MovePieceKeeps(c: Colour, s: Chess, pin: nat)
    requires Inv(s) && s.started && pin < 64 && IsOf(c, s.board[s.x])
    ensures Inv(MovePiece(c, s, pin))
  {
  }

  lemma CapturePieceKeeps(c: Colour, s: Chess, pin: nat)
    requires Inv(s) && s.started && pin < 64 && IsOf(c, s.board[s.x])
    ensures Inv(CapturePiece(c, s, pin))
  {
  }

  lemma RunMoveKeeps(c: Colour, s: Chess, pin: nat, up: bool)
    requires Inv(s) && s.started && pin < 64 && IsOf(c, s.board[s.x])
    ensures Inv(RunMove(c, s, pin, up))
  {
    MovePieceKeeps(c, s, pin);
  }

  lemma RunCaptureKeeps(c: Colour, s: Chess, pin: nat, up: bool)
    requires Inv(s) && s.started && pin < 64 && IsOf(c, s.board[s.x])
    ensures Inv(RunCapture(c, s, pin, up))
  {
    CapturePieceKeeps(c, s, pin);
  }

  lemma CastlingLiftKeeps(c: Colour, s: Chess, pin: nat)
    requires Inv(s) && s.started && pin < 64 && s.current == Castling(c)
    ensures Inv(RunCastling(c, s, pin, true))
  {
  }

  lemma KingStaysKeeps(c: Colour, s: Chess, pin: nat)
    requires Inv(s) && s.started && pin < 64 && s.current == Castling(c) && KingStays(c, s.rights, pin)
    ensures Inv(RunCastling(c, s, pin, false))
  {
  }

  lemma RunCastlingKeeps(c: Colour, s: Chess, pin: nat, up: bool)
    requires Inv(s) && s.started && pin < 64 && s.current == Castling(c)
    ensures Inv(RunCastling(c, s, pin, up))
  {
    if up { CastlingLiftKeeps(c, s, pin); }
    else if KingStays(c, s.rights, pin) { KingStaysKeeps(c, s, pin); }
    else {
      KingMovesOn(c, s, pin);
      var t := Goto(s, Move(c)).(x := KingHome(c));
      assert Inv(t);
      RunMoveKeeps(c, t, pin, up);
    }
  }

  lemma RunTurnKeeps(c: Colour, s: Chess, pin: nat, up: bool)
    requires Inv(s) && s.started && pin < 64
    ensures Inv(RunTurn(c, s, pin, up))
  {
  }

  lemma RunEnemyCaptureKeeps(c: Colour, s: Chess, pin: nat, up: bool)
    requires Inv(s) && s.started && pin < 64
    ensures Inv(RunEnemyCapture(c, s, pin, up))
  {
  }

  lemma EndCastlingKeeps(c: Colour, w: Wing, s: Chess)
    requires Inv(s) && s.started
    ensures Inv(EndCastling(c, w, s))
  {
  }

  lemma RunStateKeeps(s: Chess, pin: nat, up: bool)
    requires Inv(s) && s.started && pin < 64
    ensures Inv(RunState(s, pin, up))
  {
    match s.current
    case Turn(c) => RunTurnKeeps(c, s, pin, up);
    case Move(c) => RunMoveKeeps(c, s, pin, up);
    case Capture(c) => RunCaptureKeeps(c, s, pin, up);
    case EnemyCapture(c) => RunEnemyCaptureKeeps(c, s, pin, up);
    case Castling(c) => RunCastlingKeeps(c, s, pin, up);
    case KingDownRookUp(c, w) => EndCastlingKeeps(c, w, s);
    case KingUpRookDown(c, w) => EndCastlingKeeps(c, w, s);
    case _ =>
  }

  lemma StepKeepsInv(s: Chess, pin: nat, up: bool)
    requires Inv(s) && pin < 64
    ensures Inv(Step(s, pin, up))
  {
    RunStateKeeps(Started(s), pin, up);
  }

  /** Over every sequence of events, legal or not: while a side holds a castling right, every king
      of that colour stands on its home square. */
  lemma {:induction false} RightsMeanKingAtHome(s: Chess, es: seq<Event>)
    requires Inv(s) && ValidEvents(es)
    ensures Inv(Run(s, es))
    decreases |es|
  {
    if es == [] {
    } else {
      RightsMeanKingAtHome(s, es[..|es| - 1]);
      var last := es[|es| - 1];
      StepKeepsInv(Run(s, es[..|es| - 1]), last.pin, last.up);
    }
  }

  lemma StartsInInv()
    ensures Inv(Reset(START_BOARD))
  {
    StartsWithKingHome(White);
    StartsWithKingHome(Black);
  }

  lemma StartsWithKingHome(c: Colour)
    ensures |START_BOARD| == 64 && KingsHome(c, Reset(START_BOARD))
  {
    StartRows();
    forall i | 0 <= i < 64 && START_BOARD[i] == King(c) ensures i == KingHome(c) {
      if i < 8 { assert START_BOARD[i] == START_BOARD[..8][i]; }
      if i >= 56 { assert START_BOARD[i] == START_BOARD[56..][i - 56]; }
    }
  }

  lemma StartRows()
    ensures |START_BOARD| == 64 && START_BOARD[..8] == "rnbqkbnr" && START_BOARD[56..] == "RNBQKBNR"
    ensures forall i :: 8 <= i < 56 ==> START_BOARD[i] == 'p' || START_BOARD[i] == EMPTY || START_BOARD[i] == 'P'
  {
  }

  // ----- lifting a piece and putting it back -----

  /** What a player can see of the game: turn, pieces, rights, counters and en passant. */
  predicate SameGame(s: Chess, t: Chess) {
    && s.current == t.current && s.stateVal == t.stateVal && s.board == t.board && s.rights == t.rights
    && s.ply == t.ply && s.plySincePonr == t.plySincePonr
    && s.enPassant == t.enPassant && s.enPassantSquare == t.enPassantSquare && s.record == t.record
  }

  lemma UndoLift(c: Colour, s: Chess, pin: nat)
    requires Inv(s) && s.started && !s.terminated && s.current == s.stateVal == Turn(c)
    requires pin < 64 && s.board[pin] != EMPTY
    ensures SameGame(s, Step(Step(s, pin, true), pin, false))
  {
    if s.board[pin] == King(c) && s.rights.HasAny(c) {
      assert pin == KingHome(c);
      assert Step(s, pin, true) == Goto(s, Castling(c));
    } else if IsOf(c, s.board[pin]) {
      assert Step(s, pin, true) == Goto(s, Move(c)).(x := pin);
    } else {
      assert Step(s, pin, true) == Goto(s, EnemyCapture(c)).(y := pin);
    }
  }

  /** The same when the firmware's own copy of the state is not that of the framework, as after a
      rejected capture by White: the copy catches up. */
  lemma UndoFirstLift(c: Colour, s: Chess, pin: nat)
    requires Inv(s) && s.started && !s.terminated && s.current == Turn(c)
    requires pin < 64 && s.board[pin] != EMPTY
    ensures SameGame(s.(stateVal := Turn(c)), Step(Step(s, pin, true), pin, false))
  {
    UndoLift(c, s.(stateVal := Turn(c)), pin);
    assert Step(s, pin, true) == Step(s.(stateVal := Turn(c)), pin, true);
  }

  /** The colour to move: White before the first event, then what the framework says. */
  predicate ToMove(s: Chess, c: Colour) {
    if s.started then !s.terminated && s.current == Turn(c) else c == White
  }

  /** From any reachable turn, the first of a game included, lifting an occupied square and putting
      it straight back changes nothing, but that the copy of the state is brought up to date. */
  lemma LiftAndReturn(s0: Chess, es: seq<Event>, c: Colour, pin: nat)
    requires Inv(s0) && ValidEvents(es) && pin < 64
    requires ToMove(Run(s0, es), c) && Run(s0, es).board[pin] != EMPTY
    ensures var s := Run(s0, es);
      SameGame(s.(current := Turn(c), stateVal := Turn(c)), Step(Step(s, pin, true), pin, false))
  {
    RightsMeanKingAtHome(s0, es);
    var s := Started(Run(s0, es));
    UndoFirstLift(c, s, pin);
    StepStarts(Run(s0, es), pin, true);
  }

  lemma StepStarts(s: Chess, pin: nat, up: bool)
    requires Ok(s) && pin < 64
    ensures Step(s, pin, up) == Step(Started(s), pin, up)
  {
  }

  // ----- castling -----

  /** The three accepted orders of lifting and putting king and rook. */
  function Orders(c: Colour, w: Wing): seq<seq<Event>> {
    var kingUp, kingDown := Event(KingHome(c), true), Event(KingCastled(c, w), false);
    var rookUp, rookDown := Event(RookHome(c, w), true), Event(RookCastled(c, w), false);
    [[kingUp, rookUp, kingDown, rookDown], [kingUp, rookUp, rookDown, kingDown], [kingUp, kingDown, rookUp, rookDown]]
  }

  predicate ReadyToCastle(c: Colour, w: Wing, s: Chess) {
    && CastlingSquares(c, w, s) && s.started && !s.terminated && !s.directToError && s.current == Turn(c)
    && s.rights.Has(c, w)
  }

  /** King and rook at home, and the squares they go to empty. */
  predicate CastlingSquares(c: Colour, w: Wing, s: Chess) {
    && Ok(s)
    && s.board[KingHome(c)] == King(c) && s.board[RookHome(c, w)] == Rook(c)
    && s.board[KingCastled(c, w)] == EMPTY && s.board[RookCastled(c, w)] == EMPTY
  }

  function Step4(s: Chess, e: seq<Event>): Chess
    requires Ok(s) && |e| == 4 && ValidEvents(e)
  {
    Step(Step(Step(Step(s, e[0].pin, e[0].up), e[1].pin, e[1].up), e[2].pin, e[2].up), e[3].pin, e[3].up)
  }

  lemma KingLifted(c: Colour, w: Wing, s: Chess)
    requires ReadyToCastle(c, w, s)
    ensures Step(s, KingHome(c), true) == Goto(s, Castling(c))
  {
  }

  /** The five moves of the castling states, from the state before castling. */
  lemma CastlingMoves(c: Colour, w: Wing, s: Chess)
    requires ReadyToCastle(c, w, s)
    ensures Step(Goto(s, Castling(c)), RookHome(c, w), true) == Goto(s, KingUpRookUp(c, w))
    ensures Step(Goto(s, Castling(c)), KingCastled(c, w), false) == Goto(s, KingDown(c, w))
    ensures Step(Goto(s, KingDown(c, w)), RookHome(c, w), true) == Goto(s, KingDownRookUp(c, w))
    ensures Step(Goto(s, KingUpRookUp(c, w)), KingCastled(c, w), false) == Goto(s, KingDownRookUp(c, w))
    ensures Step(Goto(s, KingUpRookUp(c, w)), RookCastled(c, w), false) == Goto(s, KingUpRookDown(c, w))
  {
  }

  lemma CastlingEnds(c: Colour, w: Wing, s: Chess)
    requires ReadyToCastle(c, w, s)
    ensures Step(Goto(s, KingDownRookUp(c, w)), RookCastled(c, w), false) == EndCastling(c, w, s)
    ensures Step(Goto(s, KingUpRookDown(c, w)), KingCastled(c, w), false) == EndCastling(c, w, s)
  {
  }

  /** All three orders end in the same state. */
  lemma CastlingConfluence(c: Colour, w: Wing, s: Chess, order: nat)
    requires ReadyToCastle(c, w, s) && order < 3
    ensures Step4(s, Orders(c, w)[order]) == EndCastling(c, w, s)
  {
    KingLifted(c, w, s);
    CastlingMoves(c, w, s);
    CastlingEnds(c, w, s);
  }

  /** That state is the castled position with the enemy to move: king and rook have jumped, every
      other square and the pieces on the board are as before, and the rights and the flag are gone. */
  lemma CastledPosition(c: Colour, w: Wing, s: Chess)
    requires ReadyToCastle(c, w, s)
    ensures var s' := EndCastling(c, w, s);
      && multiset(s'.board) == multiset(s.board)
      && s'.current == s'.stateVal == Turn(c.Other()) && !s'.rights.HasAny(c) && !s'.enPassant
      && s'.board[KingCastled(c, w)] == King(c) && s'.board[RookCastled(c, w)] == Rook(c)
      && s'.board[KingHome(c)] == EMPTY && s'.board[RookHome(c, w)] == EMPTY
      && (forall i | 0 <= i < 64 ::
            i == KingCastled(c, w) || i == RookCastled(c, w) || i == KingHome(c) || i == RookHome(c, w)
            || s'.board[i] == s.board[i])
  {
    CastledPieces(c, w, s);
  }

  lemma CastledPieces(c: Colour, w: Wing, s: Chess)
    requires CastlingSquares(c, w, s)
    ensures multiset(EndCastling(c, w, s).board) == multiset(s.board)
  {
    var b := s.board[RookHome(c, w) := s.board[RookCastled(c, w)]][RookCastled(c, w) := s.board[RookHome(c, w)]];
    SwapKeepsPieces(s.board, RookHome(c, w), RookCastled(c, w));
    SwapKeepsPieces(b, KingHome(c), KingCastled(c, w));
    assert EndCastling(c, w, s).board == b[KingHome(c) := b[KingCastled(c, w)]][KingCastled(c, w) := b[KingHome(c)]];
  }

  lemma SwapKeepsPieces(b: seq<char>, i: nat, j: nat)
    requires i < |b| && j < |b| && i != j
    ensures multiset(b[i := b[j]][j := b[i]]) == multiset(b)
  {
  }
}
