/** What the rest of the firmware is told: move records, whose turn the ply number means, and
    promotions. */
module ChessRecords {
  import opened ChessModel
  import opened ChessCastling
  import opened ChessOccupancy
  import opened ChessMirror
  import opened ChessMirrorRuns

  // ----- a record against the board -----

  /** The wing that a castling record means; the colours name different squares. */
  function RecordedWing(m: MoveRecord): Wing {
    if m.to == RookHome(White, KingSide) || m.to == RookCastled(Black, KingSide) then KingSide else QueenSide
  }

  /** The board that a reader of the record gets from the board before the move. */
  function Replay(board: seq<char>, m: MoveRecord): seq<char>
    requires |board| == 64 && m.from < 64 && m.to < 64
  {
    if m.moveType.NormalMove? then board[m.to := m.piece][m.from := EMPTY]
    else
      var c, w := if m.piece == King(White) then White else Black, RecordedWing(m);
      board[RookHome(c, w) := EMPTY][RookCastled(c, w) := Rook(c)][KingHome(c) := EMPTY][KingCastled(c, w) := King(c)]
  }

  /** The event completes a move: the other side is to move. */
  predicate Completes(s: Chess, s': Chess) {
    s.current != Error && s'.current == s'.stateVal == Turn(s.current.c.Other())
  }

  /** A record that a reader can use, with the number of the ply just made. */
  predicate Usable(s': Chess) {
    s'.record.Some? && s'.record.value.from < 64 && s'.record.value.to < 64 && s'.record.value.ply == s'.ply
  }

  lemma MoveRecorded(c: Colour, s: Chess, pin: nat)
    requires Ok(s) && pin < 64 && s.x != pin
    ensures var s' := MovePiece(c, s, pin); Usable(s') && Replay(s.board, s'.record.value) == s'.board
  {
  }

  /** A capture away from the square of the captured piece clears a square that the record does not name. */
  lemma CaptureRecorded(c: Colour, s: Chess, pin: nat)
    requires Ok(s) && pin < 64 && s.x != s.y && s.board[s.y] != EMPTY && (s.y == pin || TakesEnPassant(s, pin))
    ensures var s' := CapturePiece(c, s, pin);
            Usable(s') && (Replay(s.board, s'.record.value) == s'.board <==> s.y == pin)
  {
    var s' := CapturePiece(c, s, pin);
    if s.y != pin { assert Replay(s.board, s'.record.value)[s.y] != s'.board[s.y]; }
  }

  lemma CastlingRecorded(c: Colour, w: Wing, s: Chess)
    requires Ok(s)
    ensures var s' := EndCastling(c, w, s); Usable(s') && Replay(s.board, s'.record.value) == s'.board
  {
  }

  /** Though the colours fill in the target square differently, a castling record tells colour and wing. */
  lemma CastlingRecordTells(c: Colour, w: Wing, c': Colour, w': Wing, ply: nat)
    ensures RecordedWing(CastlingRecord(c, w, ply)) == w
    ensures CastlingRecord(c, w, ply) == CastlingRecord(c', w', ply) <==> c == c' && w == w'
  {
  }

  /** The event's record is usable, and replaying it gives the board after the event or not. */
  predicate Recorded(s: Chess, s': Chess, exact: bool)
    requires Ok(s)
  {
    Usable(s') && (Replay(s.board, s'.record.value) == s'.board <==> exact)
  }

  lemma LiftCompletesNothing(c: Colour, s: Chess, pin: nat)
    requires Ok(s) && pin < 64 && s.current == Castling(c)
    ensures !Completes(s, RunCastling(c, s, pin, true))
    ensures KingStays(c, s.rights, pin) ==> !Completes(s, RunCastling(c, s, pin, false))
  {
    KingLiftWaits(c, s, pin);
  }

  lemma KingMoveRecorded(c: Colour, s: Chess, e: Event)
    requires Ok(s) && e.pin < 64 && s.current == Castling(c) && Completes(s, RunCastling(c, s, e.pin, e.up))
    ensures Recorded(s, RunCastling(c, s, e.pin, e.up), true)
  {
    LiftCompletesNothing(c, s, e.pin);
    KingMovesOn(c, s, e.pin);
    var t := Goto(s, Move(c)).(x := KingHome(c));
    assert RunMove(c, t, e.pin, false) == MovePiece(c, t, e.pin);
    MoveRecorded(c, t, e.pin);
  }

  lemma EndRecorded(c: Colour, w: Wing, s: Chess, e: Event)
    requires Ok(s) && e.pin < 64 && !s.terminated
        && (s.current == KingDownRookUp(c, w) || s.current == KingUpRookDown(c, w))
    requires Completes(s, RunState(s, e.pin, e.up))
    ensures Recorded(s, RunState(s, e.pin, e.up), true)
  {
    CastlingRecorded(c, w, s);
  }

  lemma NothingCompletes(s: Chess, e: Event)
    requires Ok(s) && e.pin < 64 && !s.terminated
    requires s.current.Turn? || s.current.EnemyCapture? || s.current.KingDown? || s.current.KingUpRookUp?
    ensures !Completes(s, RunState(s, e.pin, e.up))
  {
  }

  /** Whenever a move is completed, its record determines the new board, except for exactly the
      captures that land away from the captured piece. */
  lemma RecordTellsBoard(s: Chess, occ: set<nat>, lost: set<nat>, e: Event)
    requires Coherent(s, occ, lost) && Possible(occ, e) && Completes(s, Step(s, e.pin, e.up))
    ensures var s' := Step(s, e.pin, e.up);
      Usable(s') && (Replay(s.board, s'.record.value) == s'.board <==> !(s.current.Capture? && s.y != e.pin))
  {
    StepStarts(s, e.pin, e.up);
    StateRecorded(s, e);
  }

  lemma StateRecorded(s: Chess, e: Event)
    requires Ok(s) && Lifted(s) && !s.terminated && s.current != Error && e.pin < 64
    requires Completes(s, RunState(s, e.pin, e.up))
    ensures Recorded(s, RunState(s, e.pin, e.up), !(s.current.Capture? && s.y != e.pin))
  {
    if s.current.Move? { MoveRecorded(s.current.c, s, e.pin); }
    else if s.current.Capture? { CaptureRecorded(s.current.c, s, e.pin); }
    else if s.current.Castling? { KingMoveRecorded(s.current.c, s, e); }
    else if s.current.KingDownRookUp? || s.current.KingUpRookDown? { EndRecorded(s.current.c, s.current.w, s, e); }
    else { NothingCompletes(s, e); }
  }

  // ----- the ply number and the side to move -----

  /** White makes the even plies. Before the first event nothing has been played. */
  predicate PlyMatchesTurn(s: Chess) {
    if !s.started then s.ply % 2 == 0
    else s.current != Error ==> (s.ply % 2 == 0 <==> s.current.c == White)
  }

  lemma NextIsOther(n: nat)
    ensures NextByte(n) % 2 == 0 <==> n % 2 == 1
  {
    assert (n + 1) % 256 % 2 == (n + 1) % 2;
  }

  lemma MovePly(c: Colour, s: Chess, pin: nat, up: bool)
    requires Ok(s) && pin < 64 && s.started && PlyMatchesTurn(s) && s.current == Move(c)
    ensures PlyMatchesTurn(RunMove(c, s, pin, up)) && RunMove(c, s, pin, up).started
  {
    NextIsOther(s.ply);
  }

  lemma CastlingPly(c: Colour, s: Chess, pin: nat, up: bool)
    requires Ok(s) && pin < 64 && s.started && PlyMatchesTurn(s) && s.current == Castling(c)
    ensures PlyMatchesTurn(RunCastling(c, s, pin, up)) && RunCastling(c, s, pin, up).started
  {
    if !up { MovePly(c, Goto(s, Move(c)).(x := KingHome(c)), pin, up); }
  }

  lemma RunStatePly(s: Chess, pin: nat, up: bool)
    requires Ok(s) && pin < 64 && s.started && !s.terminated && PlyMatchesTurn(s)
    ensures PlyMatchesTurn(RunState(s, pin, up)) <==> !(s.current == Capture(White) && RejectsCapture(s, pin, up))
    ensures RunState(s, pin, up).started
  {
    if s.current.Move? { MovePly(s.current.c, s, pin, up); }
    else if s.current.Castling? { CastlingPly(s.current.c, s, pin, up); }
    else { NextIsOther(s.ply); }
  }

  /** Over every event sequence without a rejected capture, the parity of the ply number tells whose
      turn it is. */
  lemma {:induction false} PlyTellsTurn(s: Chess, es: seq<Event>)
    requires Ok(s) && PlyMatchesTurn(s) && ValidEvents(es) && NoRejection(s, es)
    ensures PlyMatchesTurn(Run(s, es))
    decreases |es|
  {
    if es == [] {
    } else {
      var n := |es| - 1;
      PlyTellsTurn(s, es[..n]);
      var t := Run(s, es[..n]);
      if !Started(t).terminated { RunStatePly(Started(t), es[n].pin, es[n].up); }
    }
  }

  // ----- promotion -----

  /** No pawn stands on the far rank of its colour. */
  predicate PawnsPromoted(board: seq<char>) {
    forall i :: 0 <= i < |board| ==> (i < 8 ==> board[i] != 'P') && (i > 55 ==> board[i] != 'p')
  }

  lemma LandingPromotes(c: Colour, s: Chess, pin: nat)
    requires Ok(s) && pin < 64 && IsOf(c, s.board[s.x]) && PawnsPromoted(s.board)
    ensures PawnsPromoted(MovePiece(c, s, pin).board) && PawnsPromoted(CapturePiece(c, s, pin).board)
  {
  }

  lemma CastlingPromotes(c: Colour, w: Wing, s: Chess)
    requires Ok(s) && PawnsPromoted(s.board)
    ensures PawnsPromoted(EndCastling(c, w, s).board)
  {
  }

  lemma StepPromotes(s: Chess, pin: nat, up: bool)
    requires Inv(s) && s.started && pin < 64 && PawnsPromoted(s.board)
    ensures PawnsPromoted(RunState(s, pin, up).board)
  {
    match s.current
    case Turn(c) =>
    case Move(c) => LandingPromotes(c, s, pin);
    case Capture(c) => LandingPromotes(c, s, pin);
    case EnemyCapture(c) =>
    case Castling(c) => KingInAirPromotes(c, s, pin, up);
    case Error =>
    case _ => WingPromotes(s, pin, up);
  }

  lemma KingInAirPromotes(c: Colour, s: Chess, pin: nat, up: bool)
    requires Inv(s) && s.started && pin < 64 && PawnsPromoted(s.board) && s.current == Castling(c)
    ensures PawnsPromoted(RunState(s, pin, up).board)
  {
    if up {
      CastlingLiftKeepsBoard(c, s, pin);
    } else {
      LandingPromotes(c, Goto(s, Move(c)).(x := KingHome(c)), pin);
    }
  }

  lemma WingPromotes(s: Chess, pin: nat, up: bool)
    requires Inv(s) && s.started && pin < 64 && PawnsPromoted(s.board)
    requires s.current.KingDown? || s.current.KingUpRookUp? || s.current.KingDownRookUp? || s.current.KingUpRookDown?
    ensures PawnsPromoted(RunState(s, pin, up).board)
  {
    if s.current.KingDownRookUp? || s.current.KingUpRookDown? {
      CastlingPromotes(s.current.c, s.current.w, s);
    }
  }

  /** Over every event sequence, legal or not, no pawn ever stands on the far rank of its colour. */
  lemma {:induction false} PawnsAlwaysPromote(s: Chess, es: seq<Event>)
    requires Inv(s) && PawnsPromoted(s.board) && ValidEvents(es)
    ensures PawnsPromoted(Run(s, es).board)
    decreases |es|
  {
    if es == [] {
    } else {
      var n := |es| - 1;
      PawnsAlwaysPromote(s, es[..n]);
      RightsMeanKingAtHome(s, es[..n]);
      StepPromotes(Started(Run(s, es[..n])), es[n].pin, es[n].up);
    }
  }
}
