/** What the castling rights mean over a whole run, read off the records of the moves made. */
module ChessRights {
  import opened Basics
  import opened ChessModel
  import opened ChessRecords

  datatype Made = Made(c: Colour, record: MoveRecord)

  /** The move that an event has completed: the side to move and the record sent. */
  function MadeBy(s: Chess, s': Chess): Option<Made>
    requires Ok(s)
  {
    if Completes(s, s') && s'.record.Some? then Some(Made(s.current.c, s'.record.value)) else None
  }

  /** Castling and a king move forfeit both rights of their side, and a rook move the right of every
      wing but the one whose home square the rook leaves. */
  predicate Forfeits(c: Colour, w: Wing, m: Made) {
    m.c == c && (m.record.piece == King(c) || (m.record.piece == Rook(c) && m.record.from != RookHome(c, w)))
  }

  predicate MayForfeit(c: Colour, w: Wing, m: Option<Made>) { m.Some? && Forfeits(c, w, m.value) }

  // ----- one event -----

  ghost predicate RightsFollow(s: Chess, s': Chess)
    requires Ok(s)
  {
    forall c: Colour, w: Wing :: s'.rights.Has(c, w) <==> s.rights.Has(c, w) && !MayForfeit(c, w, MadeBy(s, s'))
  }

  lemma IdleKeepsRights(s: Chess, s': Chess)
    requires Ok(s) && !Completes(s, s') && s'.rights == s.rights
    ensures RightsFollow(s, s')
  {
  }

  lemma LandedRights(c: Colour, s: Chess, s': Chess, piece: char, pin: nat)
    requires Ok(s) && Completes(s, s') && s.current.c == c && s'.record.Some?
    requires s'.record.value.from == s.x && s'.record.value.piece == Promoted(c, piece, pin)
    requires s'.rights == RightsAfter(c, s.rights, piece, s.x)
    ensures RightsFollow(s, s')
  {
  }

  lemma MoveRights(c: Colour, s: Chess, pin: nat)
    requires Ok(s) && pin < 64 && s.current != Error && s.current.c == c
    ensures RightsFollow(s, MovePiece(c, s, pin))
  {
    LandedRights(c, s, MovePiece(c, s, pin), s.board[pin := s.board[s.x]][s.x := EMPTY][pin], pin);
  }

  lemma CaptureRights(c: Colour, s: Chess, pin: nat)
    requires Ok(s) && pin < 64 && s.current == Capture(c)
    ensures RightsFollow(s, CapturePiece(c, s, pin))
  {
    LandedRights(c, s, CapturePiece(c, s, pin), CapturedBoard(s, pin)[pin], pin);
  }

  lemma CastlingRights(c: Colour, w: Wing, s: Chess)
    requires Ok(s) && (s.current == KingDownRookUp(c, w) || s.current == KingUpRookDown(c, w))
    ensures RightsFollow(s, EndCastling(c, w, s))
  {
  }

  lemma KingMoveRights(c: Colour, s: Chess, pin: nat)
    requires Ok(s) && pin < 64 && s.current == Castling(c) && !KingStays(c, s.rights, pin)
    ensures RightsFollow(s, RunCastling(c, s, pin, false))
  {
    var t := Goto(s, Move(c)).(x := KingHome(c));
    var s' := RunCastling(c, s, pin, false);
    KingMovesOn(c, s, pin);
    assert s' == MovePiece(c, t, pin);
    MoveRights(c, t, pin);
    assert MadeBy(s, s') == MadeBy(t, s') && t.rights == s.rights;
    forall k: Colour, w: Wing
      ensures s'.rights.Has(k, w) <==> s.rights.Has(k, w) && !MayForfeit(k, w, MadeBy(s, s'))
    {
      assert s'.rights.Has(k, w) <==> t.rights.Has(k, w) && !MayForfeit(k, w, MadeBy(t, s'));
    }
  }

  lemma CastlingPutRights(c: Colour, s: Chess, pin: nat)
    requires Ok(s) && pin < 64 && s.current == Castling(c)
    ensures RightsFollow(s, RunCastling(c, s, pin, false))
  {
    if KingStays(c, s.rights, pin) {
      IdleKeepsRights(s, RunCastling(c, s, pin, false));
    } else {
      KingMoveRights(c, s, pin);
    }
  }

  lemma CastlingLiftRights(c: Colour, s: Chess, pin: nat)
    requires Ok(s) && pin < 64 && s.current == Castling(c)
    ensures RightsFollow(s, RunCastling(c, s, pin, true))
  {
    KingLiftWaits(c, s, pin);
    IdleKeepsRights(s, RunCastling(c, s, pin, true));
  }

  lemma RunMoveRights(c: Colour, s: Chess, pin: nat, up: bool)
    requires Ok(s) && pin < 64 && s.current == Move(c)
    ensures RightsFollow(s, RunMove(c, s, pin, up))
  {
    if !up && s.x != pin { MoveRights(c, s, pin); } else { IdleKeepsRights(s, RunMove(c, s, pin, up)); }
  }

  lemma RunCaptureRights(c: Colour, s: Chess, pin: nat, up: bool)
    requires Ok(s) && pin < 64 && s.current == Capture(c)
    ensures RightsFollow(s, RunCapture(c, s, pin, up))
  {
    if !up && (s.y == pin || TakesEnPassant(s, pin)) { CaptureRights(c, s, pin); }
    else { IdleKeepsRights(s, RunCapture(c, s, pin, up)); }
  }

  lemma RookStateRights(s: Chess, pin: nat, up: bool)
    requires Ok(s) && pin < 64 && !s.terminated
    requires s.current.KingDownRookUp? || s.current.KingUpRookDown?
    ensures RightsFollow(s, RunState(s, pin, up))
  {
    var s' := RunState(s, pin, up);
    if s' == Goto(s, Error) { IdleKeepsRights(s, s'); } else { CastlingRights(s.current.c, s.current.w, s); }
  }

  lemma WaitingRights(s: Chess, pin: nat, up: bool)
    requires Ok(s) && pin < 64 && !s.terminated
    requires s.current.Turn? || s.current.EnemyCapture? || s.current.KingDown? || s.current.KingUpRookUp?
    ensures RightsFollow(s, RunState(s, pin, up))
  {
    NothingCompletes(s, Event(pin, up));
    IdleKeepsRights(s, RunState(s, pin, up));
  }

  lemma StateRights(s: Chess, pin: nat, up: bool)
    requires Ok(s) && pin < 64 && !s.terminated
    ensures RightsFollow(s, RunState(s, pin, up))
  {
    if s.current.Move? { RunMoveRights(s.current.c, s, pin, up); }
    else if s.current.Capture? { RunCaptureRights(s.current.c, s, pin, up); }
    else if s.current.Castling? && up { CastlingLiftRights(s.current.c, s, pin); }
    else if s.current.Castling? { CastlingPutRights(s.current.c, s, pin); }
    else if s.current.KingDownRookUp? || s.current.KingUpRookDown? { RookStateRights(s, pin, up); }
    else if s.current.Error? { IdleKeepsRights(s, s.(terminated := true)); }
    else { WaitingRights(s, pin, up); }
  }

  lemma StepRights(s: Chess, pin: nat, up: bool)
    requires Ok(s) && pin < 64
    ensures RightsFollow(Started(s), Step(s, pin, up))
  {
    var t := Started(s);
    if t.terminated { IdleKeepsRights(t, t); } else { StateRights(t, pin, up); }
  }

  // ----- runs -----

  /** The moves that a run has completed, in order. */
  function History(s: Chess, es: seq<Event>): seq<Made>
    requires Ok(s) && ValidEvents(es)
    decreases |es|
  {
    if es == [] then []
    else
      var n := |es| - 1;
      var t := Run(s, es[..n]);
      match MadeBy(Started(t), Step(t, es[n].pin, es[n].up))
      case None => History(s, es[..n])
      case Some(m) => History(s, es[..n]) + [m]
  }

  /** Over every run from a reset, legal or not: a side may castle on a wing exactly as long as it has
      neither castled nor moved its king, and no rook of its has moved except from that wing's corner. */
  lemma {:induction false} RightsTellHistory(board: seq<char>, es: seq<Event>, c: Colour, w: Wing)
    requires |board| == 64 && ValidEvents(es)
    ensures Run(Reset(board), es).rights.Has(c, w) <==>
            forall m :: m in History(Reset(board), es) ==> !Forfeits(c, w, m)
    decreases |es|
  {
    var s := Reset(board);
    if es == [] {
    } else {
      var n := |es| - 1;
      var t := Run(s, es[..n]);
      RightsTellHistory(board, es[..n], c, w);
      StepRights(t, es[n].pin, es[n].up);
    }
  }
}
