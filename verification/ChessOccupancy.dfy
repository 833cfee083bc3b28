/** The board in memory against the pieces standing on the sensors. */
module ChessOccupancy {
  import opened ChessModel
  import opened ChessCastling

  /** The squares that the board in memory shows as occupied. */
  function Occupied(board: seq<char>): set<nat> {
    set i: nat | i < |board| && board[i] != EMPTY
  }

  /** Where pieces stand, given what the players have in hand. */
  function Expected(s: Chess): set<nat>
    requires Ok(s)
  {
    var all := Occupied(s.board);
    match s.current
    case Turn(_) => all
    case Move(_) => all - {s.x}
    case Capture(_) => all - {s.x, s.y}
    case EnemyCapture(_) => all - {s.y}
    case Castling(c) => all - {KingHome(c)}
    case KingDown(c, w) => all - {KingHome(c)} + {KingCastled(c, w)}
    case KingUpRookUp(c, w) => all - {KingHome(c), RookHome(c, w)}
    case KingDownRookUp(c, w) => all - {KingHome(c), RookHome(c, w)} + {KingCastled(c, w)}
    case KingUpRookDown(c, w) => all - {KingHome(c), RookHome(c, w)} + {RookCastled(c, w)}
    case Error => {}
  }

  /** The pieces in hand are the ones the state says, and memory has not yet put king or rook down. */
  predicate Lifted(s: Chess)
    requires Ok(s)
  {
    match s.current
    case Move(c) => IsOf(c, s.board[s.x])
    case Capture(c) => s.board[s.x] != EMPTY && s.board[s.y] != EMPTY && s.x != s.y
    case EnemyCapture(_) => s.board[s.y] != EMPTY
    case Castling(c) => s.board[KingHome(c)] == King(c)
    case KingDown(c, w) => s.board[KingHome(c)] == King(c) && s.board[KingCastled(c, w)] == EMPTY
    case KingUpRookUp(c, w) => s.board[KingHome(c)] == King(c) && s.board[RookHome(c, w)] == Rook(c)
    case KingDownRookUp(c, w) =>
      s.board[KingHome(c)] == King(c) && s.board[RookHome(c, w)] == Rook(c) && s.board[KingCastled(c, w)] == EMPTY
    case KingUpRookDown(c, w) =>
      s.board[KingHome(c)] == King(c) && s.board[RookHome(c, w)] == Rook(c) && s.board[RookCastled(c, w)] == EMPTY
    case _ => true
  }

  /** Model and world agree, but for some squares that show a piece on the table and none in memory. */
  predicate Coherent(s: Chess, occ: set<nat>, lost: set<nat>) {
    && Inv(s) && s.started && !s.terminated && s.current == s.stateVal && s.current != Error && Lifted(s)
    && occ == Expected(s) + lost && lost !! Expected(s) && lost !! Occupied(s.board)
  }

  /** A piece can only be lifted from an occupied square and put on an empty one. */
  predicate Possible(occ: set<nat>, e: Event) { e.pin < 64 && (e.up <==> e.pin in occ) }

  function Sense(occ: set<nat>, e: Event): set<nat> { if e.up then occ - {e.pin} else occ + {e.pin} }

  /** A capture that lands on the en passant square while the board shows a piece there. */
  predicate MistakenEnPassant(s: Chess, e: Event)
    requires Ok(s) && e.pin < 64
  {
    s.current.Capture? && !e.up && TakesEnPassant(s, e.pin) && s.board[e.pin] != EMPTY
  }

  /** A mistaken capture loses the piece that lands; lifting a lost piece settles the matter. */
  function LostAfter(s: Chess, e: Event, lost: set<nat>): set<nat>
    requires Ok(s) && e.pin < 64
  {
    if MistakenEnPassant(s, e) then lost + {e.pin} else if e.up then lost - {e.pin} else lost
  }

  /** An error, or agreement up to the lost pieces again. */
  predicate StaysCoherent(s: Chess, s': Chess, occ: set<nat>, lost: set<nat>, e: Event)
    requires Ok(s) && e.pin < 64
  {
    s'.stateVal == Error || Coherent(s', Sense(occ, e), LostAfter(s, e, lost))
  }

  // ----- one step -----

  lemma TurnCoherent(c: Colour, s: Chess, occ: set<nat>, lost: set<nat>, e: Event)
    requires Coherent(s, occ, lost) && s.current == Turn(c) && Possible(occ, e)
    ensures StaysCoherent(s, RunTurn(c, s, e.pin, e.up), occ, lost, e)
  {
    RunTurnKeeps(c, s, e.pin, e.up);
  }

  lemma MoveCoherent(c: Colour, s: Chess, occ: set<nat>, lost: set<nat>, e: Event)
    requires Coherent(s, occ, lost) && s.current == Move(c) && Possible(occ, e)
    ensures StaysCoherent(s, RunMove(c, s, e.pin, e.up), occ, lost, e)
  {
    RunMoveKeeps(c, s, e.pin, e.up);
  }

  /** What a capture does to the board, and when that is what happened on the table. */
  lemma CaptureExact(c: Colour, s: Chess, occ: set<nat>, e: Event)
    requires Coherent(s, occ, {}) && s.current == Capture(c) && Possible(occ, e) && !e.up
    requires s.y == e.pin || TakesEnPassant(s, e.pin)
    ensures Occupied(RunCapture(c, s, e.pin, false).board) == Sense(occ, e) <==> !MistakenEnPassant(s, e)
  {
    CaptureOccupies(c, s, occ, {}, e);
  }

  lemma CaptureOccupies(c: Colour, s: Chess, occ: set<nat>, lost: set<nat>, e: Event)
    requires Coherent(s, occ, lost) && s.current == Capture(c) && Possible(occ, e) && !e.up
    requires s.y == e.pin || TakesEnPassant(s, e.pin)
    ensures var after := Occupied(RunCapture(c, s, e.pin, false).board);
      Sense(occ, e) == after + LostAfter(s, e, lost) && after !! LostAfter(s, e, lost)
  {
    var b, pin := CapturePiece(c, s, e.pin).board, e.pin;
    if MistakenEnPassant(s, e) {
      assert pin == s.x || pin == s.y;
      assert pin in Sense(occ, e) && pin !in Occupied(b);
      assert forall i: nat :: i < 64 && i != s.x && i != s.y ==> b[i] == s.board[i];
      assert b[s.x] == EMPTY && b[s.y] == EMPTY;
    } else {
      assert pin != s.x && b[pin] != EMPTY && b[s.x] == EMPTY;
      assert forall i: nat :: i < 64 && i != s.x && i != s.y && i != pin ==> b[i] == s.board[i];
    }
  }

  lemma CaptureCoherent(c: Colour, s: Chess, occ: set<nat>, lost: set<nat>, e: Event)
    requires Coherent(s, occ, lost) && s.current == Capture(c) && Possible(occ, e)
    ensures StaysCoherent(s, RunCapture(c, s, e.pin, e.up), occ, lost, e)
  {
    RunCaptureKeeps(c, s, e.pin, e.up);
    if !e.up && (s.y == e.pin || TakesEnPassant(s, e.pin)) { CaptureOccupies(c, s, occ, lost, e); }
  }

  lemma EnemyCaptureCoherent(c: Colour, s: Chess, occ: set<nat>, lost: set<nat>, e: Event)
    requires Coherent(s, occ, lost) && s.current == EnemyCapture(c) && Possible(occ, e)
    ensures StaysCoherent(s, RunEnemyCapture(c, s, e.pin, e.up), occ, lost, e)
  {
    RunEnemyCaptureKeeps(c, s, e.pin, e.up);
  }

  /** With the king in the air, lifting a lost piece is the one lift that is overlooked. */
  lemma CastlingCoherent(c: Colour, s: Chess, occ: set<nat>, lost: set<nat>, e: Event)
    requires Coherent(s, occ, lost) && s.current == Castling(c) && Possible(occ, e)
    ensures StaysCoherent(s, RunCastling(c, s, e.pin, e.up), occ, lost, e)
  {
    RunCastlingKeeps(c, s, e.pin, e.up);
    if !e.up { CastlingPutCoherent(c, s, occ, lost, e); }
  }

  /** So a lost piece can be lifted then, and nothing is noticed: the machine stays as it is. */
  lemma LostPieceLifted(c: Colour, s: Chess, occ: set<nat>, lost: set<nat>, pin: nat)
    requires Coherent(s, occ, lost) && s.current == Castling(c) && pin in lost && pin < 64
    ensures Step(s, pin, true) == s && Coherent(s, occ - {pin}, lost - {pin})
  {
    assert s.board[pin] == EMPTY;
  }

  lemma CastlingPutCoherent(c: Colour, s: Chess, occ: set<nat>, lost: set<nat>, e: Event)
    requires Coherent(s, occ, lost) && s.current == Castling(c) && Possible(occ, e) && !e.up
    ensures StaysCoherent(s, RunCastling(c, s, e.pin, e.up), occ, lost, e)
  {
    var t := Goto(s, Move(c)).(x := KingHome(c));
    assert Coherent(t, occ, lost);
    MoveCoherent(c, t, occ, lost, e);
    RunCastlingKeeps(c, s, e.pin, e.up);
  }

  lemma RookStatesCoherent(c: Colour, w: Wing, s: Chess, occ: set<nat>, lost: set<nat>, e: Event)
    requires Coherent(s, occ, lost) && Possible(occ, e)
    requires s.current == KingDown(c, w) || s.current == KingUpRookUp(c, w)
    ensures StaysCoherent(s, RunState(s, e.pin, e.up), occ, lost, e)
  {
  }

  lemma EndCoherent(c: Colour, w: Wing, s: Chess, occ: set<nat>, lost: set<nat>, e: Event)
    requires Coherent(s, occ, lost) && Possible(occ, e)
    requires s.current == KingDownRookUp(c, w) || s.current == KingUpRookDown(c, w)
    ensures StaysCoherent(s, RunState(s, e.pin, e.up), occ, lost, e)
  {
    EndCastlingKeeps(c, w, s);
    CastledOccupies(c, w, s);
  }

  lemma CastledOccupies(c: Colour, w: Wing, s: Chess)
    requires Ok(s)
    ensures Occupied(EndCastling(c, w, s).board) ==
            Occupied(s.board) - {KingHome(c), RookHome(c, w)} + {KingCastled(c, w), RookCastled(c, w)}
  {
  }

  lemma StepCoherent(s: Chess, occ: set<nat>, lost: set<nat>, e: Event)
    requires Coherent(s, occ, lost) && Possible(occ, e)
    ensures StaysCoherent(s, Step(s, e.pin, e.up), occ, lost, e)
  {
    match s.current
    case Turn(c) => TurnCoherent(c, s, occ, lost, e);
    case Move(c) => MoveCoherent(c, s, occ, lost, e);
    case Capture(c) => CaptureCoherent(c, s, occ, lost, e);
    case EnemyCapture(c) => EnemyCaptureCoherent(c, s, occ, lost, e);
    case Castling(c) => CastlingCoherent(c, s, occ, lost, e);
    case KingDown(c, w) => RookStatesCoherent(c, w, s, occ, lost, e);
    case KingUpRookUp(c, w) => RookStatesCoherent(c, w, s, occ, lost, e);
    case KingDownRookUp(c, w) => EndCoherent(c, w, s, occ, lost, e);
    case KingUpRookDown(c, w) => EndCoherent(c, w, s, occ, lost, e);
  }

  // ----- runs -----

  function OccupiedAfter(occ: set<nat>, es: seq<Event>): set<nat> {
    if es == [] then occ else Sense(OccupiedAfter(occ, es[..|es| - 1]), es[|es| - 1])
  }

  /** A run of possible events that has met no error. */
  predicate CleanRun(s: Chess, occ: set<nat>, es: seq<Event>)
    requires Ok(s) && ValidEvents(es)
  {
    es == [] ||
    (var before, e := es[..|es| - 1], es[|es| - 1];
     && CleanRun(s, occ, before)
     && Possible(OccupiedAfter(occ, before), e)
     && Run(s, es).stateVal != Error)
  }

  /** The squares of mistaken captures that have not been lifted since. */
  function LostBy(s: Chess, es: seq<Event>): set<nat>
    requires Ok(s) && ValidEvents(es)
    decreases |es|
  {
    if es == [] then {}
    else
      var before, e := es[..|es| - 1], es[|es| - 1];
      LostAfter(Run(s, before), e, LostBy(s, before))
  }

  /** No capture of the run is mistaken. */
  predicate NoMistake(s: Chess, es: seq<Event>)
    requires Ok(s) && ValidEvents(es)
    decreases |es|
  {
    es == [] ||
    (var before, e := es[..|es| - 1], es[|es| - 1];
     NoMistake(s, before) && !MistakenEnPassant(Run(s, before), e))
  }

  lemma {:induction false} NoMistakeNoLoss(s: Chess, es: seq<Event>)
    requires Ok(s) && ValidEvents(es) && NoMistake(s, es)
    ensures LostBy(s, es) == {}
    decreases |es|
  {
    if es == [] {
    } else {
      NoMistakeNoLoss(s, es[..|es| - 1]);
    }
  }

  /** Before the first event it is White's turn, and the same event starts the machine. */
  predicate Fresh(s: Chess) { Inv(s) && !s.started && s.stateVal == Turn(White) && s.current == Turn(White) }

  lemma FirstEvent(s: Chess, e: Event)
    requires Fresh(s) && Possible(Occupied(s.board), e)
    ensures StaysCoherent(s, Step(s, e.pin, e.up), Occupied(s.board), {}, e)
  {
    var t := Started(s);
    assert Coherent(t, Occupied(s.board), {});
    StepCoherent(t, Occupied(s.board), {}, e);
    StepStarts(s, e.pin, e.up);
  }

  lemma {:induction false} CleanRunsCoherent(s: Chess, es: seq<Event>)
    requires Fresh(s) && ValidEvents(es) && CleanRun(s, Occupied(s.board), es)
    ensures es == [] || Coherent(Run(s, es), OccupiedAfter(Occupied(s.board), es), LostBy(s, es))
    decreases |es|
  {
    if es == [] {
    } else {
      var before, e := es[..|es| - 1], es[|es| - 1];
      var occ := Occupied(s.board);
      CleanRunsCoherent(s, before);
      if before == [] {
        FirstEvent(s, e);
      } else {
        StepCoherent(Run(s, before), OccupiedAfter(occ, before), LostBy(s, before), e);
      }
    }
  }

  /** After any clean run from a reset, whenever it is a player's turn, the squares where pieces stand
      are those that the board in memory shows, and those where a mistaken capture has landed and
      that have not been lifted since. So board and table agree if and only if there are none. */
  lemma BoardMatchesTable(board: seq<char>, es: seq<Event>)
    requires Inv(Reset(board)) && ValidEvents(es) && CleanRun(Reset(board), Occupied(board), es)
    requires Run(Reset(board), es).stateVal.Turn?
    ensures var s, occ, lost := Run(Reset(board), es), OccupiedAfter(Occupied(board), es), LostBy(Reset(board), es);
      occ == Occupied(s.board) + lost && (Occupied(s.board) == occ <==> lost == {})
    ensures NoMistake(Reset(board), es) ==>
      Occupied(Run(Reset(board), es).board) == OccupiedAfter(Occupied(board), es)
  {
    CleanRunsCoherent(Reset(board), es);
    var s, occ, lost := Run(Reset(board), es), OccupiedAfter(Occupied(board), es), LostBy(Reset(board), es);
    assert occ == Occupied(s.board) + lost && lost !! Occupied(s.board);
    if lost != {} {
      var i :| i in lost;
      assert i in occ && i !in Occupied(s.board);
    }
    if NoMistake(Reset(board), es) { NoMistakeNoLoss(Reset(board), es); }
  }
}
