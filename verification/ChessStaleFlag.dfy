/** A legal game in which the stale en passant flag makes a capturing knight vanish from the board:
    1. e4 Nf6 2. Qe2 Ng4 3. Qe3 Nxe3. */
module ChessStaleFlag {
  import opened ChessModel
  import opened ChessOccupancy

  const E2: nat := 52
  const E4: nat := 36
  const G8: nat := 6
  const F6: nat := 21
  const D1: nat := 59
  const G4: nat := 38
  const E3: nat := 44

  function Lift(square: nat): Event { Event(square, true) }
  function Put(square: nat): Event { Event(square, false) }

  function Play(s: Chess, from: nat, to: nat): Chess
    requires Ok(s) && from < 64 && to < 64
  {
    Step(Step(s, from, true), to, false)
  }

  /** A plain move of a piece other than a king or a rook to an empty square. */
  lemma PlainMove(c: Colour, s: Chess, from: nat, to: nat)
    requires Ok(s) && from < 64 && to < 64 && from != to && s.board[to] == EMPTY
    requires if s.started then !s.terminated && s.current == Turn(c) else c == White
    requires !s.directToError && IsOf(c, s.board[from]) && s.board[from] != King(c) && s.board[from] != Rook(c)
    requires s.board[from] == Pawn(c) ==> !LastRank(c, to)
    ensures var s' := Play(s, from, to);
      && s'.started && !s'.terminated && !s'.directToError && s'.current == s'.stateVal == Turn(c.Other())
      && s'.board == s.board[to := s.board[from]][from := EMPTY]
      && s'.enPassant == (if s.board[from] == Pawn(c) then to - from == 2 * Forward(c) else s.enPassant)
      && s'.enPassantSquare == (if s.board[from] == Pawn(c) then (to - Forward(c)) % 256 else s.enPassantSquare)
      && Occupied(s'.board) == Sense(Sense(Occupied(s.board), Lift(from)), Put(to))
  {
  }

  lemma StartPieces()
    ensures START_BOARD[E2] == 'P' && START_BOARD[G8] == 'n' && START_BOARD[D1] == 'Q' && |START_BOARD| == 64
    ensures START_BOARD[E4] == EMPTY && START_BOARD[F6] == EMPTY && START_BOARD[G4] == EMPTY && START_BOARD[E3] == EMPTY
  {
  }

  /** The squares that matter after 1. e4, with the flag set for e3. */
  predicate Shows(s: Chess, turn: Colour, g8: char, f6: char, g4: char, d1: char, e2: char, e3: char) {
    && Ok(s) && s.started && !s.terminated && !s.directToError && s.current == s.stateVal == Turn(turn)
    && s.enPassant && s.enPassantSquare == E3
    && s.board[G8] == g8 && s.board[F6] == f6 && s.board[G4] == g4
    && s.board[D1] == d1 && s.board[E2] == e2 && s.board[E3] == e3
  }

  lemma PawnMove() returns (s: Chess)
    ensures s == Play(Reset(START_BOARD), E2, E4)
    ensures Shows(s, Black, 'n', ' ', ' ', 'Q', ' ', ' ')
  {
    StartPieces();
    s := Reset(START_BOARD);
    PlainMove(White, s, E2, E4);
    s := Play(s, E2, E4);
  }

  lemma KnightOut(s: Chess)
    requires Shows(s, Black, 'n', ' ', ' ', 'Q', ' ', ' ')
    ensures Shows(Play(s, G8, F6), White, ' ', 'n', ' ', 'Q', ' ', ' ')
  {
    PlainMove(Black, s, G8, F6);
  }

  lemma QueenOut(s: Chess)
    requires Shows(s, White, ' ', 'n', ' ', 'Q', ' ', ' ')
    ensures Shows(Play(s, D1, E2), Black, ' ', 'n', ' ', ' ', 'Q', ' ')
  {
    PlainMove(White, s, D1, E2);
  }

  lemma KnightOn(s: Chess)
    requires Shows(s, Black, ' ', 'n', ' ', ' ', 'Q', ' ')
    ensures Shows(Play(s, F6, G4), White, ' ', ' ', 'n', ' ', 'Q', ' ')
  {
    PlainMove(Black, s, F6, G4);
  }

  lemma QueenOn(s: Chess)
    requires Shows(s, White, ' ', ' ', 'n', ' ', 'Q', ' ')
    ensures Shows(Play(s, E2, E3), Black, ' ', ' ', 'n', ' ', ' ', 'Q')
  {
    PlainMove(White, s, E2, E3);
  }

  /** The position after 3. Qe3, with the flag of move 1 still set for e3. */
  lemma AfterOpening() returns (s: Chess)
    ensures Shows(s, Black, ' ', ' ', 'n', ' ', ' ', 'Q')
    ensures s == Play(Play(Play(Play(Play(Reset(START_BOARD), E2, E4), G8, F6), D1, E2), F6, G4), E2, E3)
  {
    var s1 := PawnMove();
    KnightOut(s1);
    var s2 := Play(s1, G8, F6);
    QueenOut(s2);
    var s3 := Play(s2, D1, E2);
    KnightOn(s3);
    var s4 := Play(s3, F6, G4);
    QueenOn(s4);
    s := Play(s4, E2, E3);
  }

  /** Lifting the knight, lifting the queen and putting the knight in her place is accepted, gives
      White the turn, and leaves e3 empty in memory while the knight stands on it. */
  lemma KnightVanishes()
    ensures var s := Play(Play(Play(Play(Play(Reset(START_BOARD), E2, E4), G8, F6), D1, E2), F6, G4), E2, E3);
            var s' := Step(Step(Step(s, G4, true), E3, true), E3, false);
            && s'.current == s'.stateVal == Turn(White)
            && s'.board[E3] == EMPTY
            && E3 in Sense(Sense(Sense(Occupied(s.board), Lift(G4)), Lift(E3)), Put(E3))
            && Occupied(s'.board) != Sense(Sense(Sense(Occupied(s.board), Lift(G4)), Lift(E3)), Put(E3))
  {
    var s := AfterOpening();
    assert Step(s, G4, true) == Goto(s, Move(Black)).(x := G4);
    assert Step(Step(s, G4, true), E3, true) == Goto(s, Capture(Black)).(x := G4, y := E3);
  }
}
