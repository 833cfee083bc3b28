/** Every move can be made: what a player does with the pieces is accepted in every order, and the
    position after it is the one that the rules of the game give. */
module ChessMoves {
  import opened Basics
  import opened ChessModel
  import opened ChessCastling
  import opened ChessGeometry

  // ----- the position after a move, in letters and numbers -----

  /** The piece that stands on the target: a pawn on the last rank has become a queen. */
  function Landed(p: char, to: nat): char {
    if p == 'P' && to < 8 then 'Q' else if p == 'p' && to >= 56 then 'q' else p
  }

  /** A king forfeits both rights of its side, and a rook all but that of the corner it leaves. */
  predicate RightsAfterMove(before: Rights, after: Rights, p: char, from: nat) {
    match p
    case 'K' => after == before.(whiteKing := false, whiteQueen := false)
    case 'k' => after == before.(blackKing := false, blackQueen := false)
    case 'R' =>
      after == before.(whiteKing := before.whiteKing && from == 63, whiteQueen := before.whiteQueen && from == 56)
    case 'r' =>
      after == before.(blackKing := before.blackKing && from == 7, blackQueen := before.blackQueen && from == 0)
    case _ => after == before
  }

  /** The turn has passed, the ply is counted, and the record says what was done. */
  predicate TurnPassed(s: Chess, s': Chess, c: Colour, from: nat, to: nat)
    requires Ok(s) && from < 64
  {
    && s'.current == s'.stateVal == Turn(if c.White? then Black else White) && !s'.terminated
    && s'.ply == (s.ply + 1) % 256 && RightsAfterMove(s.rights, s'.rights, s.board[from], from)
    && s'.record == Some(MoveRecord(s'.ply, from, to, Landed(s.board[from], to), ' ', NormalMove))
  }

  /** A capture: both pieces are gone from their squares, and the capturing one stands on the target. */
  predicate Captures(s: Chess, s': Chess, c: Colour, x: nat, y: nat, z: nat)
    requires Ok(s) && x < 64 && y < 64 && z < 64
  {
    && TurnPassed(s, s', c, x, z)
    && s'.board == s.board[x := ' '][y := ' '][z := Landed(s.board[x], z)]
    && s'.plySincePonr == 0 && !s'.enPassant
  }

  /** A move to an empty square. */
  predicate Moves(s: Chess, s': Chess, c: Colour, x: nat, z: nat)
    requires Ok(s) && x < 64 && z < 64
  {
    var pawn := s.board[x] == 'P' || s.board[x] == 'p';
    && TurnPassed(s, s', c, x, z)
    && s'.board == s.board[x := ' '][z := Landed(s.board[x], z)]
    && s'.plySincePonr == (if pawn then 0 else (s.plySincePonr + 1) % 256)
    && s'.enPassant == (if s.board[x] == 'P' then z == x - 16
                        else if s.board[x] == 'p' then z == x + 16
                        else s.enPassant)
    && (pawn && s'.enPassant ==> 2 * s'.enPassantSquare == x + z)
    && (!pawn ==> s'.enPassantSquare == s.enPassantSquare)
  }

  // ----- from one turn -----

  /** A turn of the running machine. */
  predicate AtTurn(s: Chess, c: Colour) { Inv(s) && s.started && !s.terminated && s.current == Turn(c) }

  /** A piece of c on x, one of the enemy on y, and the target: y itself, or an empty square on which a
      capture en passant lands. */
  predicate MayCapture(s: Chess, c: Colour, x: nat, y: nat, z: nat)
    requires Ok(s)
  {
    && x < 64 && y < 64 && z < 64 && x != y
    && PieceOf(c, s.board[x]) && PieceOf(c.Other(), s.board[y])
    && if s.enPassant && s.enPassantSquare == z then s.board[z] == ' ' else z == y
  }

  lemma LandedIs(c: Colour, p: char, z: nat)
    requires PieceOf(c, p)
    ensures Promoted(c, p, z) == Landed(p, z)
  {
  }

  lemma RightsAre(c: Colour, r: Rights, p: char, x: nat)
    requires PieceOf(c, p)
    ensures RightsAfterMove(r, RightsAfter(c, r, p, x), p, x)
  {
  }

  /** The landing of a capture, once both pieces are in the air. */
  lemma CaptureLands(s: Chess, t: Chess, c: Colour, x: nat, y: nat, z: nat)
    requires Ok(s) && MayCapture(s, c, x, y, z) && Ok(t) && t.started && !t.terminated
    requires t == s.(current := Capture(c), stateVal := Capture(c), x := x, y := y)
    ensures Captures(s, Step(t, z, false), c, x, y, z)
  {
    LandedIs(c, s.board[x], z);
    RightsAre(c, s.rights, s.board[x], x);
    LandedBoard(s, t, c, x, y, z);
  }

  lemma LandedBoard(s: Chess, t: Chess, c: Colour, x: nat, y: nat, z: nat)
    requires Ok(s) && MayCapture(s, c, x, y, z) && Ok(t) && t.board == s.board && t.x == x && t.y == y
    requires t.enPassant == s.enPassant && t.enPassantSquare == s.enPassantSquare
    ensures CapturedBoard(t, z) == s.board[x := ' '][y := ' '][z := s.board[x]]
  {
  }

  /** Own piece first, then the enemy's: also a king that may still castle. */
  lemma OwnFirst(s: Chess, c: Colour, x: nat, y: nat, z: nat)
    requires AtTurn(s, c) && MayCapture(s, c, x, y, z)
    ensures Step(Step(s, x, true), y, true) == s.(current := Capture(c), stateVal := Capture(c), x := x, y := y)
  {
    PieceColours(s.board[x]);
    PieceColours(s.board[y]);
    if s.board[x] == King(c) && s.rights.HasAny(c) {
      assert x == KingHome(c);
      assert Step(s, x, true) == Goto(s, Castling(c));
    } else {
      assert Step(s, x, true) == Goto(s, Move(c)).(x := x);
    }
  }

  /** The enemy's piece first. */
  lemma EnemyFirst(s: Chess, c: Colour, x: nat, y: nat, z: nat)
    requires AtTurn(s, c) && MayCapture(s, c, x, y, z)
    ensures Step(Step(s, y, true), x, true) == s.(current := Capture(c), stateVal := Capture(c), x := x, y := y)
  {
    PieceColours(s.board[x]);
    PieceColours(s.board[y]);
    assert Step(s, y, true) == Goto(s, EnemyCapture(c)).(y := y);
  }

  // ----- from every reachable turn -----

  /** Both orders end in one and the same state, and that is the capture. */
  predicate CaptureWorks(s: Chess, c: Colour, x: nat, y: nat, z: nat)
    requires Ok(s) && x < 64 && y < 64 && z < 64
  {
    var ownFirst := Step(Step(Step(s, x, true), y, true), z, false);
    var enemyFirst := Step(Step(Step(s, y, true), x, true), z, false);
    ownFirst == enemyFirst && Captures(s, ownFirst, c, x, y, z)
  }

  /** From any reachable turn, the first of a game included: lifting the own piece and then the enemy's,
      or the enemy's and then the own, and putting the own one on the target are both accepted. */
  lemma CaptureConfluence(s0: Chess, es: seq<Event>, c: Colour, x: nat, y: nat, z: nat)
    requires Inv(s0) && ValidEvents(es) && ToMove(Run(s0, es), c) && MayCapture(Run(s0, es), c, x, y, z)
    ensures CaptureWorks(Run(s0, es), c, x, y, z)
  {
    TurnReached(s0, es, c);
    BothOrders(Started(Run(s0, es)), c, x, y, z);
    WorksFromStart(Run(s0, es), c, x, y, z);
  }

  lemma WorksFromStart(s: Chess, c: Colour, x: nat, y: nat, z: nat)
    requires Ok(s) && x < 64 && y < 64 && z < 64 && CaptureWorks(Started(s), c, x, y, z)
    ensures CaptureWorks(s, c, x, y, z)
  {
    StepStarts(s, x, true);
    StepStarts(s, y, true);
    SameFromStart(s, Step(Step(Step(s, x, true), y, true), z, false), c, x, y, z);
  }

  lemma SameFromStart(s: Chess, s': Chess, c: Colour, x: nat, y: nat, z: nat)
    requires Ok(s) && x < 64 && y < 64 && z < 64
    ensures Captures(Started(s), s', c, x, y, z) <==> Captures(s, s', c, x, y, z)
    ensures Moves(Started(s), s', c, x, z) <==> Moves(s, s', c, x, z)
  {
  }

  /** The state in which the first event of the turn finds the machine. */
  lemma TurnReached(s0: Chess, es: seq<Event>, c: Colour)
    requires Inv(s0) && ValidEvents(es) && ToMove(Run(s0, es), c)
    ensures var s := Run(s0, es);
      AtTurn(Started(s), c) && Started(s) == s.(started := true, current := Turn(c), terminated := false)
  {
    RightsMeanKingAtHome(s0, es);
  }

  lemma BothOrders(s: Chess, c: Colour, x: nat, y: nat, z: nat)
    requires AtTurn(s, c) && MayCapture(s, c, x, y, z)
    ensures CaptureWorks(s, c, x, y, z)
  {
    OwnFirst(s, c, x, y, z);
    EnemyFirst(s, c, x, y, z);
    CaptureLands(s, s.(current := Capture(c), stateVal := Capture(c), x := x, y := y), c, x, y, z);
  }

  /** The squares where a lifted king castles instead of moving. */
  predicate StartsCastling(s: Chess, c: Colour, x: nat, z: nat)
    requires Ok(s) && x < 64
  {
    && s.board[x] == (if c.White? then 'K' else 'k')
    && if c.White? then (s.rights.whiteKing && z == 62) || (s.rights.whiteQueen && z == 58)
       else (s.rights.blackKing && z == 6) || (s.rights.blackQueen && z == 2)
  }

  lemma MoveLands(s: Chess, t: Chess, c: Colour, x: nat, z: nat)
    requires Ok(s) && x < 64 && z < 64 && x != z && PieceOf(c, s.board[x]) && s.board[z] == ' '
    requires Ok(t) && t == s.(current := Move(c), stateVal := Move(c), x := x) && t.started && !t.terminated
    ensures Moves(s, Step(t, z, false), c, x, z)
  {
    LandedIs(c, s.board[x], z);
    RightsAre(c, s.rights, s.board[x], x);
    MovedBoard(s.board, x, z, Landed(s.board[x], z));
  }

  lemma MovedBoard(b: seq<char>, x: nat, z: nat, p: char)
    requires x < |b| && z < |b| && x != z
    ensures b[z := b[x]][x := ' '][z := p] == b[x := ' '][z := p]
    ensures b[z := b[x]][x := ' '][z] == b[x]
  {
  }

  /** Lifting a piece and putting it on an empty square is accepted from any reachable turn, and is that
      move, unless it is a king put where it may castle. */
  lemma MoveIsAccepted(s0: Chess, es: seq<Event>, c: Colour, x: nat, z: nat)
    requires Inv(s0) && ValidEvents(es) && ToMove(Run(s0, es), c) && x < 64 && z < 64 && x != z
    requires PieceOf(c, Run(s0, es).board[x]) && Run(s0, es).board[z] == ' ' && !StartsCastling(Run(s0, es), c, x, z)
    ensures MoveWorks(Run(s0, es), c, x, z)
  {
    TurnReached(s0, es, c);
    MoveFromTurn(Started(Run(s0, es)), c, x, z);
    MoveWorksFromStart(Run(s0, es), c, x, z);
  }

  predicate MoveWorks(s: Chess, c: Colour, x: nat, z: nat)
    requires Ok(s) && x < 64 && z < 64
  {
    Moves(s, Step(Step(s, x, true), z, false), c, x, z)
  }

  lemma MoveWorksFromStart(s: Chess, c: Colour, x: nat, z: nat)
    requires Ok(s) && x < 64 && z < 64 && MoveWorks(Started(s), c, x, z)
    ensures MoveWorks(s, c, x, z)
  {
    StepStarts(s, x, true);
    SameFromStart(s, Step(Step(s, x, true), z, false), c, x, x, z);
  }

  lemma MoveFromTurn(s: Chess, c: Colour, x: nat, z: nat)
    requires AtTurn(s, c) && x < 64 && z < 64 && x != z
    requires PieceOf(c, s.board[x]) && s.board[z] == ' ' && !StartsCastling(s, c, x, z)
    ensures MoveWorks(s, c, x, z)
  {
    var t := s.(current := Move(c), stateVal := Move(c), x := x);
    MoveLands(s, t, c, x, z);
    PieceColours(s.board[x]);
    if s.board[x] == King(c) && s.rights.HasAny(c) {
      KingFromTurn(s, c, z);
    } else {
      assert Step(s, x, true) == t;
    }
  }

  lemma KingFromTurn(s: Chess, c: Colour, z: nat)
    requires AtTurn(s, c) && s.board[KingHome(c)] == King(c) && s.rights.HasAny(c) && z < 64 && z != KingHome(c)
    requires !StartsCastling(s, c, KingHome(c), z)
    ensures var t := s.(current := Move(c), stateVal := Move(c), x := KingHome(c));
      Step(Step(s, KingHome(c), true), z, false) == Step(t, z, false)
  {
    assert Step(s, KingHome(c), true) == Goto(s, Castling(c));
    KingMovesOn(c, Goto(s, Castling(c)), z);
  }

  // ----- errors -----

  /** Once the machine has come to the error state, nothing on the board or in the game changes. */
  lemma {:induction false} NothingAfterError(s: Chess, es: seq<Event>)
    requires Ok(s) && s.started && s.current == Error && ValidEvents(es)
    ensures Run(s, es) == s.(terminated := s.terminated || es != [])
    decreases |es|
  {
    if es == [] {
    } else {
      NothingAfterError(s, es[..|es| - 1]);
    }
  }
}
