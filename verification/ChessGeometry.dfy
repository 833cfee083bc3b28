/** The squares and letters of the chess model on a real board: ranks, files and numbers. Square 0 is a8
    and square 63 is h1. */
module ChessGeometry {
  import opened ChessModel
  import opened ChessCastling

  function Rank(square: nat): int { 8 - square / 8 }
  function File(square: nat): nat { square % 8 }

  // ----- pieces -----

  /** White's pieces are capital letters, Black's small ones. */
  predicate PieceOf(c: Colour, p: char) {
    if c.White? then p == 'P' || p == 'N' || p == 'B' || p == 'R' || p == 'Q' || p == 'K'
    else p == 'p' || p == 'n' || p == 'b' || p == 'r' || p == 'q' || p == 'k'
  }

  lemma PieceColours(p: char)
    ensures PieceOf(White, p) ==> IsOf(White, p) && !IsOf(Black, p)
    ensures PieceOf(Black, p) ==> IsOf(Black, p) && !IsOf(White, p)
    ensures p == ' ' ==> !IsOf(White, p) && !IsOf(Black, p)
  {
  }

  /** The letters the rules speak of, and where they stand at the start. */
  lemma StartLetters()
    ensures King(White) == 'K' && Queen(White) == 'Q' && Rook(White) == 'R' && Pawn(White) == 'P'
    ensures King(Black) == 'k' && Queen(Black) == 'q' && Rook(Black) == 'r' && Pawn(Black) == 'p'
    ensures |START_BOARD| == 64 && START_BOARD[..8] == "rnbqkbnr" && START_BOARD[56..] == "RNBQKBNR"
    ensures START_BOARD[8..16] == "pppppppp" && START_BOARD[48..56] == "PPPPPPPP"
    ensures forall i :: 16 <= i < 48 ==> START_BOARD[i] == ' '
  {
    StartRows();
  }

  // ----- directions -----

  /** A pawn moves towards the other side's home rank, and is promoted there. */
  lemma PawnDirections(c: Colour, square: nat)
    requires square < 64
    ensures Rank(KingHome(White)) == 1 && Rank(KingHome(Black)) == 8
    ensures Rank(square + 8) == Rank(square) - 1
    ensures Forward(White) == -8 && Forward(Black) == 8
    ensures LastRank(c, square) <==> Rank(square) == if c.White? then 8 else 1
  {
  }

  // ----- castling -----

  /** King and rook stand on the home rank, the king on the e-file and the rooks in the corners; the king
      goes two squares towards the rook, and the rook to the square between. */
  lemma CastlingGeometry(c: Colour, w: Wing)
    ensures Rank(KingHome(c)) == Rank(RookHome(c, w)) == Rank(KingCastled(c, w)) == Rank(RookCastled(c, w))
            == if c.White? then 1 else 8
    ensures File(KingHome(c)) == 4 && File(RookHome(c, w)) == if w.KingSide? then 7 else 0
    ensures File(KingCastled(c, w)) == if RookHome(c, w) > KingHome(c) then 6 else 2
    ensures 2 * RookCastled(c, w) == KingHome(c) + KingCastled(c, w)
    ensures START_BOARD[KingHome(c)] == King(c) && START_BOARD[RookHome(c, w)] == Rook(c)
  {
    StartRows();
    assert START_BOARD[KingHome(Black)] == START_BOARD[..8][4];
    assert START_BOARD[RookHome(Black, w)] == START_BOARD[..8][RookHome(Black, w)];
    assert START_BOARD[KingHome(White)] == START_BOARD[56..][4];
    assert START_BOARD[RookHome(White, w)] == START_BOARD[56..][RookHome(White, w) - 56];
  }

  /** The four castlings, by the numbers of their squares. */
  datatype Jump = Jump(c: Colour, w: Wing, kingFrom: nat, rookFrom: nat, kingTo: nat, rookTo: nat)

  const JUMPS: seq<Jump> := [
    Jump(White, KingSide, 60, 63, 62, 61), Jump(White, QueenSide, 60, 56, 58, 59),
    Jump(Black, KingSide, 4, 7, 6, 5), Jump(Black, QueenSide, 4, 0, 2, 3)]

  /** The three orders of lifting and putting, by numbers. */
  function OrdersOf(k: Jump): seq<seq<Event>> {
    var kingUp, rookUp := Event(k.kingFrom, true), Event(k.rookFrom, true);
    var kingDown, rookDown := Event(k.kingTo, false), Event(k.rookTo, false);
    [[kingUp, rookUp, kingDown, rookDown], [kingUp, rookUp, rookDown, kingDown], [kingUp, kingDown, rookUp, rookDown]]
  }

  predicate MayCastle(s: Chess, k: Jump) {
    && Ok(s) && s.started && !s.terminated && !s.directToError && s.current == Turn(k.c) && s.rights.Has(k.c, k.w)
    && k in JUMPS && s.board[k.kingTo] == ' ' && s.board[k.rookTo] == ' '
    && s.board[k.kingFrom] == (if k.c.White? then 'K' else 'k')
    && s.board[k.rookFrom] == (if k.c.White? then 'R' else 'r')
  }

  lemma CastlingNumbers(k: Jump)
    requires k in JUMPS
    ensures k.kingFrom == KingHome(k.c) && k.rookFrom == RookHome(k.c, k.w)
    ensures k.kingTo == KingCastled(k.c, k.w) && k.rookTo == RookCastled(k.c, k.w)
    ensures k.kingFrom < 64 && k.rookFrom < 64 && k.kingTo < 64 && k.rookTo < 64
  {
  }

  /** King and rook stand on their new squares, nothing else on the board has changed, the enemy is to
      move, both rights of the side are gone, and one ply is counted. */
  predicate HasCastled(s: Chess, s': Chess, k: Jump)
    requires Ok(s) && k in JUMPS
  {
    && s'.board == s.board[k.kingFrom := ' '][k.rookFrom := ' ']
                          [k.kingTo := if k.c.White? then 'K' else 'k'][k.rookTo := if k.c.White? then 'R' else 'r']
    && s'.current == s'.stateVal == Turn(if k.c.White? then Black else White)
    && !s'.rights.HasAny(k.c) && s'.ply == (s.ply + 1) % 256 && !s'.enPassant
  }

  lemma EndsByNumbers(s: Chess, k: Jump)
    requires Ok(s) && k in JUMPS
    ensures HasCastled(s, EndCastling(k.c, k.w, s), k)
  {
    CastlingNumbers(k);
  }

  /** Every order of the four events ends there. */
  lemma CastlesByNumbers(s: Chess, k: Jump, order: nat)
    requires MayCastle(s, k) && order < 3
    ensures ValidEvents(OrdersOf(k)[order]) && |OrdersOf(k)[order]| == 4
    ensures HasCastled(s, Step4(s, OrdersOf(k)[order]), k)
  {
    CastlingNumbers(k);
    CastlingConfluence(k.c, k.w, s, order);
    assert OrdersOf(k) == Orders(k.c, k.w);
    EndsByNumbers(s, k);
  }
}
