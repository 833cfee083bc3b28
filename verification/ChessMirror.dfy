/** Flipping the ranks and swapping the colours commutes with the state machine. */
module ChessMirror {
  import opened Basics
  import opened ChessModel

  // ----- the mirror -----

  /** A blank or a letter; the colour test of the C code cannot tell the letter 'a'. */
  predicate IsPiece(p: char) { p == ' ' || 'A' < p <= 'Z' || 'a' < p <= 'z' }

  /** The same letter in the other case, which is the piece of the other colour. */
  function Swap(p: char): char {
    if 'A' < p <= 'Z' then (p as int + 32) as char else if 'a' < p <= 'z' then (p as int - 32) as char else p
  }

  /** The same file on the opposite rank, found by counting ranks. Numbers that are not squares
      stay as they are. */
  function Flip(square: nat): (f: nat)
    ensures square < 64 <==> f < 64
  {
    if square < 64 then FlipFrom(square, 0) else square
  }

  function FlipFrom(square: nat, rank: nat): (f: nat)
    requires 8 * rank <= square < 64
    ensures f < 64
    decreases 64 - rank
  {
    if square < 8 * rank + 8 then 56 - 16 * rank + square else FlipFrom(square, rank + 1)
  }

  lemma {:induction false} FlipFromIs(square: nat, rank: nat, r: nat, f: nat)
    requires square == 8 * r + f && f < 8 && rank <= r < 8
    ensures FlipFrom(square, rank) == 56 - 8 * r + f
    decreases r - rank
  {
    if rank >= r {
    } else {
      FlipFromIs(square, rank + 1, r, f);
    }
  }

  /** Rank and file of a square, and of its mirror image. */
  lemma FlipIs(square: nat) returns (r: nat, f: nat)
    requires square < 64
    ensures r < 8 && f < 8 && square == 8 * r + f && Flip(square) == 56 - 8 * r + f
  {
    r, f := square / 8, square % 8;
    FlipFromIs(square, 0, r, f);
  }

  function MirrorBoard(b: seq<char>): (m: seq<char>)
    requires |b| == 64
    ensures |m| == 64
  {
    seq(64, i requires 0 <= i < 64 => Swap(b[Flip(i)]))
  }

  function MirrorState(s: State): State {
    match s
    case Turn(c) => Turn(c.Other())
    case Move(c) => Move(c.Other())
    case Capture(c) => Capture(c.Other())
    case EnemyCapture(c) => EnemyCapture(c.Other())
    case Castling(c) => Castling(c.Other())
    case KingDown(c, w) => KingDown(c.Other(), w)
    case KingUpRookUp(c, w) => KingUpRookUp(c.Other(), w)
    case KingDownRookUp(c, w) => KingDownRookUp(c.Other(), w)
    case KingUpRookDown(c, w) => KingUpRookDown(c.Other(), w)
    case Error => Error
  }

  function MirrorRights(r: Rights): Rights { Rights(r.blackKing, r.blackQueen, r.whiteKing, r.whiteQueen) }

  function MirrorRecord(r: Option<MoveRecord>): Option<MoveRecord> {
    match r
    case None => None
    case Some(m) => Some(MoveRecord(m.ply, Flip(m.from), Flip(m.to), Swap(m.piece), Swap(m.captured), m.moveType))
  }

  function Mirror(s: Chess): (m: Chess)
    requires Ok(s)
    ensures Ok(m)
  {
    Chess(MirrorBoard(s.board), MirrorState(s.current), MirrorState(s.stateVal),
          s.started, s.terminated, s.directToError,
          MirrorRights(s.rights), s.enPassant, Flip(s.enPassantSquare), s.plySincePonr, s.ply, Flip(s.x), Flip(s.y),
          MirrorRecord(s.record))
  }

  predicate Pieces(s: Chess) { Ok(s) && forall i :: 0 <= i < 64 ==> IsPiece(s.board[i]) }

  /** Equal records, except that two castling records may name different target squares. */
  predicate SameRecord(a: Option<MoveRecord>, b: Option<MoveRecord>) {
    a == b || (a.Some? && b.Some? && a.value.moveType.CastlingMove? && a.value.(to := 0) == b.value.(to := 0))
  }

  /** Equal, up to the en passant square while there is no en passant, and castling records. */
  predicate Same(a: Chess, b: Chess) {
    && a == b.(enPassantSquare := a.enPassantSquare, record := a.record)
    && (a.enPassant ==> a.enPassantSquare == b.enPassantSquare)
    && SameRecord(a.record, b.record)
  }

  // ----- the mirror and its parts -----

  lemma FlipOnce(i: nat, j: nat)
    requires i < 64 && j < 64
    ensures Flip(i) == Flip(j) <==> i == j
    ensures Flip(Flip(i)) == i
  {
    var r, f := FlipIs(i);
    var r', f' := FlipIs(j);
    FlipFromIs(Flip(i), 0, 7 - r, f);
  }

  lemma MirrorUpdate(b: seq<char>, i: nat, p: char)
    requires |b| == 64 && i < 64
    ensures MirrorBoard(b[i := p]) == MirrorBoard(b)[Flip(i) := Swap(p)]
    ensures MirrorBoard(b)[Flip(i)] == Swap(b[i])
  {
    var m, m' := MirrorBoard(b[i := p]), MirrorBoard(b)[Flip(i) := Swap(p)];
    forall k: nat | k < 64 ensures m[k] == m'[k] {
      FlipOnce(k, i);
      FlipOnce(Flip(k), i);
    }
    FlipOnce(i, i);
  }

  lemma SwapPiece(c: Colour, p: char)
    requires IsPiece(p)
    ensures Swap(p) == EMPTY <==> p == EMPTY
    ensures IsOf(c.Other(), Swap(p)) <==> IsOf(c, p)
    ensures Swap(p) == King(c.Other()) <==> p == King(c)
    ensures Swap(p) == Rook(c.Other()) <==> p == Rook(c)
    ensures Swap(p) == Pawn(c.Other()) <==> p == Pawn(c)
    ensures Swap(EMPTY) == EMPTY && Swap(King(c)) == King(c.Other()) && Swap(Rook(c)) == Rook(c.Other())
        && Swap(Queen(c)) == Queen(c.Other())
    ensures IsOf(c.Other(), p) <==> p != EMPTY && !IsOf(c, p)
  {
  }

  lemma FlipSquares(c: Colour, w: Wing)
    ensures Flip(KingHome(c)) == KingHome(c.Other()) && Flip(RookHome(c, w)) == RookHome(c.Other(), w)
    ensures Flip(KingCastled(c, w)) == KingCastled(c.Other(), w) && Flip(RookCastled(c, w)) == RookCastled(c.Other(), w)
  {
    var a, a' := FlipIs(KingHome(c));
    var b, b' := FlipIs(RookHome(c, w));
    var d, d' := FlipIs(KingCastled(c, w));
    var e, e' := FlipIs(RookCastled(c, w));
  }

  lemma FlipRights(c: Colour, r: Rights, k: bool, q: bool)
    ensures MirrorRights(r).HasAny(c.Other()) == r.HasAny(c)
    ensures MirrorRights(r).Has(c.Other(), KingSide) == r.Has(c, KingSide)
    ensures MirrorRights(r).Has(c.Other(), QueenSide) == r.Has(c, QueenSide)
    ensures MirrorRights(r.Set(c, k, q)) == MirrorRights(r).Set(c.Other(), k, q)
  {
  }

  lemma FlipStep(c: Colour, x: nat, pin: nat)
    requires x < 64 && pin < 64
    ensures Flip(pin) - Flip(x) == 2 * Forward(c.Other()) <==> pin - x == 2 * Forward(c)
  {
    var r: int, f: int := FlipIs(x);
    var r': int, f': int := FlipIs(pin);
    MultipleOfEight(r' - r, f' - f, if c.White? then -2 else 2);
    MultipleOfEight(r - r', f' - f, if c.White? then 2 else -2);
  }

  lemma MultipleOfEight(dr: int, df: int, k: int)
    requires -8 < df < 8
    ensures 8 * dr + df == 8 * k <==> dr == k && df == 0
  {
    if 8 * dr + df == 8 * k { assert df == 8 * (k - dr); }
  }

  lemma FlipAt(r: nat, f: nat)
    requires r < 8 && f < 8
    ensures Flip(8 * r + f) == 56 - 8 * r + f
  {
    FlipFromIs(8 * r + f, 0, r, f);
  }

  lemma SmallByte(n: int)
    requires 0 <= n < 256
    ensures n % 256 == n
  {
  }

  lemma FlipBehind(c: Colour, x: nat, pin: nat)
    requires x < 64 && pin < 64 && pin - x == 2 * Forward(c)
    ensures (Flip(pin) - Forward(c.Other())) % 256 == Flip((pin - Forward(c)) % 256)
  {
    var r, f := FlipIs(pin);
    SmallByte(pin - Forward(c));
    SmallByte(Flip(pin) - Forward(c.Other()));
    FlipAt(if c.White? then r + 1 else r - 1, f);
  }

  lemma FlipLastRank(c: Colour, pin: nat)
    requires pin < 64
    ensures LastRank(c.Other(), Flip(pin)) <==> LastRank(c, pin)
  {
    var r, f := FlipIs(pin);
  }

  /** Everything about one occupied square and its mirror image. */
  lemma At(c: Colour, s: Chess, pin: nat)
    requires Pieces(s) && pin < 64
    ensures Mirror(s).board[Flip(pin)] == Swap(s.board[pin])
    ensures Mirror(s).board[Flip(pin)] == EMPTY <==> s.board[pin] == EMPTY
    ensures IsOf(c.Other(), Mirror(s).board[Flip(pin)]) <==> IsOf(c, s.board[pin])
    ensures IsOf(c, Mirror(s).board[Flip(pin)]) <==> IsOf(c.Other(), s.board[pin])
    ensures Mirror(s).board[Flip(pin)] == King(c.Other()) <==> s.board[pin] == King(c)
    ensures Mirror(s).board[Flip(pin)] == Rook(c.Other()) <==> s.board[pin] == Rook(c)
  {
    MirrorUpdate(s.board, pin, EMPTY);
    SwapPiece(c, s.board[pin]);
    SwapPiece(c.Other(), s.board[pin]);
  }

  // ----- the run functions -----

  ghost predicate StepCommutes(s: Chess, pin: nat, up: bool)
    requires Pieces(s) && pin < 64
  {
    Same(Step(Mirror(s), Flip(pin), up), Mirror(Step(s, pin, up)))
  }

  lemma SameIfEqual(a: Chess, b: Chess)
    requires a == b
    ensures Same(a, b)
  {
  }

  lemma GotoMirror(s: Chess, to: State)
    requires Ok(s)
    ensures Goto(Mirror(s), MirrorState(to)) == Mirror(Goto(s, to))
  {
  }

  lemma GotoXMirror(s: Chess, to: State, x: nat)
    requires Ok(s) && x < 64
    ensures Goto(Mirror(s), MirrorState(to)).(x := Flip(x)) == Mirror(Goto(s, to).(x := x))
  {
  }

  lemma GotoYMirror(s: Chess, to: State, y: nat)
    requires Ok(s) && y < 64
    ensures Goto(Mirror(s), MirrorState(to)).(y := Flip(y)) == Mirror(Goto(s, to).(y := y))
  {
  }

  lemma RunTurnMirror(c: Colour, s: Chess, pin: nat, up: bool)
    requires Pieces(s) && pin < 64
    ensures RunTurn(c.Other(), Mirror(s), Flip(pin), up) == Mirror(RunTurn(c, s, pin, up))
  {
    At(c, s, pin);
    if s.directToError || !up || s.board[pin] == EMPTY {
      GotoMirror(s, Error);
      assert RunTurn(c, s, pin, up) == Goto(s, Error);
    } else {
      LiftMirror(c, s, pin);
    }
  }

  lemma LiftMirror(c: Colour, s: Chess, pin: nat)
    requires Pieces(s) && pin < 64 && !s.directToError && s.board[pin] != EMPTY
    ensures RunTurn(c.Other(), Mirror(s), Flip(pin), true) == Mirror(RunTurn(c, s, pin, true))
  {
    At(c, s, pin);
    FlipRights(c, s.rights, false, false);
    if s.board[pin] == King(c) && s.rights.HasAny(c) {
      GotoMirror(s, Castling(c));
      assert RunTurn(c, s, pin, true) == Goto(s, Castling(c));
    } else {
      OtherLiftMirror(c, s, pin);
    }
  }

  lemma OtherLiftMirror(c: Colour, s: Chess, pin: nat)
    requires Pieces(s) && pin < 64 && !s.directToError && s.board[pin] != EMPTY
        && !(s.board[pin] == King(c) && s.rights.HasAny(c))
    ensures RunTurn(c.Other(), Mirror(s), Flip(pin), true) == Mirror(RunTurn(c, s, pin, true))
  {
    At(c, s, pin);
    FlipRights(c, s.rights, false, false);
    GotoXMirror(s, Move(c), pin);
    GotoYMirror(s, EnemyCapture(c), pin);
  }

  lemma RightsAfterMirror(c: Colour, r: Rights, piece: char, from: nat)
    requires IsPiece(piece) && from < 64
    ensures RightsAfter(c.Other(), MirrorRights(r), Swap(piece), Flip(from))
        == MirrorRights(RightsAfter(c, r, piece, from))
  {
    SwapPiece(c, piece);
    FlipSquares(c, KingSide);
    FlipSquares(c, QueenSide);
    FlipOnce(from, RookHome(c, KingSide));
    FlipOnce(from, RookHome(c, QueenSide));
  }

  lemma PromotedMirror(c: Colour, piece: char, pin: nat)
    requires IsPiece(piece) && pin < 64
    ensures Promoted(c.Other(), Swap(piece), Flip(pin)) == Swap(Promoted(c, piece, pin))
    ensures IsPiece(Promoted(c, piece, pin))
  {
    SwapPiece(c, piece);
    FlipLastRank(c, pin);
  }

  lemma LandedMirror(b: seq<char>, x: nat, pin: nat)
    requires |b| == 64 && x < 64 && pin < 64
    ensures MirrorBoard(b[pin := b[x]][x := EMPTY])
        == MirrorBoard(b)[Flip(pin) := MirrorBoard(b)[Flip(x)]][Flip(x) := EMPTY]
  {
    MirrorUpdate(b, x, EMPTY);
    MirrorUpdate(b, pin, b[x]);
    MirrorUpdate(b[pin := b[x]], x, EMPTY);
  }

  lemma MovedBoardMirror(c: Colour, s: Chess, pin: nat)
    requires Pieces(s) && pin < 64
    ensures MovePiece(c.Other(), Mirror(s), Flip(pin)).board == MirrorBoard(MovePiece(c, s, pin).board)
  {
    var b := s.board[pin := s.board[s.x]][s.x := EMPTY];
    LandedMirror(s.board, s.x, pin);
    MirrorUpdate(b, pin, Promoted(c, b[pin], pin));
    PromotedMirror(c, b[pin], pin);
  }

  lemma FlagAfterMirror(c: Colour, piece: char, from: nat, pin: nat, flag: bool, square: nat)
    requires IsPiece(piece) && from < 64 && pin < 64
    ensures var f := FlagAfter(c, piece, from, pin, flag);
      && FlagAfter(c.Other(), Swap(piece), Flip(from), Flip(pin), flag) == f
      && (f ==>
            SquareAfter(c.Other(), Swap(piece), Flip(pin), Flip(square)) == Flip(SquareAfter(c, piece, pin, square)))
  {
    SwapPiece(c, piece);
    FlipStep(c, from, pin);
    if piece == Pawn(c) && pin - from == 2 * Forward(c) { FlipBehind(c, from, pin); }
  }

  lemma MovePieceMirror(c: Colour, s: Chess, pin: nat)
    requires Pieces(s) && pin < 64
    ensures Same(MovePiece(c.Other(), Mirror(s), Flip(pin)), Mirror(MovePiece(c, s, pin)))
  {
    var b := s.board[pin := s.board[s.x]][s.x := EMPTY];
    MovedBoardMirror(c, s, pin);
    FlagAfterMirror(c, b[pin], s.x, pin, s.enPassant, s.enPassantSquare);
    LandedMirror(s.board, s.x, pin);
    MirrorUpdate(b, pin, EMPTY);
    PromotedMirror(c, b[pin], pin);
    RightsAfterMirror(c, s.rights, b[pin], s.x);
    SwapPiece(c, b[pin]);
  }

  lemma RunMoveMirror(c: Colour, s: Chess, pin: nat, up: bool)
    requires Pieces(s) && pin < 64
    ensures Same(RunMove(c.Other(), Mirror(s), Flip(pin), up), Mirror(RunMove(c, s, pin, up)))
  {
    FlipOnce(s.x, pin);
    if !up && s.x != pin {
      MovePieceMirror(c, s, pin);
    } else {
      QuietMoveMirror(c, s, pin, up);
      SameIfEqual(RunMove(c.Other(), Mirror(s), Flip(pin), up), Mirror(RunMove(c, s, pin, up)));
    }
  }

  lemma QuietMoveMirror(c: Colour, s: Chess, pin: nat, up: bool)
    requires Pieces(s) && pin < 64 && (up || s.x == pin)
    ensures RunMove(c.Other(), Mirror(s), Flip(pin), up) == Mirror(RunMove(c, s, pin, up))
  {
    At(c, s, pin);
    FlipOnce(s.x, pin);
    if !up {
      GotoMirror(s, Turn(c));
      assert RunMove(c, s, pin, up) == Goto(s, Turn(c));
    } else if IsOf(c.Other(), s.board[pin]) {
      GotoYMirror(s, Capture(c), pin);
      assert RunMove(c, s, pin, up) == Goto(s, Capture(c)).(y := pin);
    } else {
      GotoMirror(s, Error);
      assert RunMove(c, s, pin, up) == Goto(s, Error);
    }
  }

  lemma CapturedBoardMirror(s: Chess, pin: nat)
    requires Pieces(s) && pin < 64
    ensures TakesEnPassant(Mirror(s), Flip(pin)) == TakesEnPassant(s, pin)
    ensures MirrorBoard(CapturedBoard(s, pin)) == CapturedBoard(Mirror(s), Flip(pin))
  {
    LandedMirror(s.board, s.x, pin);
    MirrorUpdate(s.board[pin := s.board[s.x]][s.x := EMPTY], s.y, EMPTY);
    if s.enPassantSquare < 64 { FlipOnce(s.enPassantSquare, pin); }
  }

  lemma CapturePieceMirror(c: Colour, s: Chess, pin: nat)
    requires Pieces(s) && pin < 64
    ensures Same(CapturePiece(c.Other(), Mirror(s), Flip(pin)), Mirror(CapturePiece(c, s, pin)))
  {
    var b := CapturedBoard(s, pin);
    CapturedBoardMirror(s, pin);
    MirrorUpdate(b, pin, Promoted(c, b[pin], pin));
    PromotedMirror(c, b[pin], pin);
    RightsAfterMirror(c, s.rights, b[pin], s.x);
  }

  /** The one place where the two colours differ: a capture that is rejected. */
  predicate RejectsCapture(s: Chess, pin: nat, up: bool) {
    s.current.Capture? && !(!up && (s.y == pin || TakesEnPassant(s, pin)))
  }

  lemma RunCaptureMirror(c: Colour, s: Chess, pin: nat)
    requires Pieces(s) && pin < 64 && (s.y == pin || TakesEnPassant(s, pin))
    ensures Same(RunCapture(c.Other(), Mirror(s), Flip(pin), false), Mirror(RunCapture(c, s, pin, false)))
  {
    CapturedBoardMirror(s, pin);
    FlipOnce(s.y, pin);
    CapturePieceMirror(c, s, pin);
  }

  lemma RunEnemyCaptureMirror(c: Colour, s: Chess, pin: nat, up: bool)
    requires Pieces(s) && pin < 64
    ensures RunEnemyCapture(c.Other(), Mirror(s), Flip(pin), up) == Mirror(RunEnemyCapture(c, s, pin, up))
  {
    At(c, s, pin);
    FlipOnce(s.y, pin);
    GotoXMirror(s, Capture(c), pin);
    GotoMirror(s, Turn(c));
    GotoMirror(s, Error);
  }

  lemma FlipAll(c: Colour, w: Wing, pin: nat)
    requires pin < 64
    ensures Flip(pin) == KingHome(c.Other()) <==> pin == KingHome(c)
    ensures Flip(pin) == RookHome(c.Other(), w) <==> pin == RookHome(c, w)
    ensures Flip(pin) == KingCastled(c.Other(), w) <==> pin == KingCastled(c, w)
    ensures Flip(pin) == RookCastled(c.Other(), w) <==> pin == RookCastled(c, w)
    ensures Flip(KingHome(c)) == KingHome(c.Other())
  {
    FlipSquares(c, w);
    FlipOnce(pin, KingHome(c));
    FlipOnce(pin, RookHome(c, w));
    FlipOnce(pin, KingCastled(c, w));
    FlipOnce(pin, RookCastled(c, w));
  }

  lemma CastlingLiftMirror(c: Colour, s: Chess, pin: nat)
    requires Pieces(s) && pin < 64
    ensures RunCastling(c.Other(), Mirror(s), Flip(pin), true) == Mirror(RunCastling(c, s, pin, true))
  {
    At(c, s, pin);
    if IsOf(c, s.board[pin]) {
      RookLiftMirror(c, s, pin);
    } else {
      FlipAll(c, KingSide, pin);
      GotoYMirror(s, Capture(c), pin);
      GotoXMirror(s.(y := pin), Capture(c), KingHome(c));
    }
  }

  lemma RookLiftMirror(c: Colour, s: Chess, pin: nat)
    requires Pieces(s) && pin < 64 && IsOf(c, s.board[pin])
    ensures RunCastling(c.Other(), Mirror(s), Flip(pin), true) == Mirror(RunCastling(c, s, pin, true))
  {
    if CanLiftRook(c, KingSide, s, pin) { RookOfWingMirror(c, KingSide, s, pin); }
    else if CanLiftRook(c, QueenSide, s, pin) { RookOfWingMirror(c, QueenSide, s, pin); }
    else {
      CanLiftMirror(c, KingSide, s, pin);
      CanLiftMirror(c, QueenSide, s, pin);
      At(c, s, pin);
      GotoMirror(s, Error);
      assert RunCastling(c, s, pin, true) == Goto(s, Error);
    }
  }

  predicate CanLiftRook(c: Colour, w: Wing, s: Chess, pin: nat)
    requires Ok(s) && pin < 64
  {
    s.board[pin] == Rook(c) && pin == RookHome(c, w) && s.rights.Has(c, w)
  }

  lemma CanLiftMirror(c: Colour, w: Wing, s: Chess, pin: nat)
    requires Pieces(s) && pin < 64
    ensures CanLiftRook(c.Other(), w, Mirror(s), Flip(pin)) == CanLiftRook(c, w, s, pin)
  {
    At(c, s, pin);
    FlipAll(c, w, pin);
    FlipRights(c, s.rights, false, false);
  }

  lemma RookOfWingMirror(c: Colour, w: Wing, s: Chess, pin: nat)
    requires Pieces(s) && pin < 64 && IsOf(c, s.board[pin]) && CanLiftRook(c, w, s, pin)
    ensures RunCastling(c.Other(), Mirror(s), Flip(pin), true) == Mirror(RunCastling(c, s, pin, true))
  {
    CanLiftMirror(c, w, s, pin);
    At(c, s, pin);
    GotoMirror(s, KingUpRookUp(c, w));
    assert RunCastling(c, s, pin, true) == Goto(s, KingUpRookUp(c, w));
  }

  lemma KingStaysMirror(c: Colour, r: Rights, pin: nat)
    requires pin < 64
    ensures KingStays(c.Other(), MirrorRights(r), Flip(pin)) == KingStays(c, r, pin)
  {
    FlipAll(c, KingSide, pin);
    FlipAll(c, QueenSide, pin);
    FlipRights(c, r, false, false);
  }

  lemma CastlingPutMirror(c: Colour, s: Chess, pin: nat)
    requires Pieces(s) && pin < 64
    ensures Same(RunCastling(c.Other(), Mirror(s), Flip(pin), false), Mirror(RunCastling(c, s, pin, false)))
  {
    KingStaysMirror(c, s.rights, pin);
    if KingStays(c, s.rights, pin) {
      KingPutMirror(c, s, pin);
      SameIfEqual(RunCastling(c.Other(), Mirror(s), Flip(pin), false), Mirror(RunCastling(c, s, pin, false)));
    } else {
      KingMovesOn(c, s, pin);
      KingMovesOn(c.Other(), Mirror(s), Flip(pin));
      RedeliveryMirror(c, s, pin);
    }
  }

  lemma KingPutMirror(c: Colour, s: Chess, pin: nat)
    requires Pieces(s) && pin < 64 && KingStays(c, s.rights, pin)
    ensures RunCastling(c.Other(), Mirror(s), Flip(pin), false) == Mirror(RunCastling(c, s, pin, false))
  {
    FlipSquares(c, KingSide);
    if pin == KingHome(c) {
      GotoMirror(s, Turn(c));
      assert RunCastling(c, s, pin, false) == Goto(s, Turn(c));
    } else if pin == KingCastled(c, KingSide) {
      KingToWingMirror(c, KingSide, s);
    } else {
      KingToWingMirror(c, QueenSide, s);
    }
  }

  lemma KingToWingMirror(c: Colour, w: Wing, s: Chess)
    requires Pieces(s) && s.rights.Has(c, w)
    ensures RunCastling(c.Other(), Mirror(s), Flip(KingCastled(c, w)), false)
        == Mirror(RunCastling(c, s, KingCastled(c, w), false))
  {
    FlipSquares(c, w);
    FlipRights(c, s.rights, false, false);
    GotoMirror(s, KingDown(c, w));
  }

  /** A lifted king that lands on an ordinary square is delivered again as a move. */
  lemma RedeliveryMirror(c: Colour, s: Chess, pin: nat)
    requires Pieces(s) && pin < 64
    ensures Same(RunMove(c.Other(), Goto(Mirror(s), Move(c.Other())).(x := KingHome(c.Other())), Flip(pin), false),
                 Mirror(RunMove(c, Goto(s, Move(c)).(x := KingHome(c)), pin, false)))
  {
    FlipSquares(c, KingSide);
    GotoXMirror(s, Move(c), KingHome(c));
    RunMoveMirror(c, Goto(s, Move(c)).(x := KingHome(c)), pin, false);
  }

  lemma TwoUpdatesMirror(b: seq<char>, i: nat, j: nat, q: char)
    requires |b| == 64 && i < 64 && j < 64
    ensures MirrorBoard(b[i := EMPTY][j := q]) == MirrorBoard(b)[Flip(i) := EMPTY][Flip(j) := Swap(q)]
  {
    MirrorUpdate(b, i, EMPTY);
    MirrorUpdate(b[i := EMPTY], j, q);
  }

  lemma CastledBoardMirror(c: Colour, w: Wing, s: Chess)
    requires Pieces(s)
    ensures EndCastling(c.Other(), w, Mirror(s)).board == MirrorBoard(EndCastling(c, w, s).board)
  {
    var b := s.board[RookHome(c, w) := EMPTY][RookCastled(c, w) := Rook(c)];
    TwoUpdatesMirror(s.board, RookHome(c, w), RookCastled(c, w), Rook(c));
    TwoUpdatesMirror(b, KingHome(c), KingCastled(c, w), King(c));
    FlipSquares(c, w);
    SwapPiece(c, EMPTY);
  }

  lemma CastlingRecordMirror(c: Colour, w: Wing, ply: nat)
    ensures SameRecord(Some(CastlingRecord(c.Other(), w, ply)), MirrorRecord(Some(CastlingRecord(c, w, ply))))
  {
    FlipSquares(c, w);
    SwapPiece(c, EMPTY);
  }

  lemma EndCastlingMirror(c: Colour, w: Wing, s: Chess)
    requires Pieces(s)
    ensures Same(EndCastling(c.Other(), w, Mirror(s)), Mirror(EndCastling(c, w, s)))
  {
    CastledBoardMirror(c, w, s);
    CastlingRecordMirror(c, w, NextByte(s.ply));
    FlipRights(c, s.rights, false, false);
  }

  lemma KingDownMirror(c: Colour, w: Wing, s: Chess, pin: nat, up: bool)
    requires Pieces(s) && pin < 64
    ensures RunKingDown(c.Other(), w, Mirror(s), Flip(pin), up) == Mirror(RunKingDown(c, w, s, pin, up))
  {
    At(c, s, pin);
    FlipAll(c, w, pin);
    GotoMirror(s, KingDownRookUp(c, w));
    GotoMirror(s, Error);
  }

  lemma KingUpRookUpMirror(c: Colour, w: Wing, s: Chess, pin: nat, up: bool)
    requires Pieces(s) && pin < 64
    ensures RunKingUpRookUp(c.Other(), w, Mirror(s), Flip(pin), up) == Mirror(RunKingUpRookUp(c, w, s, pin, up))
  {
    FlipAll(c, w, pin);
    GotoMirror(s, KingDownRookUp(c, w));
    GotoMirror(s, KingUpRookDown(c, w));
    GotoMirror(s, Error);
  }

  lemma CastlingEndsMirror(c: Colour, w: Wing, s: Chess, pin: nat, up: bool)
    requires Pieces(s) && pin < 64
    ensures Same(RunKingDownRookUp(c.Other(), w, Mirror(s), Flip(pin), up), Mirror(RunKingDownRookUp(c, w, s, pin, up)))
    ensures Same(RunKingUpRookDown(c.Other(), w, Mirror(s), Flip(pin), up), Mirror(RunKingUpRookDown(c, w, s, pin, up)))
  {
    EndCastlingMirror(c, w, s);
    FlipAll(c, w, pin);
    GotoMirror(s, Error);
    SameIfEqual(Goto(Mirror(s), Error), Mirror(Goto(s, Error)));
  }

  lemma RunStateMirror(s: Chess, pin: nat, up: bool)
    requires Pieces(s) && pin < 64 && !s.terminated && !RejectsCapture(s, pin, up)
    ensures Same(RunState(Mirror(s), Flip(pin), up), Mirror(RunState(s, pin, up)))
  {
    if s.current.Turn? || s.current.EnemyCapture? { TurnStateMirror(s, pin, up); }
    else if s.current.Move? || s.current.Capture? { LandingStateMirror(s, pin, up); }
    else if s.current.Castling? { CastlingStateMirror(s, pin, up); }
    else if s.current.Error? { ErrorMirror(s, pin, up); }
    else { WingStateMirror(s, pin, up); }
  }

  lemma TurnStateMirror(s: Chess, pin: nat, up: bool)
    requires Pieces(s) && pin < 64 && !s.terminated && (s.current.Turn? || s.current.EnemyCapture?)
    ensures Same(RunState(Mirror(s), Flip(pin), up), Mirror(RunState(s, pin, up)))
  {
    var c := s.current.c;
    match s.current
    case Turn(_) =>
      RunTurnMirror(c, s, pin, up);
      SameIfEqual(RunTurn(c.Other(), Mirror(s), Flip(pin), up), Mirror(RunTurn(c, s, pin, up)));
    case EnemyCapture(_) =>
      RunEnemyCaptureMirror(c, s, pin, up);
      SameIfEqual(RunEnemyCapture(c.Other(), Mirror(s), Flip(pin), up), Mirror(RunEnemyCapture(c, s, pin, up)));
  }

  lemma LandingStateMirror(s: Chess, pin: nat, up: bool)
    requires Pieces(s) && pin < 64 && !s.terminated && (s.current.Move? || s.current.Capture?)
        && !RejectsCapture(s, pin, up)
    ensures Same(RunState(Mirror(s), Flip(pin), up), Mirror(RunState(s, pin, up)))
  {
    match s.current
    case Move(c) => RunMoveMirror(c, s, pin, up);
    case Capture(c) => RunCaptureMirror(c, s, pin);
  }

  lemma CastlingStateMirror(s: Chess, pin: nat, up: bool)
    requires Pieces(s) && pin < 64 && !s.terminated && s.current.Castling?
    ensures Same(RunState(Mirror(s), Flip(pin), up), Mirror(RunState(s, pin, up)))
  {
    RunCastlingMirror(s.current.c, s, pin, up);
  }

  lemma ErrorMirror(s: Chess, pin: nat, up: bool)
    requires Pieces(s) && pin < 64 && !s.terminated && s.current == Error
    ensures Same(RunState(Mirror(s), Flip(pin), up), Mirror(RunState(s, pin, up)))
  {
  }

  lemma RunCastlingMirror(c: Colour, s: Chess, pin: nat, up: bool)
    requires Pieces(s) && pin < 64
    ensures Same(RunCastling(c.Other(), Mirror(s), Flip(pin), up), Mirror(RunCastling(c, s, pin, up)))
  {
    if up {
      CastlingLiftMirror(c, s, pin);
      SameIfEqual(RunCastling(c.Other(), Mirror(s), Flip(pin), up), Mirror(RunCastling(c, s, pin, up)));
    } else {
      CastlingPutMirror(c, s, pin);
    }
  }

  lemma WingStateMirror(s: Chess, pin: nat, up: bool)
    requires Pieces(s) && pin < 64 && !s.terminated
    requires s.current.KingDown? || s.current.KingUpRookUp? || s.current.KingDownRookUp? || s.current.KingUpRookDown?
    ensures Same(RunState(Mirror(s), Flip(pin), up), Mirror(RunState(s, pin, up)))
  {
    var c, w := s.current.c, s.current.w;
    match s.current
    case KingDown(_, _) =>
      KingDownMirror(c, w, s, pin, up);
      SameIfEqual(RunKingDown(c.Other(), w, Mirror(s), Flip(pin), up), Mirror(RunKingDown(c, w, s, pin, up)));
    case KingUpRookUp(_, _) =>
      KingUpRookUpMirror(c, w, s, pin, up);
      SameIfEqual(RunKingUpRookUp(c.Other(), w, Mirror(s), Flip(pin), up), Mirror(RunKingUpRookUp(c, w, s, pin, up)));
    case KingDownRookUp(_, _) => CastlingEndsMirror(c, w, s, pin, up);
    case KingUpRookDown(_, _) => CastlingEndsMirror(c, w, s, pin, up);
  }

  /** One event on the mirrored state does the mirror image of what it does on the state itself, in
      every state but a rejected capture. */
  lemma StepMirror(s: Chess, pin: nat, up: bool)
    requires Pieces(s) && pin < 64 && s.started && (s.terminated || !RejectsCapture(s, pin, up))
    ensures StepCommutes(s, pin, up)
  {
    if !s.terminated { RunStateMirror(s, pin, up); }
  }

  lemma RejectedCaptureMirror(s: Chess, pin: nat, up: bool)
    requires Pieces(s) && pin < 64 && s.started && !s.terminated && RejectsCapture(s, pin, up)
    ensures !StepCommutes(s, pin, up)
  {
    CapturedBoardMirror(s, pin);
    FlipOnce(s.y, pin);
  }

  /** A rejected capture is exactly where the colours are treated differently. */
  lemma MirrorExactly(s: Chess, pin: nat, up: bool)
    requires Pieces(s) && pin < 64 && s.started && !s.terminated
    ensures StepCommutes(s, pin, up) <==> !RejectsCapture(s, pin, up)
  {
    if RejectsCapture(s, pin, up) { RejectedCaptureMirror(s, pin, up); } else { StepMirror(s, pin, up); }
  }
}
