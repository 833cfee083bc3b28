/** FENs in plain letters: which letter is whose piece, which row is which rank, and the start position. */
module FenStart {
  import opened Board
  import opened FenStrings
  import opened Fen

  /** The twelve letters of a FEN, and the six kinds of pieces. */
  lemma TwelveLetters(c: char)
    ensures IsLetter(c) <==> c in "pnbrqkPNBRQK"
    ensures ValidPiece(Piece(true, c)) <==> c in "PNBRQK"
    ensures ValidPiece(Piece(false, c)) <==> c in "PNBRQK"
  {
  }

  /** Capital letters are White's pieces, small ones Black's, and the kind is the capital letter. */
  lemma LetterColours(c: char)
    requires IsLetter(c)
    ensures FenToPieceCode(c).white <==> 'A' <= c <= 'Z'
    ensures FenToPieceCode(c).kind == if 'A' <= c <= 'Z' then c else (c as int - 'a' as int + 'A' as int) as char
    ensures c == 'K' ==> FenToPieceCode(c) == Piece(true, 'K')
    ensures c == 'q' ==> FenToPieceCode(c) == Piece(false, 'Q')
  {
  }

  /** White's pieces are printed as capital letters. */
  lemma PrintedLetters(kind: char)
    requires ValidPiece(Piece(true, kind))
    ensures PieceCodeToFen(Piece(true, kind)) == kind && 'A' <= kind <= 'Z'
    ensures PieceCodeToFen(Piece(false, kind)) as int == kind as int - 'A' as int + 'a' as int
  {
  }

  /** The first row of the placement is rank 8, and the first square of a row is on the a-file. */
  lemma SquareOfFen(fen: string, col: nat, row: nat)
    requires IsValidFen(fen) && col < 8 && 1 <= row <= 8
    ensures var p, c := GridOf(ExpandedRows(fen)), ExpandedRows(fen)[8 - row][col];
      && (Square(col, row) in p <==> c != '1')
      && (c != '1' ==> p[Square(col, row)].white == ('A' <= c <= 'Z') && IsLetter(c))
  {
    var rows := ExpandedRows(fen);
    assert ValidRow(rows[8 - row]);
    assert Square(col, row) in AllSquares();
    if rows[8 - row][col] != '1' { LetterColours(rows[8 - row][col]); }
  }

  // ----- the start position -----

  /** rnbqkbnr/pppppppp/8/8/8/8/PPPPPPPP/RNBQKBNR */
  const START_FEN: string :=
    "rnbqkbnr/" + ("pppppppp/" + ("8/" + ("8/" + ("8/" + ("8/" + ("PPPPPPPP/" + "RNBQKBNR"))))))

  const FEN_ROWS: seq<string> := ["rnbqkbnr", "pppppppp", "8", "8", "8", "8", "PPPPPPPP", "RNBQKBNR"]

  lemma JoinOne(rows: seq<string>, i: nat, text: string, rest: string)
    requires i + 1 < |rows| && text == rows[i] + "/" && JoinRows(rows[i + 1..]) == rest
    ensures JoinRows(rows[i..]) == text + rest
  {
    assert rows[i..][1..] == rows[i + 1..];
  }

  lemma StartIsJoined()
    ensures JoinRows(FEN_ROWS) == START_FEN
  {
    assert "8" + "/" == "8/";
    var r7 := "RNBQKBNR";
    var r6 := "PPPPPPPP/" + r7;
    assert FEN_ROWS[7..] == [r7];
    JoinOne(FEN_ROWS, 6, "PPPPPPPP/", r7);
    JoinOne(FEN_ROWS, 5, "8/", r6);
    JoinOne(FEN_ROWS, 4, "8/", "8/" + r6);
    JoinOne(FEN_ROWS, 3, "8/", "8/" + ("8/" + r6));
    JoinOne(FEN_ROWS, 2, "8/", "8/" + ("8/" + ("8/" + r6)));
    JoinOne(FEN_ROWS, 1, "pppppppp/", "8/" + ("8/" + ("8/" + ("8/" + r6))));
    JoinOne(FEN_ROWS, 0, "rnbqkbnr/", "pppppppp/" + ("8/" + ("8/" + ("8/" + ("8/" + r6)))));
    assert FEN_ROWS[0..] == FEN_ROWS;
  }

  lemma {:induction false} SpellPlain(s: string)
    requires forall i :: 0 <= i < |s| ==> !IsDigit(s[i])
    ensures Spell(s) == s
  {
    if s == "" {
    } else {
      SpellPlain(s[1..]);
    }
  }

  lemma {:induction false} CutNothing(s: string, i: nat)
    requires ' ' !in s
    ensures CutFrom(s, i) == s
    decreases |s| - i
  {
    if i >= |s| {
    } else {
      CutNothing(s, i + 1);
    }
  }

  /** The rows with every empty square as a 1. */
  const START_ROWS: seq<string> :=
    ["rnbqkbnr", "pppppppp", Ones(8), Ones(8), Ones(8), Ones(8), "PPPPPPPP", "RNBQKBNR"]

  lemma OfficersSpelled()
    ensures Spell("rnbqkbnr") == "rnbqkbnr" && Spell("RNBQKBNR") == "RNBQKBNR"
  {
    SpellPlain("rnbqkbnr");
    SpellPlain("RNBQKBNR");
  }

  lemma PawnsSpelled()
    ensures Spell("pppppppp") == "pppppppp" && Spell("PPPPPPPP") == "PPPPPPPP"
  {
    SpellPlain("pppppppp");
    SpellPlain("PPPPPPPP");
  }

  lemma EightSpelled()
    ensures Spell("8") == Ones(8)
  {
    SpellDigit(8);
    assert [Digit(8)] == "8";
  }

  lemma RowSpelled(i: nat)
    requires i < 8
    ensures Spell(FEN_ROWS[i]) == START_ROWS[i]
  {
    if i == 0 || i == 7 { OfficersSpelled(); }
    else if i == 1 || i == 6 { PawnsSpelled(); }
    else { EightSpelled(); }
  }

  lemma StartRowsSpelled()
    ensures SpellRows(FEN_ROWS) == START_ROWS
  {
    forall i | 0 <= i < 8 ensures SpellRows(FEN_ROWS)[i] == START_ROWS[i] { RowSpelled(i); }
  }

  lemma StartIsPlain()
    ensures ' ' !in START_FEN && forall i :: 0 <= i < 8 ==> NoSlash(FEN_ROWS[i])
  {
  }

  lemma StartExpanded()
    ensures ExpandedRows(START_FEN) == START_ROWS
  {
    StartIsPlain();
    CutNothing(START_FEN, 0);
    ExpandSpells(START_FEN);
    SplitSpell(START_FEN);
    StartIsJoined();
    SplitJoin(FEN_ROWS);
    StartRowsSpelled();
  }

  /** The letter that stands for a piece on a square. */
  lemma PieceOn(rows: seq<string>, col: nat, row: nat)
    requires ValidRows(rows) && col < 8 && 1 <= row <= 8
    ensures Square(col, row) in GridOf(rows) <==> rows[8 - row][col] != '1'
    ensures rows[8 - row][col] != '1' ==> GridOf(rows)[Square(col, row)] == FenToPieceCode(rows[8 - row][col])
  {
    assert Square(col, row) in AllSquares();
  }

  lemma StartRowsValid()
    ensures ValidRows(START_ROWS)
  {
    assert ValidRow("rnbqkbnr") && ValidRow("pppppppp") && ValidRow(Ones(8));
    assert ValidRow("PPPPPPPP") && ValidRow("RNBQKBNR");
  }

  lemma Officers(col: nat)
    requires col < 8
    ensures FenToPieceCode("rnbqkbnr"[col]) == Piece(false, "RNBQKBNR"[col])
    ensures FenToPieceCode("RNBQKBNR"[col]) == Piece(true, "RNBQKBNR"[col])
    ensures FenToPieceCode("pppppppp"[col]) == Piece(false, 'P') && FenToPieceCode("PPPPPPPP"[col]) == Piece(true, 'P')
    ensures "rnbqkbnr"[col] != '1' && "RNBQKBNR"[col] != '1' && "pppppppp"[col] != '1' && "PPPPPPPP"[col] != '1'
  {
  }

  /** The start position by rank and file: Black's pieces on rank 8, Black's pawns on rank 7, White's
      pawns on rank 2 and White's pieces on rank 1, the kings on the e-file. */
  lemma StartPosition(col: nat)
    requires col < 8
    ensures IsValidFen(START_FEN)
    ensures var p := GridOf(ExpandedRows(START_FEN));
      && Square(col, 8) in p && p[Square(col, 8)] == Piece(false, "RNBQKBNR"[col])
      && Square(col, 7) in p && p[Square(col, 7)] == Piece(false, 'P')
      && (forall row :: 3 <= row <= 6 ==> Square(col, row) !in p)
      && Square(col, 2) in p && p[Square(col, 2)] == Piece(true, 'P')
      && Square(col, 1) in p && p[Square(col, 1)] == Piece(true, "RNBQKBNR"[col])
  {
    StartExpanded();
    StartRowsValid();
    OuterRanks(col);
    InnerRanks(col);
  }

  lemma OuterRanks(col: nat)
    requires col < 8 && ValidRows(START_ROWS)
    ensures var p := GridOf(START_ROWS);
      && Square(col, 8) in p && p[Square(col, 8)] == Piece(false, "RNBQKBNR"[col])
      && Square(col, 7) in p && p[Square(col, 7)] == Piece(false, 'P')
      && Square(col, 2) in p && p[Square(col, 2)] == Piece(true, 'P')
      && Square(col, 1) in p && p[Square(col, 1)] == Piece(true, "RNBQKBNR"[col])
  {
    Officers(col);
    PieceOn(START_ROWS, col, 8);
    PieceOn(START_ROWS, col, 7);
    PieceOn(START_ROWS, col, 2);
    PieceOn(START_ROWS, col, 1);
  }

  lemma InnerRanks(col: nat)
    requires col < 8 && ValidRows(START_ROWS)
    ensures forall row :: 3 <= row <= 6 ==> Square(col, row) !in GridOf(START_ROWS)
  {
    forall row | 3 <= row <= 6 ensures Square(col, row) !in GridOf(START_ROWS) { PieceOn(START_ROWS, col, row); }
  }
}
