/** FEN piece placements: validating, parsing into a position and printing one. */
module Fen {
  import opened Basics
  import opened Board
  import opened FenStrings

  // ----- letters -----

  predicate IsLetter(c: char) {
    || c == 'k' || c == 'q' || c == 'r' || c == 'n' || c == 'b' || c == 'p'
    || c == 'K' || c == 'Q' || c == 'R' || c == 'N' || c == 'B' || c == 'P'
  }

  function Upper(c: char): char { if 'a' <= c <= 'z' then (c as int - 32) as char else c }
  function Lower(c: char): char { if 'A' <= c <= 'Z' then (c as int + 32) as char else c }

  function FenToPieceCode(c: char): Piece {
    if Lower(c) == c then Piece(false, Upper(c)) else Piece(true, Upper(c))
  }

  function PieceCodeToFen(p: Piece): char { if p.white then Upper(p.kind) else Lower(p.kind) }

  predicate ValidPiece(p: Piece) {
    p.kind == 'K' || p.kind == 'Q' || p.kind == 'R' || p.kind == 'N' || p.kind == 'B' || p.kind == 'P'
  }

  lemma LetterCodes(c: char, p: Piece)
    ensures IsLetter(c) ==> ValidPiece(FenToPieceCode(c)) && PieceCodeToFen(FenToPieceCode(c)) == c
    ensures ValidPiece(p) ==> IsLetter(PieceCodeToFen(p)) && FenToPieceCode(PieceCodeToFen(p)) == p
  {
  }

  /** `validPositionObject` */
  predicate ValidPosition(p: Position) { forall s :: s in p ==> OnBoard(s) && ValidPiece(p[s]) }

  // ----- validating -----

  /** What a dot of a regular expression does not match. */
  predicate LineEnd(c: char) { c == '\n' || c == '\r' || c == '\U{2028}' || c == '\U{2029}' }

  predicate TrailerAt(fen: string, i: nat) {
    i + 1 < |fen| && fen[i] == ' ' && forall k :: i < k < |fen| ==> !LineEnd(fen[k])
  }

  /** Cut off the first space and all that follows it, if something does and it stays on one line. */
  function CutTrailing(fen: string): string { CutFrom(fen, 0) }

  function CutFrom(fen: string, i: nat): string
    decreases |fen| - i
  {
    if i >= |fen| then fen else if TrailerAt(fen, i) then fen[..i] else CutFrom(fen, i + 1)
  }

  predicate ValidRow(row: string) { |row| == 8 && forall j :: 0 <= j < 8 ==> IsLetter(row[j]) || row[j] == '1' }

  predicate ValidRows(rows: seq<string>) { |rows| == 8 && forall i :: 0 <= i < 8 ==> ValidRow(rows[i]) }

  /** The rows of the placement with every empty square as a 1. */
  function ExpandedRows(fen: string): seq<string> { Split(Expand(CutTrailing(fen))) }

  predicate IsValidFen(fen: string) { ValidRows(ExpandedRows(fen)) }

  method ValidFen(fen: string) returns (ok: bool)
    ensures ok <==> IsValidFen(fen)
  {
    var placement := CutTrailing(fen);
    placement := Expand(placement);
    var chunks := Split(placement);
    if |chunks| != 8 { return false; }
    for i := 0 to 8
      invariant forall k :: 0 <= k < i ==> ValidRow(chunks[k])
    {
      if |chunks[i]| != 8 { return false; }
      var bad := exists j :: 0 <= j < 8 && !(IsLetter(chunks[i][j]) || chunks[i][j] == '1');
      if bad { return false; }
    }
    ok := true;
  }

  // ----- parsing -----

  function AllSquares(): set<Square> { set c: nat, r: nat | c < 8 && 1 <= r <= 8 :: Square(c, r) }

  /** In reading order: whole rows above row i, then n squares of it. */
  predicate ReadBefore(s: Square, i: nat, n: nat) { 8 - s.row < i || (8 - s.row == i && s.col < n) }

  /** The pieces on the squares that have been read. */
  function Filled(rows: seq<string>, i: nat, n: nat): Position
    requires ValidRows(rows)
  {
    map s | s in AllSquares() && ReadBefore(s, i, n) && rows[8 - s.row][s.col] != '1' ::
      FenToPieceCode(rows[8 - s.row][s.col])
  }

  /** The position that eight rows of eight squares show. */
  function GridOf(rows: seq<string>): Position
    requires ValidRows(rows)
  {
    Filled(rows, 8, 0)
  }

  lemma SkipEmpty(rows: seq<string>, i: nat, n: nat, m: nat)
    requires ValidRows(rows) && i < 8 && n + m <= 8 && rows[i][n..n + m] == Ones(m)
    ensures Filled(rows, i, n + m) == Filled(rows, i, n)
  {
    forall k | n <= k < n + m ensures rows[i][k] == '1' { assert rows[i][n..n + m][k - n] == '1'; }
  }

  lemma PutPiece(rows: seq<string>, i: nat, n: nat)
    requires ValidRows(rows) && i < 8 && n < 8 && rows[i][n] != '1'
    ensures Filled(rows, i, n + 1) == Filled(rows, i, n)[Square(n, 8 - i) := FenToPieceCode(rows[i][n])]
  {
    var here := Square(n, 8 - i);
    assert here in AllSquares();
    forall s | s != here
      ensures ReadBefore(s, i, n + 1) && s in AllSquares() <==> ReadBefore(s, i, n) && s in AllSquares()
    {
    }
  }

  lemma NextRow(rows: seq<string>, i: nat)
    requires ValidRows(rows) && i < 8
    ensures Filled(rows, i, 8) == Filled(rows, i + 1, 0)
  {
  }

  /** The part of a row that a prefix of its text stands for. */
  lemma SpellPrefix(row: string, j: nat)
    requires j < |row|
    ensures var n := |Spell(row[..j])|;
      && n + |Spread(row[j])| <= |Spell(row)|
      && Spell(row)[n..n + |Spread(row[j])|] == Spread(row[j])
      && |Spell(row[..j + 1])| == n + |Spread(row[j])|
  {
    assert row == row[..j] + row[j..] && row[..j + 1] == row[..j] + [row[j]];
    SpellConcat(row[..j], row[j..]);
    SpellConcat(row[..j], [row[j]]);
    assert Spell(row[j..]) == Spread(row[j]) + Spell(row[j..][1..]);
    assert Spell([row[j]]) == Spread(row[j]) + "";
  }

  /** The characters of a row whose spelling is valid. */
  lemma RowCharacters(row: string, j: nat)
    requires ValidRow(Spell(row)) && j < |row|
    ensures IsDigit(row[j]) || IsLetter(row[j])
  {
    SpellPrefix(row, j);
    if !IsDigit(row[j]) {
      var n := |Spell(row[..j])|;
      assert Spell(row)[n..n + 1] == [row[j]];
      assert Spell(row)[n] == Spell(row)[n..n + 1][0];
    }
  }

  /** The first j characters of row i have been read up to column n. */
  ghost predicate Reading(rows: seq<string>, i: nat, row: string, j: nat, n: nat, position: Position) {
    && ValidRows(rows) && i < 8 && rows[i] == Spell(row) && j <= |row|
    && n == |Spell(row[..j])| <= 8 && position == Filled(rows, i, n)
  }

  /** Reading one character. */
  lemma ReadCharacter(rows: seq<string>, i: nat, row: string, j: nat, n: nat, position: Position)
    requires Reading(rows, i, row, j, n, position) && j < |row|
    ensures IsDigit(row[j]) ==> Reading(rows, i, row, j + 1, n + DigitValue(row[j]), position)
    ensures !IsDigit(row[j]) ==>
            Reading(rows, i, row, j + 1, n + 1, position[Square(n, 8 - i) := FenToPieceCode(row[j])])
  {
    SpellPrefix(row, j);
    RowCharacters(row, j);
    if IsDigit(row[j]) {
      SkipEmpty(rows, i, n, DigitValue(row[j]));
    } else {
      assert rows[i][n..n + 1][0] == row[j];
      PutPiece(rows, i, n);
    }
  }

  /** One row of `fenToObj`. */
  method ParseRow(row: string, i: nat, before: Position, ghost rows: seq<string>) returns (position: Position)
    requires Reading(rows, i, row, 0, 0, before)
    ensures position == Filled(rows, i, 8)
  {
    position := before;
    var currentRow := 8 - i;
    var colIdx: nat := 0;
    for j := 0 to |row|
      invariant Reading(rows, i, row, j, colIdx, position)
    {
      ReadCharacter(rows, i, row, j, colIdx, position);
      if '1' <= row[j] <= '8' {
        colIdx := colIdx + DigitValue(row[j]);
      } else {
        position := position[Square(colIdx, currentRow) := FenToPieceCode(row[j])];
        colIdx := colIdx + 1;
      }
    }
    assert row[..|row|] == row;
  }

  /** `fenToObj` */
  method FenToObj(fen: string) returns (r: Option<Position>)
    ensures r == if IsValidFen(fen) then Some(GridOf(ExpandedRows(fen))) else None
  {
    var ok := ValidFen(fen);
    if !ok { return None; }
    var placement := CutTrailing(fen);
    var rows := Split(placement);
    ghost var expanded := ExpandedRows(fen);
    ExpandSpells(placement);
    SplitSpell(placement);
    var position: Position := map[];
    assert position == Filled(expanded, 0, 0);
    for i := 0 to 8
      invariant position == Filled(expanded, i, 0)
    {
      position := ParseRow(rows[i], i, position, expanded);
      NextRow(expanded, i);
    }
    r := Some(position);
  }

  // ----- printing -----

  function SquareText(p: Position, s: Square): char { if s in p then PieceCodeToFen(p[s]) else '1' }

  function RowText(p: Position, i: nat): (row: string)
    requires i < 8
    ensures |row| == 8
  {
    seq(8, j requires 0 <= j < 8 => SquareText(p, Square(j, 8 - i)))
  }

  function RowTexts(p: Position): (rows: seq<string>)
    ensures |rows| == 8
  {
    seq(8, i requires 0 <= i < 8 => RowText(p, i))
  }

  /** The FEN of a valid position. */
  function FenOf(p: Position): string { Squeeze(JoinRows(RowTexts(p))) }

  /** The first i rows, each with the slash after it. */
  function JoinPrefix(rows: seq<string>, i: nat): string
    requires i <= |rows|
  {
    if i == 0 then "" else JoinPrefix(rows, i - 1) + rows[i - 1] + if i != |rows| then "/" else ""
  }

  lemma {:induction false} JoinPrefixIs(rows: seq<string>, i: nat)
    requires i < |rows|
    ensures JoinPrefix(rows, i) + JoinRows(rows[i..]) == JoinRows(rows)
  {
    if i == 0 {
      assert rows[0..] == rows;
    } else {
      JoinPrefixIs(rows, i - 1);
      assert rows[i - 1..][1..] == rows[i..];
    }
  }

  lemma JoinAll(rows: seq<string>)
    requires |rows| > 0
    ensures JoinPrefix(rows, |rows|) == JoinRows(rows)
  {
    JoinPrefixIs(rows, |rows| - 1);
  }

  method ObjToFen(obj: Position) returns (r: Option<string>)
    ensures r == if ValidPosition(obj) then Some(FenOf(obj)) else None
  {
    if !(forall s :: s in obj ==> OnBoard(s) && ValidPiece(obj[s])) { return None; }
    var fen := "";
    var currentRow := 8;
    ghost var rows := RowTexts(obj);
    for i := 0 to 8
      invariant currentRow == 8 - i && fen == JoinPrefix(rows, i)
    {
      for j := 0 to 8
        invariant fen == JoinPrefix(rows, i) + rows[i][..j]
      {
        var square := Square(j, currentRow);
        if square in obj { fen := fen + [PieceCodeToFen(obj[square])]; } else { fen := fen + "1"; }
        assert rows[i][..j + 1] == rows[i][..j] + [rows[i][j]];
      }
      assert rows[i][..8] == rows[i];
      if i != 7 { fen := fen + "/"; }
      currentRow := currentRow - 1;
    }
    JoinAll(rows);
    r := Some(Squeeze(fen));
  }

  // ----- there and back -----

  lemma GridOfRowTexts(p: Position)
    requires ValidPosition(p)
    ensures ValidRows(RowTexts(p)) && GridOf(RowTexts(p)) == p
  {
    var rows := RowTexts(p);
    forall i, j | 0 <= i < 8 && 0 <= j < 8 ensures IsLetter(rows[i][j]) || rows[i][j] == '1' {
      var s := Square(j, 8 - i);
      if s in p { LetterCodes('1', p[s]); }
    }
    forall s ensures s in p <==> s in GridOf(rows) ensures s in p ==> GridOf(rows)[s] == p[s] {
      if s in p {
        LetterCodes('1', p[s]);
        assert rows[8 - s.row][s.col] == PieceCodeToFen(p[s]);
      }
    }
  }

  lemma RowTextsOfGrid(rows: seq<string>)
    requires ValidRows(rows)
    ensures ValidPosition(GridOf(rows)) && RowTexts(GridOf(rows)) == rows
  {
    var p := GridOf(rows);
    forall i, j | 0 <= i < 8 && 0 <= j < 8 ensures RowTexts(p)[i][j] == rows[i][j] {
      LetterCodes(rows[i][j], Piece(true, 'K'));
      assert Square(j, 8 - i) in AllSquares();
    }
    forall i | 0 <= i < 8 ensures RowTexts(p)[i] == rows[i] { }
    forall s | s in p ensures OnBoard(s) && ValidPiece(p[s]) { LetterCodes(rows[8 - s.row][s.col], p[s]); }
  }

  /** The characters of a placement. */
  predicate Plain(s: string) { forall i :: 0 <= i < |s| ==> IsLetter(s[i]) || IsDigit(s[i]) || s[i] == '/' }

  lemma {:induction false} CutFromPlain(s: string, i: nat)
    requires Plain(s)
    ensures CutFrom(s, i) == s
    decreases |s| - i
  {
    if i >= |s| {
    } else {
      CutFromPlain(s, i + 1);
    }
  }

  lemma {:induction false} JoinIsPlain(rows: seq<string>)
    requires |rows| > 0 && forall i :: 0 <= i < |rows| ==> ValidRow(rows[i])
    ensures Plain(JoinRows(rows)) && Below(JoinRows(rows), 2)
  {
    if |rows| <= 1 {
    } else {
      JoinIsPlain(rows[1..]);
    }
  }

  lemma {:induction false} SqueezedIsPlain(s: string)
    requires Plain(s)
    ensures Plain(Squeezed(s))
    decreases |s|
  {
    if s == "" {
    } else {
      var n := LeadingOnes(s);
      var m := if n > 8 then 8 else n;
      var c, rest := if n == 0 then s[0] else Digit(m), if n == 0 then s[1..] else s[m..];
      SqueezedIsPlain(rest);
      assert Squeezed(s) == [c] + Squeezed(rest) && (IsLetter(c) || IsDigit(c) || c == '/');
    }
  }

  lemma SqueezedPlacement(e: string)
    requires Plain(e) && Below(e, 2)
    ensures Squeeze(e) == Squeezed(e) && CutTrailing(Squeeze(e)) == Squeeze(e) && Expand(Squeeze(e)) == e
  {
    SqueezeIsSqueezed(e);
    SqueezedIsPlain(e);
    CutFromPlain(Squeezed(e), 0);
    ExpandSqueeze(e);
    ExpandSpells(e);
    SpellOfOnes(e);
  }

  /** Eight valid rows, joined and squeezed, are a valid FEN that expands to those rows. */
  lemma SqueezedRows(rows: seq<string>)
    requires ValidRows(rows)
    ensures var fen := Squeeze(JoinRows(rows));
      CutTrailing(fen) == fen && ExpandedRows(fen) == rows && fen == Squeezed(JoinRows(rows))
  {
    JoinIsPlain(rows);
    SqueezedPlacement(JoinRows(rows));
    SplitJoin(rows);
  }

  /** Parsing a printed position gives back the position. */
  lemma ParseUndoesPrint(p: Position)
    requires ValidPosition(p)
    ensures IsValidFen(FenOf(p)) && GridOf(ExpandedRows(FenOf(p))) == p
  {
    GridOfRowTexts(p);
    SqueezedRows(RowTexts(p));
  }

  /** Printing a parsed FEN gives the squeezed form of its expanded placement. */
  lemma PrintOfParse(fen: string)
    requires IsValidFen(fen)
    ensures var p := GridOf(ExpandedRows(fen));
      ValidPosition(p) && FenOf(p) == Squeezed(Expand(CutTrailing(fen)))
  {
    RowTextsOfGrid(ExpandedRows(fen));
    JoinSplit(Expand(CutTrailing(fen)));
    SqueezedRows(ExpandedRows(fen));
  }

  /** It gives back the FEN itself exactly when that has no trailing fields and no two digits side by
      side but behind an 8. */
  lemma PrintUndoesParse(fen: string)
    requires IsValidFen(fen)
    ensures FenOf(GridOf(ExpandedRows(fen))) == fen <==> CutTrailing(fen) == fen && Tidy(fen)
  {
    RowTextsOfGrid(ExpandedRows(fen));
    JoinSplit(Expand(CutTrailing(fen)));
    SqueezedRows(ExpandedRows(fen));
    SqueezeExpand(CutTrailing(fen));
  }
}
