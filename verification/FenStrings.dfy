/** The string functions of the FEN code: replacing, squeezing and expanding runs of empty squares,
    splitting at slashes and cutting off trailing fields. */
module FenStrings {

  // ----- String.replace with a global pattern of fixed characters -----

  predicate StartsWith(s: string, p: string) { |p| <= |s| && s[..|p|] == p }

  /** Every occurrence from the left, without overlaps. */
  function Replace(s: string, p: string, r: string): string
    requires p != ""
  {
    if s == "" then ""
    else if StartsWith(s, p) then r + Replace(s[|p|..], p, r)
    else [s[0]] + Replace(s[1..], p, r)
  }

  lemma ReplaceSkip(c: char, t: string, p: string, r: string)
    requires p != "" && !StartsWith([c] + t, p)
    ensures Replace([c] + t, p, r) == [c] + Replace(t, p, r)
  {
    assert ([c] + t)[1..] == t;
  }

  lemma ReplaceHit(p: string, t: string, r: string)
    requires p != ""
    ensures Replace(p + t, p, r) == r + Replace(t, p, r)
  {
    assert (p + t)[..|p|] == p && (p + t)[|p|..] == t;
  }

  function Ones(n: nat): (s: string)
    ensures |s| == n && forall i :: 0 <= i < n ==> s[i] == '1'
  {
    seq(n, _ => '1')
  }

  /** The digit character of 1 to 8. */
  function Digit(n: nat): (c: char)
    requires 1 <= n <= 8
  {
    ['1', '2', '3', '4', '5', '6', '7', '8'][n - 1]
  }

  predicate IsDigit(c: char) { '1' <= c <= '8' }

  function DigitValue(c: char): (n: nat)
    requires IsDigit(c)
    ensures 1 <= n <= 8 && Digit(n) == c
  {
    c as int - '0' as int
  }

  /** `squeezeFenEmptySquares` */
  function Squeeze(fen: string): string {
    var s8 := Replace(fen, Ones(8), "8");
    var s7 := Replace(s8, Ones(7), "7");
    var s6 := Replace(s7, Ones(6), "6");
    var s5 := Replace(s6, Ones(5), "5");
    var s4 := Replace(s5, Ones(4), "4");
    var s3 := Replace(s4, Ones(3), "3");
    Replace(s3, Ones(2), "2")
  }

  /** `expandFenEmptySquares` */
  function Expand(fen: string): string {
    var s8 := Replace(fen, "8", Ones(8));
    var s7 := Replace(s8, "7", Ones(7));
    var s6 := Replace(s7, "6", Ones(6));
    var s5 := Replace(s6, "5", Ones(5));
    var s4 := Replace(s5, "4", Ones(4));
    var s3 := Replace(s4, "3", Ones(3));
    Replace(s3, "2", Ones(2))
  }

  // ----- what they mean: every digit stands for that many empty squares -----

  function Spread(c: char): string { if IsDigit(c) then Ones(DigitValue(c)) else [c] }

  function Spell(s: string): string { if s == "" then "" else Spread(s[0]) + Spell(s[1..]) }

  lemma {:induction false} SpellConcat(a: string, b: string)
    ensures Spell(a + b) == Spell(a) + Spell(b)
  {
    if a == "" {
      assert a + b == b;
    } else {
      assert (a + b)[1..] == a[1..] + b;
      SpellConcat(a[1..], b);
    }
  }

  lemma {:induction false} SpellOnes(n: nat)
    ensures Spell(Ones(n)) == Ones(n)
  {
    if n == 0 {
    } else {
      SpellOnes(n - 1);
      assert Ones(n)[1..] == Ones(n - 1);
      assert Spread('1') + Ones(n - 1) == Ones(n);
    }
  }

  /** Replacing one spelling by another does not change what is spelled. */
  lemma {:induction false} ReplaceKeepsSpelling(s: string, p: string, r: string)
    requires p != "" && Spell(p) == Spell(r)
    ensures Spell(Replace(s, p, r)) == Spell(s)
  {
    if s == "" {
    } else if StartsWith(s, p) {
      ReplaceKeepsSpelling(s[|p|..], p, r);
      SpellConcat(r, Replace(s[|p|..], p, r));
      SpellConcat(p, s[|p|..]);
      assert s == p + s[|p|..];
    } else {
      ReplaceKeepsSpelling(s[1..], p, r);
      assert Replace(s, p, r)[1..] == Replace(s[1..], p, r);
    }
  }

  lemma SpellDigit(n: nat)
    requires 1 <= n <= 8
    ensures Spell([Digit(n)]) == Ones(n) == Spell(Ones(n))
  {
    SpellOnes(n);
    assert Spell([Digit(n)]) == Spread(Digit(n)) + Spell("");
  }

  lemma SqueezeKeepsSpelling(s: string)
    ensures Spell(Squeeze(s)) == Spell(s)
  {
    var s8 := Replace(s, Ones(8), "8");
    var s7 := Replace(s8, Ones(7), "7");
    var s6 := Replace(s7, Ones(6), "6");
    var s5 := Replace(s6, Ones(5), "5");
    var s4 := Replace(s5, Ones(4), "4");
    var s3 := Replace(s4, Ones(3), "3");
    SpellDigit(8); ReplaceKeepsSpelling(s, Ones(8), "8");
    SpellDigit(7); ReplaceKeepsSpelling(s8, Ones(7), "7");
    SpellDigit(6); ReplaceKeepsSpelling(s7, Ones(6), "6");
    SpellDigit(5); ReplaceKeepsSpelling(s6, Ones(5), "5");
    SpellDigit(4); ReplaceKeepsSpelling(s5, Ones(4), "4");
    SpellDigit(3); ReplaceKeepsSpelling(s4, Ones(3), "3");
    SpellDigit(2); ReplaceKeepsSpelling(s3, Ones(2), "2");
  }

  /** No digit from 2 up to 8 that is at least k. */
  predicate Below(s: string, k: nat)
    requires 2 <= k <= 9
  {
    forall i :: 0 <= i < |s| && IsDigit(s[i]) ==> DigitValue(s[i]) < k
  }

  lemma BelowConcat(a: string, b: string, k: nat)
    requires 2 <= k <= 9 && Below(a, k) && Below(b, k)
    ensures Below(a + b, k)
  {
  }

  lemma {:induction false} ReplaceDigitBelow(s: string, k: nat)
    requires 2 <= k <= 8 && Below(s, k + 1)
    ensures Below(Replace(s, [Digit(k)], Ones(k)), k)
  {
    if s == "" {
    } else {
      var c, t := s[0], s[1..];
      ReplaceDigitBelow(t, k);
      assert s == [c] + t;
      if c == Digit(k) {
        ReplaceHit([Digit(k)], t, Ones(k));
        BelowConcat(Ones(k), Replace(t, [Digit(k)], Ones(k)), k);
      } else {
        assert ([c] + t)[..1] == [c];
        ReplaceSkip(c, t, [Digit(k)], Ones(k));
        assert IsDigit(c) ==> DigitValue(c) != k;
        BelowConcat([c], Replace(t, [Digit(k)], Ones(k)), k);
      }
    }
  }

  lemma ReplaceDigit(s: string, k: nat)
    requires 2 <= k <= 8 && Below(s, k + 1)
    ensures Below(Replace(s, [Digit(k)], Ones(k)), k)
    ensures Spell(Replace(s, [Digit(k)], Ones(k))) == Spell(s)
  {
    ReplaceDigitBelow(s, k);
    SpellDigit(k);
    ReplaceKeepsSpelling(s, [Digit(k)], Ones(k));
  }

  lemma {:induction false} SpellOfOnes(s: string)
    requires Below(s, 2)
    ensures Spell(s) == s
  {
    if s == "" {
    } else {
      SpellOfOnes(s[1..]);
      assert Spread(s[0]) == [s[0]];
    }
  }

  /** The chain of replacements spells the string out. */
  lemma ExpandSpells(s: string)
    ensures Expand(s) == Spell(s)
  {
    var s8 := Replace(s, "8", Ones(8));
    var s7 := Replace(s8, "7", Ones(7));
    var s6 := Replace(s7, "6", Ones(6));
    var s5 := Replace(s6, "5", Ones(5));
    var s4 := Replace(s5, "4", Ones(4));
    var s3 := Replace(s4, "3", Ones(3));
    var s2 := Replace(s3, "2", Ones(2));
    ReplaceDigit(s, 8);
    ReplaceDigit(s8, 7);
    ReplaceDigit(s7, 6);
    ReplaceDigit(s6, 5);
    ReplaceDigit(s5, 4);
    ReplaceDigit(s4, 3);
    ReplaceDigit(s3, 2);
    SpellOfOnes(s2);
  }

  /** Expanding undoes squeezing, up to the expansion of what was there before. */
  lemma ExpandSqueeze(s: string)
    ensures Expand(Squeeze(s)) == Expand(s)
  {
    ExpandSpells(s);
    ExpandSpells(Squeeze(s));
    SqueezeKeepsSpelling(s);
  }

  // ----- the squeezed form -----

  function LeadingOnes(s: string): (n: nat)
    ensures n <= |s| && s[..n] == Ones(n) && (n < |s| ==> s[n] != '1')
  {
    if s == "" || s[0] != '1' then 0 else 1 + LeadingOnes(s[1..])
  }

  /** Each run of empty squares as one digit, in eights as long as possible. */
  function Squeezed(s: string): string {
    if s == "" then ""
    else
      var n := LeadingOnes(s);
      if n == 0 then [s[0]] + Squeezed(s[1..])
      else
        var m := if n > 8 then 8 else n;
        [Digit(m)] + Squeezed(s[m..])
  }

  /** A digit directly in front of another one is an 8. */
  predicate Tidy(s: string) {
    forall i :: 0 <= i < |s| - 1 && IsDigit(s[i]) && IsDigit(s[i + 1]) ==> s[i] == '8'
  }

  /** Spelling out only the digits up to k. */
  function SpellTo(s: string, k: nat): string {
    if s == "" then ""
    else (if IsDigit(s[0]) && DigitValue(s[0]) <= k then Ones(DigitValue(s[0])) else [s[0]]) + SpellTo(s[1..], k)
  }

  lemma {:induction false} SpellToEnds(s: string)
    ensures SpellTo(s, 1) == s && SpellTo(s, 8) == Spell(s)
  {
    if s == "" {
    } else {
      SpellToEnds(s[1..]);
      if s[0] == '1' { assert Ones(1) == ['1']; }
    }
  }

  lemma NotThere(s: string, p: string, d: nat)
    requires d < |p| && (d < |s| ==> s[d] != p[d])
    ensures !StartsWith(s, p)
  {
    assert |p| <= |s| ==> s[..|p|][d] == s[d];
  }

  lemma OnesCons(d: nat, x: string)
    requires d > 0
    ensures ['1'] + (Ones(d - 1) + x) == Ones(d) + x
  {
  }

  lemma {:induction false} SkipOnes(d: nat, k: nat, rest: string)
    requires d < k <= 8 && (rest == "" || rest[0] != '1')
    ensures Replace(Ones(d) + rest, Ones(k), [Digit(k)]) == Ones(d) + Replace(rest, Ones(k), [Digit(k)])
  {
    if d == 0 {
      assert Ones(d) + rest == rest;
    } else {
      SkipOnes(d - 1, k, rest);
      NotThere(Ones(d) + rest, Ones(k), d);
      OnesCons(d, rest);
      ReplaceSkip('1', Ones(d - 1) + rest, Ones(k), [Digit(k)]);
      OnesCons(d, Replace(rest, Ones(k), [Digit(k)]));
    }
  }

  /** One replacement of the squeezing chain takes back one digit of the spelling. */
  lemma {:induction false} ReplaceUnspells(s: string, k: nat)
    requires 2 <= k <= 8 && Tidy(s)
    ensures Replace(SpellTo(s, k), Ones(k), [Digit(k)]) == SpellTo(s, k - 1)
  {
    if s == "" {
    } else {
      var rest := SpellTo(s[1..], k);
      ReplaceUnspells(s[1..], k);
      if IsDigit(s[0]) && DigitValue(s[0]) <= k {
        var d := DigitValue(s[0]);
        if d == k {
          assert (Ones(k) + rest)[..k] == Ones(k) && (Ones(k) + rest)[k..] == rest;
        } else {
          assert |s| > 1 ==> !IsDigit(s[1]);
          SkipOnes(d, k, rest);
        }
      } else {
        var t := SpellTo(s, k);
        assert t[0] == s[0] != '1' && t[1..] == rest;
        assert Ones(k)[0] == '1';
      }
    }
  }

  lemma SqueezeUndoesSpell(s: string)
    requires Tidy(s)
    ensures Squeeze(Spell(s)) == s
  {
    SpellToEnds(s);
    ReplaceUnspells(s, 8);
    ReplaceUnspells(s, 7);
    ReplaceUnspells(s, 6);
    ReplaceUnspells(s, 5);
    ReplaceUnspells(s, 4);
    ReplaceUnspells(s, 3);
    ReplaceUnspells(s, 2);
  }

  lemma TidyDigit(m: nat, rest: string)
    requires 1 <= m <= 8 && Tidy(rest) && (m < 8 && rest != "" ==> !IsDigit(rest[0]))
    ensures Tidy([Digit(m)] + rest) && Spell([Digit(m)] + rest) == Ones(m) + Spell(rest)
  {
    var s := [Digit(m)] + rest;
    assert s[1..] == rest;
    assert DigitValue(s[0]) == m by { DigitsDiffer(DigitValue(s[0]), m); }
  }

  lemma DigitsDiffer(m: nat, n: nat)
    requires 1 <= m <= 8 && 1 <= n <= 8 && Digit(m) == Digit(n)
    ensures m == n
  {
  }

  lemma TidyOther(c: char, rest: string)
    requires !IsDigit(c) && Tidy(rest)
    ensures Tidy([c] + rest) && Spell([c] + rest) == [c] + Spell(rest)
  {
    assert ([c] + rest)[1..] == rest;
  }

  lemma {:induction false} SqueezedIsTidy(s: string)
    requires Below(s, 2)
    ensures Tidy(Squeezed(s)) && Spell(Squeezed(s)) == s
    decreases |s|
  {
    if s == "" {
    } else {
      var n := LeadingOnes(s);
      if n == 0 {
        SqueezedIsTidy(s[1..]);
        TidyOther(s[0], Squeezed(s[1..]));
      } else {
        var m := if n > 8 then 8 else n;
        SqueezedIsTidy(s[m..]);
        if n <= 8 && n < |s| { SqueezedStart(s[m..]); }
        TidyDigit(m, Squeezed(s[m..]));
        SplitOnes(s, m);
      }
    }
  }

  lemma SplitOnes(s: string, m: nat)
    requires m <= LeadingOnes(s)
    ensures s == Ones(m) + s[m..]
  {
    var n := LeadingOnes(s);
    assert s[..n] == Ones(n) && Ones(n)[..m] == Ones(m) && s[..n][..m] == s[..m];
  }

  lemma SqueezedStart(s: string)
    requires Below(s, 2) && s != "" && s[0] != '1'
    ensures Squeezed(s) != "" && !IsDigit(Squeezed(s)[0])
  {
  }

  /** On strings without other digits, the chain of replacements computes the squeezed form. */
  lemma SqueezeIsSqueezed(s: string)
    requires Below(s, 2)
    ensures Squeeze(s) == Squeezed(s)
  {
    SqueezedIsTidy(s);
    SqueezeUndoesSpell(Squeezed(s));
  }

  lemma {:induction false} SpellBelow(s: string)
    ensures Below(Spell(s), 2)
  {
    if s == "" {
    } else {
      SpellBelow(s[1..]);
    }
  }

  /** Expanding and squeezing again gives back exactly the tidy strings. */
  lemma SqueezeExpand(s: string)
    ensures Squeeze(Expand(s)) == s <==> Tidy(s)
  {
    ExpandSpells(s);
    SpellBelow(s);
    SqueezeIsSqueezed(Spell(s));
    SqueezedIsTidy(Spell(s));
    if Tidy(s) { SqueezeUndoesSpell(s); }
  }

  // ----- splitting at slashes -----

  function Split(s: string): (rows: seq<string>)
    ensures |rows| > 0
  {
    if s == "" then [""]
    else
      var rows := Split(s[1..]);
      if s[0] == '/' then [""] + rows else [[s[0]] + rows[0]] + rows[1..]
  }

  function JoinRows(rows: seq<string>): string
    requires |rows| > 0
  {
    if |rows| == 1 then rows[0] else rows[0] + "/" + JoinRows(rows[1..])
  }

  predicate NoSlash(s: string) { forall i :: 0 <= i < |s| ==> s[i] != '/' }

  predicate NoSlashes(rows: seq<string>) { forall i :: 0 <= i < |rows| ==> NoSlash(rows[i]) }

  lemma JoinAfterSlash(s: string)
    requires JoinRows(Split(s)) == s && NoSlashes(Split(s))
    ensures JoinRows(Split("/" + s)) == "/" + s && NoSlashes(Split("/" + s))
  {
    assert ("/" + s)[1..] == s;
    var rows := Split(s);
    assert ([""] + rows)[1..] == rows;
    assert JoinRows([""] + rows) == "" + "/" + JoinRows(rows);
  }

  lemma JoinAfterOther(c: char, s: string)
    requires c != '/' && JoinRows(Split(s)) == s && NoSlashes(Split(s))
    ensures JoinRows(Split([c] + s)) == [c] + s && NoSlashes(Split([c] + s))
  {
    var rows := Split(s);
    var first := [c] + rows[0];
    SplitCons(c, s);
    assert NoSlash(rows[0]) && NoSlash(first);
    if |rows| > 1 {
      assert ([first] + rows[1..])[1..] == rows[1..];
      assert first + "/" + JoinRows(rows[1..]) == [c] + (rows[0] + "/" + JoinRows(rows[1..]));
    }
  }

  lemma {:induction false} JoinSplit(s: string)
    ensures JoinRows(Split(s)) == s && NoSlashes(Split(s))
  {
    if s == "" {
    } else {
      JoinSplit(s[1..]);
      assert s == [s[0]] + s[1..];
      if s[0] == '/' { JoinAfterSlash(s[1..]); } else { JoinAfterOther(s[0], s[1..]); }
    }
  }

  lemma SplitCons(c: char, t: string)
    requires c != '/'
    ensures Split([c] + t) == [[c] + Split(t)[0]] + Split(t)[1..]
  {
    assert ([c] + t)[1..] == t;
  }

  lemma {:induction false} SplitPrefix(a: string, b: string)
    requires NoSlash(a)
    ensures Split(a + b) == [a + Split(b)[0]] + Split(b)[1..]
  {
    if a == "" {
      assert a + b == b && a + Split(b)[0] == Split(b)[0];
      assert [Split(b)[0]] + Split(b)[1..] == Split(b);
    } else {
      var t := a[1..];
      SplitPrefix(t, b);
      assert a + b == [a[0]] + (t + b);
      SplitCons(a[0], t + b);
      assert [a[0]] + (t + Split(b)[0]) == a + Split(b)[0];
    }
  }

  lemma SplitRow(row: string, rest: string)
    requires NoSlash(row)
    ensures Split(row + "/" + rest) == [row] + Split(rest)
    ensures Split(row) == [row]
  {
    SplitPrefix(row, "/" + rest);
    assert row + "/" + rest == row + ("/" + rest);
    assert ("/" + rest)[1..] == rest;
    assert row + "" == row;
    SplitPrefix(row, "");
  }

  lemma {:induction false} SplitJoin(rows: seq<string>)
    requires |rows| > 0 && forall i :: 0 <= i < |rows| ==> NoSlash(rows[i])
    ensures Split(JoinRows(rows)) == rows
  {
    if |rows| == 1 {
      SplitRow(rows[0], "");
    } else {
      SplitJoin(rows[1..]);
      SplitRow(rows[0], JoinRows(rows[1..]));
    }
  }

  function SpellRows(rows: seq<string>): (r: seq<string>)
    ensures |r| == |rows|
  {
    seq(|rows|, i requires 0 <= i < |rows| => Spell(rows[i]))
  }

  lemma SpellRowsCons(row: string, rows: seq<string>)
    ensures SpellRows([row] + rows) == [Spell(row)] + SpellRows(rows)
  {
  }

  /** Splitting and spelling out can be done in either order. */
  lemma {:induction false} SplitSpell(s: string)
    ensures Split(Spell(s)) == SpellRows(Split(s))
  {
    if s == "" {
      assert Split("") == [""];
    } else {
      SplitSpell(s[1..]);
      if s[0] == '/' { SplitSpellSlash(s[1..]); } else { SplitSpellOther(s[0], s[1..]); }
      assert s == [s[0]] + s[1..];
    }
  }

  lemma SplitSpellSlash(s: string)
    requires Split(Spell(s)) == SpellRows(Split(s))
    ensures Split(Spell("/" + s)) == SpellRows(Split("/" + s))
  {
    assert ("/" + s)[1..] == s;
    assert ("/" + Spell(s))[1..] == Spell(s);
    SpellRowsCons("", Split(s));
  }

  lemma SplitSpellOther(c: char, s: string)
    requires c != '/' && Split(Spell(s)) == SpellRows(Split(s))
    ensures Split(Spell([c] + s)) == SpellRows(Split([c] + s))
  {
    var rows := Split(s);
    assert ([c] + s)[1..] == s;
    assert ([c] + rows[0])[1..] == rows[0];
    SplitPrefix(Spread(c), Spell(s));
    SpellRowsCons([c] + rows[0], rows[1..]);
    SpellRowsCons(rows[0], rows[1..]);
    assert rows == [rows[0]] + rows[1..];
  }
}
