/** The UTF-8 validator, the grammar of RFC 3629 section 4, and the encoding of section 3. */
module Utf8 {
  import opened Basics

  // ----- section 3: encoding one scalar value -----

  predicate Scalar(v: int) { 0 <= v < 0x110000 && !(0xD800 <= v < 0xE000) }

  /** The validator also refuses these two noncharacters, and a C string holds no NUL. */
  predicate Allowed(v: int) { Scalar(v) && v != 0 && v != 0xFFFE && v != 0xFFFF }

  function Tail(n: int): Byte
    requires 0 <= n
  {
    0x80 + n % 64
  }

  function Encode(v: int): (c: seq<Byte>)
    requires Scalar(v)
  {
    if v < 0x80 then [v]
    else if v < 0x800 then [0xC0 + v / 64, Tail(v)]
    else if v < 0x1_0000 then [0xE0 + v / 64 / 64, Tail(v / 64), Tail(v)]
    else [0xF0 + v / 64 / 64 / 64, Tail(v / 64 / 64), Tail(v / 64), Tail(v)]
  }

  predicate AllAllowed(vs: seq<int>) { forall i :: 0 <= i < |vs| ==> Allowed(vs[i]) }

  function EncodeAll(vs: seq<int>): seq<Byte>
    requires AllAllowed(vs)
  {
    if vs == [] then [] else Encode(vs[0]) + EncodeAll(vs[1..])
  }

  // ----- section 4: the grammar -----

  predicate IsTail(b: Byte) { 0x80 <= b <= 0xBF }

  predicate Utf8Char(c: seq<Byte>) {
    || (|c| == 1 && c[0] <= 0x7F)
    || (|c| == 2 && 0xC2 <= c[0] <= 0xDF && IsTail(c[1]))
    || (|c| == 3 && IsTail(c[2])
        && ((c[0] == 0xE0 && 0xA0 <= c[1] <= 0xBF) || (0xE1 <= c[0] <= 0xEC && IsTail(c[1]))
            || (c[0] == 0xED && 0x80 <= c[1] <= 0x9F) || (0xEE <= c[0] <= 0xEF && IsTail(c[1]))))
    || (|c| == 4 && IsTail(c[2]) && IsTail(c[3])
        && ((c[0] == 0xF0 && 0x90 <= c[1] <= 0xBF) || (0xF1 <= c[0] <= 0xF3 && IsTail(c[1]))
            || (c[0] == 0xF4 && 0x80 <= c[1] <= 0x8F)))
  }

  /** U+FFFE and U+FFFF. */
  predicate Noncharacter(c: seq<Byte>) { |c| == 3 && c[0] == 0xEF && c[1] == 0xBF && (c[2] == 0xBE || c[2] == 0xBF) }

  /** Some first character of the text has n bytes and obeys the grammar. */
  predicate Starts(t: seq<Byte>, n: nat) { 0 < n <= |t| && Utf8Char(t[..n]) && !Noncharacter(t[..n]) }

  predicate WellFormed(t: seq<Byte>) {
    t == [] || exists n {:trigger Starts(t, n)} :: 0 < n <= |t| && Starts(t, n) && WellFormed(t[n..])
  }

  predicate NoNul(t: seq<Byte>) { forall i :: 0 <= i < |t| ==> t[i] != 0 }

  // ----- the grammar describes the encodings -----

  /** One more base-64 digit, taken from a tail byte. */
  function Append(high: int, tail: Byte): int { 64 * high + tail - 0x80 }

  function Value(c: seq<Byte>): int
    requires Utf8Char(c)
  {
    var first: int := c[0];
    if |c| == 1 then first
    else if |c| == 2 then Append(first - 0xC0, c[1])
    else if |c| == 3 then Append(Append(first - 0xE0, c[1]), c[2])
    else Append(Append(Append(first - 0xF0, c[1]), c[2]), c[3])
  }

  lemma SplitDigit(v: int)
    requires 0 <= v
    ensures IsTail(Tail(v)) && Append(v / 64, Tail(v)) == v
  {
  }

  /** The bytes hold the bits of the value, and their number is the least that does. */
  predicate IsEncoding(v: int, c: seq<Byte>) {
    && Utf8Char(c) && Value(c) == v
    && (if v < 0x80 then |c| == 1 else if v < 0x800 then |c| == 2 else if v < 0x1_0000 then |c| == 3 else |c| == 4)
  }

  lemma SameDigits(high: int, tail: Byte, high': int, tail': Byte)
    requires IsTail(tail) && IsTail(tail') && Append(high, tail) == Append(high', tail')
    ensures high == high' && tail == tail'
  {
  }

  lemma OneEncoding(v: int, c: seq<Byte>, c': seq<Byte>)
    requires IsEncoding(v, c) && IsEncoding(v, c')
    ensures c == c'
  {
    var a: int, a': int := c[0], c'[0];
    if |c| == 2 {
      SameDigits(a - 0xC0, c[1], a' - 0xC0, c'[1]);
    } else if |c| == 3 {
      SameDigits(Append(a - 0xE0, c[1]), c[2], Append(a' - 0xE0, c'[1]), c'[2]);
      SameDigits(a - 0xE0, c[1], a' - 0xE0, c'[1]);
    } else if |c| == 4 {
      SameDigits(Append(Append(a - 0xF0, c[1]), c[2]), c[3], Append(Append(a' - 0xF0, c'[1]), c'[2]), c'[3]);
      SameDigits(Append(a - 0xF0, c[1]), c[2], Append(a' - 0xF0, c'[1]), c'[2]);
      SameDigits(a - 0xF0, c[1], a' - 0xF0, c'[1]);
    }
  }

  lemma EncodeIs(v: int)
    requires Scalar(v)
    ensures IsEncoding(v, Encode(v))
  {
    SplitDigit(v);
    SplitDigit(v / 64);
    SplitDigit(v / 64 / 64);
  }

  lemma IsScalar(c: seq<Byte>)
    requires Utf8Char(c)
    ensures Scalar(Value(c)) && IsEncoding(Value(c), c)
    ensures Noncharacter(c) <==> Value(c) == 0xFFFE || Value(c) == 0xFFFF
    ensures c[0] == 0 <==> Value(c) == 0
  {
  }

  lemma ValueOfEncode(v: int)
    requires Scalar(v)
    ensures Utf8Char(Encode(v)) && Value(Encode(v)) == v
    ensures Noncharacter(Encode(v)) <==> v == 0xFFFE || v == 0xFFFF
    ensures Encode(v)[0] == 0 <==> v == 0
  {
    EncodeIs(v);
    IsScalar(Encode(v));
  }

  lemma EncodeOfValue(c: seq<Byte>)
    requires Utf8Char(c)
    ensures Scalar(Value(c)) && Encode(Value(c)) == c
  {
    IsScalar(c);
    EncodeIs(Value(c));
    OneEncoding(Value(c), c, Encode(Value(c)));
  }

  lemma CharsAreEncodings(c: seq<Byte>)
    ensures Utf8Char(c) <==> exists v :: Scalar(v) && Encode(v) == c
  {
    if Utf8Char(c) { EncodeOfValue(c); }
    forall v | Scalar(v) && Encode(v) == c ensures Utf8Char(c) { ValueOfEncode(v); }
  }

  /** Putting one more encoding in front. */
  lemma OneMore(c: seq<Byte>, rest: seq<Byte>)
    requires Utf8Char(c) && !Noncharacter(c) && c[0] != 0 && WellFormed(rest) && NoNul(rest)
    ensures WellFormed(c + rest) && NoNul(c + rest)
  {
    assert (c + rest)[..|c|] == c && (c + rest)[|c|..] == rest;
    assert Starts(c + rest, |c|);
    NoNulCharacter(c);
  }

  lemma NoNulCharacter(c: seq<Byte>)
    requires Utf8Char(c) && c[0] != 0
    ensures NoNul(c)
  {
  }

  lemma {:induction false} EncodingsAreWellFormed(vs: seq<int>)
    requires AllAllowed(vs)
    ensures WellFormed(EncodeAll(vs)) && NoNul(EncodeAll(vs))
  {
    if vs == [] {
    } else {
      EncodingsAreWellFormed(vs[1..]);
      ValueOfEncode(vs[0]);
      OneMore(Encode(vs[0]), EncodeAll(vs[1..]));
    }
  }

  lemma NoNulParts(t: seq<Byte>, n: nat)
    requires NoNul(t) && 0 < n <= |t|
    ensures NoNul(t[n..]) && t[..n][0] != 0 && t == t[..n] + t[n..]
  {
  }

  lemma FirstValue(c: seq<Byte>)
    requires Utf8Char(c) && !Noncharacter(c) && c[0] != 0
    ensures Allowed(Value(c)) && Encode(Value(c)) == c
  {
    EncodeOfValue(c);
    IsScalar(c);
  }

  lemma EncodeCons(v: int, vs: seq<int>)
    requires Allowed(v) && AllAllowed(vs)
    ensures AllAllowed([v] + vs) && EncodeAll([v] + vs) == Encode(v) + EncodeAll(vs)
  {
    assert ([v] + vs)[1..] == vs;
  }

  lemma {:induction false} WellFormedIsEncoding(t: seq<Byte>) returns (vs: seq<int>)
    requires WellFormed(t) && NoNul(t)
    ensures AllAllowed(vs) && EncodeAll(vs) == t
  {
    if t == [] {
      vs := [];
    } else {
      var n :| 0 < n <= |t| && Starts(t, n) && WellFormed(t[n..]);
      NoNulParts(t, n);
      var rest := WellFormedIsEncoding(t[n..]);
      FirstValue(t[..n]);
      EncodeCons(Value(t[..n]), rest);
      vs := [Value(t[..n])] + rest;
    }
  }

  /** The grammar, less the two noncharacters, describes exactly the encodings of the allowed values. */
  lemma TextsAreEncodings(t: seq<Byte>)
    ensures WellFormed(t) && NoNul(t) <==> exists vs :: AllAllowed(vs) && EncodeAll(vs) == t
  {
    if WellFormed(t) && NoNul(t) { var vs := WellFormedIsEncoding(t); }
    forall vs | AllAllowed(vs) && EncodeAll(vs) == t ensures WellFormed(t) && NoNul(t) { EncodingsAreWellFormed(vs); }
  }

  // ----- the first byte fixes the length -----

  function LengthOf(b: Byte): nat { if b < 0x80 then 1 else if b < 0xE0 then 2 else if b < 0xF0 then 3 else 4 }

  lemma OneLength(t: seq<Byte>, n: nat)
    requires Starts(t, n)
    ensures n == LengthOf(t[0])
  {
  }

  lemma FirstCharacter(t: seq<Byte>)
    requires t != []
    ensures var n := LengthOf(t[0]);
      WellFormed(t) <==> n <= |t| && Starts(t, n) && WellFormed(t[n..])
  {
    var n := LengthOf(t[0]);
    if WellFormed(t) {
      var m :| 0 < m <= |t| && Starts(t, m) && WellFormed(t[m..]);
      OneLength(t, m);
    }
  }

  /** The same inside a longer string. */
  lemma FirstCharacterAt(str: seq<Byte>, s: nat, end: nat)
    requires s < end <= |str|
    ensures var n := LengthOf(str[s]);
      WellFormed(str[s..end]) <==>
      s + n <= end && Utf8Char(str[s..s + n]) && !Noncharacter(str[s..s + n]) && WellFormed(str[s + n..end])
  {
    var t, n := str[s..end], LengthOf(str[s]);
    FirstCharacter(t);
    if s + n <= end {
      assert t[..n] == str[s..s + n] && t[n..] == str[s + n..end];
    }
  }

  // ----- the validator -----

  /** A C string: the only NUL is the last byte. */
  predicate CString(str: seq<Byte>) { |str| > 0 && str[|str| - 1] == 0 && NoNul(str[..|str| - 1]) }

  /** A character of n bytes starts at s and ends before the NUL. */
  predicate CharacterAt(str: seq<Byte>, s: nat, n: nat) {
    s + n < |str| && Utf8Char(str[s..s + n]) && !Noncharacter(str[s..s + n])
  }

  // The checks of the validator's branches. A mask with the upper bits of a byte is written as a
  // quotient. No byte after the NUL is read.

  method CheckTwo(str: seq<Byte>, s: nat) returns (ok: bool)
    requires CString(str) && s < |str| - 1 && str[s] / 32 == 6
    ensures ok <==> CharacterAt(str, s, 2)
  {
    ok := !(str[s + 1] / 64 != 2
            || str[s] / 2 == 0x60);
  }

  method CheckThree(str: seq<Byte>, s: nat) returns (ok: bool)
    requires CString(str) && s < |str| - 1 && str[s] / 16 == 14
    ensures ok <==> CharacterAt(str, s, 3)
  {
    ok := !(str[s + 1] / 64 != 2
            || str[s + 2] / 64 != 2
            || (str[s] == 0xE0 && str[s + 1] / 32 == 4)
            || (str[s] == 0xED && str[s + 1] / 32 == 5)
            || (str[s] == 0xEF && str[s + 1] == 0xBF && str[s + 2] / 2 == 0x5F));
  }

  method CheckFour(str: seq<Byte>, s: nat) returns (ok: bool)
    requires CString(str) && s < |str| - 1 && str[s] / 8 == 30
    ensures ok <==> CharacterAt(str, s, 4)
  {
    ok := !(str[s + 1] / 64 != 2
            || str[s + 2] / 64 != 2
            || str[s + 3] / 64 != 2
            || (str[s] == 0xF0 && str[s + 1] / 16 == 8)
            || (str[s] == 0xF4 && str[s + 1] > 0x8F) || str[s] > 0xF4);
  }

  /** `pb_validate_utf8` */
  method ValidateUtf8(str: seq<Byte>) returns (ok: bool)
    requires CString(str)
    ensures ok <==> WellFormed(str[..|str| - 1])
  {
    ghost var end := |str| - 1;
    var s := 0;
    assert str[..end] == str[s..end];
    while str[s] != 0
      invariant s <= end
      invariant WellFormed(str[..end]) <==> WellFormed(str[s..end])
      decreases end - s
    {
      FirstCharacterAt(str, s, end);
      if str[s] < 0x80 {
        s := s + 1;
      } else if str[s] / 32 == 6 {
        ok := CheckTwo(str, s);
        if !ok { return; }
        s := s + 2;
      } else if str[s] / 16 == 14 {
        ok := CheckThree(str, s);
        if !ok { return; }
        s := s + 3;
      } else if str[s] / 8 == 30 {
        ok := CheckFour(str, s);
        if !ok { return; }
        s := s + 4;
      } else {
        return false;
      }
    }
    ok := true;
  }
}
