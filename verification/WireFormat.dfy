/** The wire format in numbers (Protocol Buffers Encoding): what the first byte of a record says, how
    numbers are laid out in bytes, and what is skipped. None of it leans on the names of the codec. */
module WireFormat {
  import opened Basics
  import opened Schema
  import opened Encoding
  import opened Decoding
  import opened Powers
  import V = Base128

  // ----- tags -----

  /** The tag byte of a field below 16 is eight times its number, plus the wire type: 0 for varints, 1
      for 64-bit words, 2 for everything with a length, 5 for 32-bit words. */
  lemma FirstByte(l: LType, tag: nat, v: Val)
    requires 1 <= tag <= 15 && EncBasic(l, tag, v).Some?
    ensures EncBasic(l, tag, v).value != []
    ensures l.Bool? || l.Varint? || l.UVarint? || l.SVarint? ==> EncBasic(l, tag, v).value[0] == 8 * tag
    ensures l.Fixed64? ==> EncBasic(l, tag, v).value[0] == 8 * tag + 1
    ensures l.Bytes? || l.String? || l.FixedBytes? || l.SubMessage? ==> EncBasic(l, tag, v).value[0] == 8 * tag + 2
    ensures l.Fixed32? ==> EncBasic(l, tag, v).value[0] == 8 * tag + 5
  {
  }

  /** A packed array is a record with a length. */
  lemma PackedFirstByte(l: LType, tag: nat, max: nat, vs: seq<Val>)
    requires 1 <= tag <= 15 && l.Packable() && vs != [] && EncArray(l, tag, max, vs).Some?
    ensures EncArray(l, tag, max, vs).value != [] && EncArray(l, tag, max, vs).value[0] == 8 * tag + 2
  {
  }

  /** From 16 on the same number stands in two bytes or more. */
  lemma LongTag(l: LType, tag: nat, v: Val)
    requires 16 <= tag && EncBasic(l, tag, v).Some?
    ensures var e, wt := EncBasic(l, tag, v).value,
              if l.Fixed64? then 1 else if l.Fixed32? then 5
              else if l.Bytes? || l.String? || l.FixedBytes? || l.SubMessage? then 2 else 0;
      |e| >= 2 && e[0] == 128 + (8 * tag + wt) % 128
  {
  }

  // ----- skipping -----

  lemma SkippedVarint(bs: seq<Byte>, n: nat)
    requires n < |bs| && bs[n] < 128 && forall i :: 0 <= i < n ==> bs[i] >= 128
    ensures SkipField(0, bs) == Some(n + 1)
  {
    SkipsTo(bs, n);
  }

  lemma {:induction false} SkipsTo(bs: seq<Byte>, n: nat)
    requires n < |bs| && bs[n] < 128 && forall i :: 0 <= i < n ==> bs[i] >= 128
    ensures SkipVarint(bs) == Some(n + 1)
  {
    if n == 0 {
    } else {
      SkipsTo(bs[1..], n - 1);
    }
  }

  /** An unknown field of type 1 takes eight bytes, one of type 5 four, one of type 2 its length and the
      bytes counted, and the group types and the unused ones fail. */
  lemma Skipped(bs: seq<Byte>)
    ensures SkipField(1, bs) == if |bs| >= 8 then Some(8) else None
    ensures SkipField(5, bs) == if |bs| >= 4 then Some(4) else None
    ensures SkipField(2, bs) == match V.Read32(bs)
                                case None => None
                                case Some((size, n)) => if n + size <= |bs| then Some(n + size) else None
    ensures SkipField(3, bs).None? && SkipField(4, bs).None? && SkipField(6, bs).None? && SkipField(7, bs).None?
  {
  }

  // ----- numbers in bytes -----

  /** Byte i of a varint holds bits 7i to 7i + 6 of the number, and its top bit says whether more follow. */
  lemma {:induction false} VarintDigits(v: nat, i: nat)
    requires i < |V.Varint(v)|
    ensures V.Varint(v)[i] % 128 == v / V.Pow128(i) % 128
    ensures V.Varint(v)[i] >= 128 <==> i < |V.Varint(v)| - 1
  {
    if i == 0 {
    } else {
      VarintDigits(v / 128, i - 1);
      DivideTwice(v, 128, V.Pow128(i - 1));
    }
  }

  lemma DivideTwice(v: nat, a: nat, b: nat)
    requires a > 0 && b > 0
    ensures a * b > 0 && v / (a * b) == v / a / b
  {
    Divided(v, a, v / a, v % a);
    Divided(v / a, b, v / a / b, v / a % b);
    QuotientOfQuotient(v, a, b, v / a, v % a, v / a / b, v / a % b);
  }

  lemma Divided(v: nat, a: nat, q: nat, r: nat)
    requires a > 0 && q == v / a && r == v % a
    ensures v == a * q + r && r < a
  {
  }

  lemma QuotientOfQuotient(v: nat, a: nat, b: nat, q: nat, r: nat, x: nat, y: nat)
    requires v == a * q + r && r < a && q == b * x + y && y < b
    ensures a * b > 0 && v / (a * b) == x
  {
    Regroup(a, b, x, y, r);
    Below(a, b, y, r);
    QuotientIs(v, a * b, x, a * y + r);
  }

  lemma Regroup(a: nat, b: nat, x: nat, y: nat, r: nat)
    ensures a * (b * x + y) + r == x * (a * b) + (a * y + r)
  {
    assert a * (b * x) == x * (a * b);
    assert a * (b * x + y) == a * (b * x) + a * y;
  }

  lemma Below(a: nat, b: nat, y: nat, r: nat)
    requires y < b && r < a
    ensures a * y + r < a * b
  {
    var d := b - y - 1;
    assert a * (y + 1 + d) == a * y + a + a * d;
  }

  /** Byte i of a fixed-size word holds bits 8i to 8i + 7. */
  lemma {:induction false} WordDigits(v: nat, n: nat, i: nat)
    requires i < n
    ensures LittleEndian(v, n)[i] == v / Pow256(i) % 256
  {
    if i == 0 {
    } else {
      WordDigits(v / 256, n - 1, i - 1);
      DivideTwice(v, 256, Pow256(i - 1));
    }
  }

  /** What stands in the varint of a number: the number itself, a negative one plus 2^64, and with
      zigzag twice the number or, for a negative one, one less than twice its size. */
  lemma NumberPayload(n: int, size: nat)
    requires ValidSize(size)
    ensures InUnsigned(n, size) ==> Payload(UVarint(size), Num(n)) == Some(V.Varint(n))
    ensures 0 <= n && InSigned(n, size) ==> Payload(Varint(size), Num(n)) == Some(V.Varint(n))
    ensures n < 0 && InSigned(n, size) ==>
            && n + 0x1_0000_0000_0000_0000 >= 0
            && Payload(Varint(size), Num(n)) == Some(V.Varint(n + 0x1_0000_0000_0000_0000))
    ensures 0 <= n && InSigned(n, size) ==> Payload(SVarint(size), Num(n)) == Some(V.Varint(2 * n))
    ensures n < 0 && InSigned(n, size) ==> Payload(SVarint(size), Num(n)) == Some(V.Varint(2 * (0 - n) - 1))
    ensures Payload(Bool, Num(n)) == Some(if n == 0 then [0] else [1])
  {
    Powers256();
  }

  lemma Powers256()
    ensures Pow256(1) == 256 && Pow256(2) == 65536 && Pow256(4) == TWO_TO_THE_32 && Pow256(8) == TWO_TO_THE_64
  {
    assert Pow256(3) == 256 * Pow256(2);
    assert Pow256(5) == 256 * Pow256(4) && Pow256(6) == 256 * Pow256(5) && Pow256(7) == 256 * Pow256(6);
  }

  /** What an integer field makes of the word it reads: 64-bit fields take all of it, 32-bit signed ones
      the number that is congruent to it modulo 2^32, unsigned ones only what they can hold. */
  lemma NumberRead(u: nat)
    requires u < 0x1_0000_0000_0000_0000
    ensures Clamp(UVarint(8), u) == Some(Num(u))
    ensures Clamp(UVarint(4), u) == if u < 0x1_0000_0000 then Some(Num(u)) else None
    ensures Clamp(Varint(8), u) == Some(Num(if u < 0x8000_0000_0000_0000 then u else u - 0x1_0000_0000_0000_0000))
    ensures var x := if u % 0x1_0000_0000 < 0x8000_0000 then u % 0x1_0000_0000 else u % 0x1_0000_0000 - 0x1_0000_0000;
            Clamp(Varint(4), u) == Some(Num(x)) && Clamp(Varint(1), u) == if -128 <= x < 128 then Some(Num(x)) else None
    ensures Clamp(SVarint(8), u) == Some(Num(if u % 2 == 0 then u / 2 else -1 - u / 2))
  {
    Powers256();
    V.UnZigZagInverse(u);
  }

  /** Whatever is not zero is true. */
  lemma BoolRead(bs: seq<Byte>, u: nat, n: nat)
    requires V.Read32(bs) == Some((u, n))
    ensures DecScalar(Bool, 0, bs) == Some((Num(if u == 0 then 0 else 1), n))
  {
  }

  /** Short byte strings and messages have their length in one byte in front. */
  lemma ShortPayload(data: seq<Byte>)
    requires |data| < 128
    ensures Delimited(data) == [|data|] + data
  {
  }
}
