/** Base-128 varints and zigzag numbers as functions on byte strings.

    `Varint` is the shortest form (Protocol Buffers Encoding, "Base 128 Varints").
    `Read64` and `Read32` are what the two readers of pb_decode.c accept; each answers with
    the number read and the count of bytes taken, or `None` for an error. */
module Base128 {
  import opened Basics

  /** The shortest base-128 form, least significant group first. */
  function Varint(v: nat): (e: seq<Byte>)
    ensures |e| >= 1
  {
    if v < 128 then [v] else [128 + v % 128] + Varint(v / 128)
  }

  /** The 64-bit reader after `k` bytes: the value of the groups still to come. */
  function Read64(bs: seq<Byte>, k: nat): (r: Option<(nat, nat)>)
    ensures r.Some? ==> 1 <= r.value.1 <= |bs|
  {
    if bs == [] || (k >= 9 && bs[0] >= 2) then None
    else if bs[0] < 128 then Some((bs[0], 1))
    else
      match Read64(bs[1..], k + 1)
      case None => None
      case Some((v, n)) => Some((bs[0] - 128 + 128 * v, n + 1))
  }

  function Pow128(k: nat): (p: nat)
    ensures p >= 1
  {
    if k == 0 then 1 else 128 * Pow128(k - 1)
  }

  /** The 32-bit reader's test of byte number `k`, given what it has read so far. */
  predicate Accepts32(b: Byte, k: nat, result: nat)
    requires k >= 1
  {
    if k >= 5 then
      k < 10 && (b % 128 == 0 || (result >= TWO_TO_THE_31 && b == (if k < 9 then 0xFF else 0x01)))
    else
      k == 4 ==> b / 16 % 8 == 0 || b / 8 % 16 == 15
  }

  /** What the 32-bit reader keeps of byte number `k`: only four bits of the fifth, none after it. */
  function Keep32(b: Byte, k: nat, result: nat): nat
    requires k >= 1
  {
    if k >= 5 then result
    else if k == 4 then result + (b % 16) * Pow128(4)
    else result + (b % 128) * Pow128(k)
  }

  /** The multi-byte loop of the 32-bit reader from byte number `k` on. */
  function Read32From(bs: seq<Byte>, k: nat, result: nat): (r: Option<(nat, nat)>)
    requires k >= 1
    ensures r.Some? ==> 1 <= r.value.1 <= |bs|
  {
    if bs == [] || !Accepts32(bs[0], k, result) then None
    else if bs[0] < 128 then Some((Keep32(bs[0], k, result), 1))
    else
      match Read32From(bs[1..], k + 1, Keep32(bs[0], k, result))
      case None => None
      case Some((v, n)) => Some((v, n + 1))
  }

  function Read32(bs: seq<Byte>): (r: Option<(nat, nat)>)
    ensures r.Some? ==> 1 <= r.value.1 <= |bs|
  {
    if bs == [] then None
    else if bs[0] < 128 then Some((bs[0], 1))
    else
      match Read32From(bs[1..], 1, bs[0] - 128)
      case None => None
      case Some((v, n)) => Some((v, n + 1))
  }

  // ----- the 64-bit reader undoes the writer -----

  /** 2^64 >> 7k: what may still be to come after `k` bytes. */
  function Room64(k: nat): (p: nat)
    requires k <= 9
    decreases 9 - k
  {
    if k == 9 then 2 else 128 * Room64(k + 1)
  }

  lemma Room64AtStart()
    ensures Room64(0) == TWO_TO_THE_64
  {
    assert Room64(5) == 128 * 128 * 128 * 128 * 2;
    assert Room64(0) == 128 * 128 * 128 * 128 * 128 * Room64(5);
  }

  lemma {:induction false} Read64AfterWrite(v: nat, rest: seq<Byte>, k: nat)
    requires k <= 9 && v < Room64(k)
    ensures Read64(Varint(v) + rest, k) == Some((v, |Varint(v)|))
    ensures |Varint(v)| <= 10 - k
    decreases 9 - k
  {
    if v < 128 {
    } else {
      Read64AfterWrite(v / 128, rest, k + 1);
      assert (Varint(v) + rest)[1..] == Varint(v / 128) + rest;
    }
  }

  /** Every 64-bit value is read back from its varint, whatever follows it, and takes at most 10 bytes. */
  lemma VarintRoundTrip(v: nat, rest: seq<Byte>)
    requires v < TWO_TO_THE_64
    ensures Read64(Varint(v) + rest, 0) == Some((v, |Varint(v)|))
    ensures 1 <= |Varint(v)| <= 10
  {
    Room64AtStart();
    Read64AfterWrite(v, rest, 0);
  }

  /** No accepted byte string for a value is shorter than its varint, and only the varint is as short. */
  lemma {:induction false} VarintIsShortest(bs: seq<Byte>, k: nat)
    requires Read64(bs, k).Some?
    ensures var (v, n) := Read64(bs, k).value;
            |Varint(v)| <= n && (|Varint(v)| == n ==> bs[..n] == Varint(v))
  {
    if bs[0] < 128 {
    } else {
      var (v, n) := Read64(bs[1..], k + 1).value;
      VarintIsShortest(bs[1..], k + 1);
      assert bs[..n + 1] == [bs[0]] + bs[1..][..n];
      if v > 0 {
        assert (bs[0] - 128 + 128 * v) / 128 == v;
      }
    }
  }

  /** The reader never takes more than ten bytes, nor produces more than 64 bits. */
  lemma {:induction false} Read64Fits(bs: seq<Byte>, k: nat)
    requires k <= 9 && Read64(bs, k).Some?
    ensures Read64(bs, k).value.0 < Room64(k) && Read64(bs, k).value.1 <= 10 - k
    ensures k == 0 ==> Read64(bs, k).value.0 < TWO_TO_THE_64
    decreases 9 - k
  {
    Room64AtStart();
    if bs[0] >= 128 {
      Read64Fits(bs[1..], k + 1);
    } else if k < 9 {
      Room64AtLeast(k);
    }
  }

  lemma {:induction false} Room64AtLeast(k: nat)
    requires k < 9
    ensures Room64(k) >= 256
    decreases 9 - k
  {
    if k >= 8 {
    } else {
      Room64AtLeast(k + 1);
    }
  }

  // ----- the 32-bit reader -----

  lemma {:induction false} Pow128From5(k: nat)
    requires k >= 5
    ensures Pow128(k) % TWO_TO_THE_32 == 0
  {
    if k == 5 {
      assert Pow128(3) == 128 * 128 * 128;
      assert Pow128(5) == 128 * 128 * Pow128(3);
    } else {
      Pow128From5(k - 1);
      var c := Pow128(k - 1) / TWO_TO_THE_32;
      assert Pow128(k) == TWO_TO_THE_32 * (128 * c);
    }
  }

  lemma ModDrop(a: int, c: int, v: int)
    ensures (a + TWO_TO_THE_32 * c * v) % TWO_TO_THE_32 == a % TWO_TO_THE_32
  {
    var t := c * v;
    assert TWO_TO_THE_32 * c * v == TWO_TO_THE_32 * t;
  }

  lemma Distribute(x: int, v: int, p: int)
    ensures (x + 128 * v) * p == x * p + v * (128 * p)
  {
  }

  /** One byte of the 32-bit reader agrees, modulo 2^32, with the same byte of the 64-bit one. */
  lemma Keep32Step(b: Byte, k: nat, result: nat, v: nat)
    requires 1 <= k
    ensures (Keep32(b, k, result) + v * Pow128(k + 1)) % TWO_TO_THE_32
         == (result + (b % 128 + 128 * v) * Pow128(k)) % TWO_TO_THE_32
  {
    Distribute(b % 128, v, Pow128(k));
    if k >= 5 {
      Keep32StepLate(b % 128 + 128 * v, k, result);
      Keep32StepLate(v, k + 1, result);
    } else if k == 4 {
      Keep32StepFifth(b, result + v * Pow128(5));
    }
  }

  lemma Keep32StepLate(v: nat, k: nat, result: nat)
    requires k >= 5
    ensures (result + v * Pow128(k)) % TWO_TO_THE_32 == result % TWO_TO_THE_32
  {
    Pow128From5(k);
    var c := Pow128(k) / TWO_TO_THE_32;
    ModDrop(result, c, v);
    assert v * (TWO_TO_THE_32 * c) == TWO_TO_THE_32 * c * v;
  }

  lemma Keep32StepFifth(b: Byte, a: nat)
    ensures (a + (b % 16) * Pow128(4)) % TWO_TO_THE_32 == (a + (b % 128) * Pow128(4)) % TWO_TO_THE_32
  {
    Pow128Of4();
    var q := b % 128 / 16;
    assert b % 128 == b % 16 + 16 * q;
    ModDrop(a + (b % 16) * 0x1000_0000, q, 1);
  }

  lemma {:induction false} Read32FromImpliesRead64(bs: seq<Byte>, k: nat, result: nat)
    requires 1 <= k && Read32From(bs, k, result).Some?
    ensures Read64(bs, k).Some?
    ensures Read64(bs, k).value.1 == Read32From(bs, k, result).value.1
    ensures Read32From(bs, k, result).value.0 % TWO_TO_THE_32
         == (result + Read64(bs, k).value.0 * Pow128(k)) % TWO_TO_THE_32
  {
    var b := bs[0];
    if b < 128 {
      Keep32Step(b, k, result, 0);
    } else {
      assert k < 9;
      Read32FromImpliesRead64(bs[1..], k + 1, Keep32(b, k, result));
      Keep32Step(b, k, result, Read64(bs[1..], k + 1).value.0);
    }
  }

  /** Whatever the 32-bit reader accepts the 64-bit reader accepts too: same bytes, same number modulo 2^32. */
  lemma Read32ImpliesRead64(bs: seq<Byte>)
    requires Read32(bs).Some?
    ensures Read64(bs, 0).Some?
    ensures Read64(bs, 0).value.1 == Read32(bs).value.1
    ensures Read32(bs).value.0 % TWO_TO_THE_32 == Read64(bs, 0).value.0 % TWO_TO_THE_32
  {
    if bs[0] >= 128 {
      Read32FromImpliesRead64(bs[1..], 1, bs[0] - 128);
      assert Pow128(1) == 128 * Pow128(0);
    }
  }

  lemma {:induction false} Read32FromFits(bs: seq<Byte>, k: nat, result: nat)
    requires 1 <= k && Read32From(bs, k, result).Some?
    requires result < TWO_TO_THE_32 && (k < 5 ==> result < Pow128(k))
    ensures Read32From(bs, k, result).value.0 < TWO_TO_THE_32
  {
    var b := bs[0];
    Pow128Of4();
    assert Pow128(2) == 128 * 128 && Pow128(3) == 128 * Pow128(2);
    if k < 4 { KeepSmall(b, k, result); }
    assert Keep32(b, k, result) < TWO_TO_THE_32;
    if b < 128 {
    } else {
      Read32FromFits(bs[1..], k + 1, Keep32(b, k, result));
    }
  }

  lemma Read32Fits(bs: seq<Byte>)
    requires Read32(bs).Some?
    ensures Read32(bs).value.0 < TWO_TO_THE_32
  {
    if bs[0] >= 128 {
      assert Pow128(1) == 128 * Pow128(0);
      Read32FromFits(bs[1..], 1, bs[0] - 128);
    }
  }

  /** 2^32 >> 7k. */
  function Room32(k: nat): nat
    requires k <= 4
  {
    if k == 4 then 16 else if k == 3 then 2048 else if k == 2 then 0x4_0000 else if k == 1 then 0x200_0000
    else TWO_TO_THE_32
  }

  lemma {:induction false} Read32FromAfterWrite(v: nat, rest: seq<Byte>, k: nat, result: nat)
    requires 1 <= k <= 4 && v < Room32(k)
    ensures Read32From(Varint(v) + rest, k, result) == Some((result + v * Pow128(k), |Varint(v)|))
    decreases 4 - k
  {
    if v < 128 {
      LastGroup32(v, rest, k, result);
    } else {
      var b := 128 + v % 128;
      GroupsAddUp(v, k, result);
      Read32FromAfterWrite(v / 128, rest, k + 1, Keep32(b, k, result));
      VarintTail(v, rest);
      ReadsOn(b, Varint(v / 128) + rest, k, result);
    }
  }

  lemma LastGroup32(v: nat, rest: seq<Byte>, k: nat, result: nat)
    requires 1 <= k <= 4 && v < Room32(k) && v < 128
    ensures Read32From(Varint(v) + rest, k, result) == Some((result + v * Pow128(k), |Varint(v)|))
  {
  }

  lemma GroupsAddUp(v: nat, k: nat, result: nat)
    requires 1 <= k <= 4 && 128 <= v < Room32(k)
    ensures k <= 3 && v / 128 < Room32(k + 1)
    ensures Keep32(128 + v % 128, k, result) + v / 128 * Pow128(k + 1) == result + v * Pow128(k)
  {
    Distribute(v % 128, v / 128, Pow128(k));
  }

  lemma ReadsOn(b: Byte, tail: seq<Byte>, k: nat, result: nat)
    requires 1 <= k <= 3 && b >= 128
    ensures Read32From([b] + tail, k, result) ==
            match Read32From(tail, k + 1, Keep32(b, k, result))
            case None => None
            case Some((v, n)) => Some((v, n + 1))
  {
    assert ([b] + tail)[1..] == tail;
  }

  /** The 32-bit reader accepts the varint of every unsigned 32-bit value. */
  lemma Read32OfUint32(v: nat, rest: seq<Byte>)
    requires v < TWO_TO_THE_32
    ensures Read32(Varint(v) + rest) == Some((v, |Varint(v)|))
  {
    if v >= 128 {
      var q, r := v / 128, v % 128;
      VarintTail(v, rest);
      Read32FromAfterWrite(q, rest, 1, r);
      Read32Head(128 + r, Varint(q) + rest);
      SmallPowers();
    }
  }

  lemma SmallPowers()
    ensures Pow128(0) == 1 && Pow128(1) == 128
  {
  }

  lemma VarintTail(v: nat, rest: seq<Byte>)
    requires v >= 128
    ensures Varint(v) + rest == [128 + v % 128] + (Varint(v / 128) + rest) && |Varint(v)| == |Varint(v / 128)| + 1
  {
  }

  lemma Read32Head(b: Byte, tail: seq<Byte>)
    requires b >= 128
    ensures Read32([b] + tail) ==
      match Read32From(tail, 1, b - 128) case None => None case Some((v, n)) => Some((v, n + 1))
  {
    assert ([b] + tail)[1..] == tail;
  }

  /** From the sixth byte on, a sign extension is all ones. */
  lemma {:induction false} Read32FromOnes(v: nat, rest: seq<Byte>, k: nat, result: nat)
    requires 5 <= k <= 9 && v == Room64(k) - 1 && result >= TWO_TO_THE_31
    ensures Read32From(Varint(v) + rest, k, result) == Some((result, |Varint(v)|))
    decreases 9 - k
  {
    if k >= 9 {
    } else {
      Room64AtLeast(k);
      assert v / 128 == Room64(k + 1) - 1;
      Read32FromOnes(v / 128, rest, k + 1, result);
      VarintTail(v, rest);
      Read32FromHead(0xFF, Varint(v / 128) + rest, k, result);
    }
  }

  lemma {:induction false} Read32FromNegative(v: nat, rest: seq<Byte>, k: nat, result: nat)
    requires 1 <= k <= 4 && v < Room64(k) && Room64(k) - v <= Room32(k) / 2
    requires result < Pow128(k)
    ensures Read32From(Varint(v) + rest, k, result).Some?
    ensures Read32From(Varint(v) + rest, k, result).value.1 == |Varint(v)|
    decreases 4 - k
  {
    var q, b: Byte := v / 128, 128 + v % 128;
    if k == 4 {
      Read32FromFifth(v, rest, result);
    } else {
      Room64OfNegative(v, k);
      VarintTail(v, rest);
      KeepSmall(b, k, result);
      Read32FromNegative(q, rest, k + 1, Keep32(b, k, result));
      Read32FromHead(b, Varint(q) + rest, k, result);
    }
  }

  lemma Read32FromFifth(v: nat, rest: seq<Byte>, result: nat)
    requires v < Room64(4) && Room64(4) - v <= Room32(4) / 2 && result < Pow128(4)
    ensures Read32From(Varint(v) + rest, 4, result).Some?
    ensures Read32From(Varint(v) + rest, 4, result).value.1 == |Varint(v)|
  {
    var q, b: Byte := v / 128, 128 + v % 128;
    Room64OfNegative(v, 4);
    VarintTail(v, rest);
    KeepNegative(b, result);
    Read32FromOnes(q, rest, 5, Keep32(b, 4, result));
    Read32FromHead(b, Varint(q) + rest, 4, result);
  }

  lemma Read32FromHead(b: Byte, tail: seq<Byte>, k: nat, result: nat)
    requires k >= 1 && b >= 128 && Accepts32(b, k, result)
    requires Read32From(tail, k + 1, Keep32(b, k, result)).Some?
    ensures Read32From([b] + tail, k, result).Some?
    ensures Read32From([b] + tail, k, result).value.1 == Read32From(tail, k + 1, Keep32(b, k, result)).value.1 + 1
  {
    assert ([b] + tail)[1..] == tail;
  }

  lemma KeepNegative(b: Byte, result: nat)
    requires b % 128 >= 120
    ensures Accepts32(b, 4, result) && Keep32(b, 4, result) >= TWO_TO_THE_31
  {
    Pow128Of4();
  }

  lemma Room64OfNegative(v: nat, k: nat)
    requires 1 <= k <= 4 && v < Room64(k) && Room64(k) - v <= Room32(k) / 2
    ensures v >= 128
    ensures k < 4 ==> v / 128 < Room64(k + 1) && Room64(k + 1) - v / 128 <= Room32(k + 1) / 2
    ensures k == 4 ==> v % 128 >= 120 && v / 128 == Room64(5) - 1
  {
    assert Room64(8) == 256 && Room64(7) == 128 * 256 && Room64(6) == 128 * Room64(7) && Room64(5) == 128 * Room64(6);
    assert Room64(4) == 128 * Room64(5) && Room64(3) == 128 * Room64(4) && Room64(2) == 128 * Room64(3);
  }

  lemma ScaledBound(x: nat, r: nat, p: nat)
    requires x <= 127 && r < p
    ensures r + x * p < 128 * p
  {
    assert (127 - x) * p >= 0;
  }

  lemma KeepSmall(b: Byte, k: nat, result: nat)
    requires 1 <= k < 4 && result < Pow128(k)
    ensures Keep32(b, k, result) < Pow128(k + 1)
  {
    ScaledBound(b % 128, result, Pow128(k));
  }

  lemma Pow128Of4()
    ensures Pow128(4) == 0x1000_0000
  {
    assert Pow128(2) == 128 * 128;
    assert Pow128(4) == 128 * 128 * Pow128(2);
  }

  /** The 32-bit reader accepts the ten-byte form of every negative 32-bit value, and reads its two's complement. */
  lemma Read32OfNegative(x: int, rest: seq<Byte>)
    requires -TWO_TO_THE_31 <= x < 0
    ensures Read32(Varint(x + TWO_TO_THE_64) + rest) == Some((x + TWO_TO_THE_32, 10))
  {
    var v := x + TWO_TO_THE_64;
    var q, r := v / 128, v % 128;
    Room64AtStart();
    SmallPowers();
    VarintTail(v, rest);
    Read32FromNegative(q, rest, 1, r);
    Read32Head(128 + r, Varint(q) + rest);
    SameNegative(x, v, rest);
  }

  /** What is accepted is right, since the 64-bit reader agrees. */
  lemma SameNegative(x: int, v: nat, rest: seq<Byte>)
    requires -TWO_TO_THE_31 <= x < 0 && v == x + TWO_TO_THE_64 && Read32(Varint(v) + rest).Some?
    ensures Read32(Varint(v) + rest) == Some((x + TWO_TO_THE_32, 10))
  {
    var bs, k := Varint(v) + rest, |Varint(v)|;
    LongVarint(v);
    VarintRoundTrip(v, rest);
    SameWord(bs, v, k);
    assert v % TWO_TO_THE_32 == x + TWO_TO_THE_32;
  }

  lemma SameWord(bs: seq<Byte>, v: nat, k: nat)
    requires Read32(bs).Some? && Read64(bs, 0) == Some((v, k))
    ensures Read32(bs) == Some((v % TWO_TO_THE_32, k))
  {
    Read32ImpliesRead64(bs);
    Read32Fits(bs);
  }

  lemma LongVarint(v: nat)
    requires TWO_TO_THE_63 <= v < TWO_TO_THE_64
    ensures |Varint(v)| == 10
  {
    Room64AtStart();
    LongVarintFrom(v, 0);
  }

  lemma {:induction false} LongVarintFrom(v: nat, k: nat)
    requires k <= 9 && Room64(k) / 2 <= v < Room64(k)
    ensures |Varint(v)| == 10 - k
    decreases 9 - k
  {
    if k >= 9 {
    } else {
      Room64AtLeast(k);
      LongVarintFrom(v / 128, k + 1);
    }
  }

  // ----- reading is local: bytes after the number do not matter -----

  /** An answer that needs only the first `k` bytes. */
  predicate Within(r: Option<(nat, nat)>, k: nat) { r.Some? && r.value.1 <= k }

  lemma {:induction false} Read64Local(bs: seq<Byte>, rest: seq<Byte>, k: nat)
    requires Read64(bs, k).Some? || Within(Read64(bs + rest, k), |bs|)
    ensures Read64(bs + rest, k) == Read64(bs, k)
  {
    assert bs != [];
    if bs[0] < 128 {
    } else {
      assert (bs + rest)[1..] == bs[1..] + rest;
      Read64Local(bs[1..], rest, k + 1);
    }
  }

  lemma {:induction false} Read32FromLocal(bs: seq<Byte>, rest: seq<Byte>, k: nat, result: nat)
    requires k >= 1
    requires Read32From(bs, k, result).Some? || Within(Read32From(bs + rest, k, result), |bs|)
    ensures Read32From(bs + rest, k, result) == Read32From(bs, k, result)
  {
    assert bs != [];
    if bs[0] < 128 {
    } else {
      assert (bs + rest)[1..] == bs[1..] + rest;
      Read32FromLocal(bs[1..], rest, k + 1, Keep32(bs[0], k, result));
    }
  }

  lemma Read32Local(bs: seq<Byte>, rest: seq<Byte>)
    requires Read32(bs).Some? || Within(Read32(bs + rest), |bs|)
    ensures Read32(bs + rest) == Read32(bs)
  {
    assert bs != [];
    if bs[0] >= 128 {
      assert (bs + rest)[1..] == bs[1..] + rest;
      Read32FromLocal(bs[1..], rest, 1, bs[0] - 128);
    }
  }

  // ----- what the readers accept, the shortest form or not -----

  /** Seven bits a byte, the lowest first. */
  function Groups(bs: seq<Byte>): nat { if bs == [] then 0 else bs[0] % 128 + 128 * Groups(bs[1..]) }

  /** One number in n bytes: all but the last have their top bit set, and a tenth holds one bit. */
  predicate IsForm(bs: seq<Byte>, k: nat, n: nat) {
    && 1 <= n <= |bs| && k + n <= 10 && (k + n == 10 ==> bs[n - 1] < 2)
    && bs[n - 1] < 128 && forall i :: 0 <= i < n - 1 ==> bs[i] >= 128
  }

  lemma {:induction false} Read64IsForm(bs: seq<Byte>, k: nat)
    requires k <= 9 && Read64(bs, k).Some?
    ensures IsForm(bs, k, Read64(bs, k).value.1)
    decreases 9 - k
  {
    if bs[0] < 128 {
    } else {
      Read64IsForm(bs[1..], k + 1);
    }
  }

  lemma {:induction false} FormIsRead64(bs: seq<Byte>, k: nat, n: nat)
    requires IsForm(bs, k, n)
    ensures Read64(bs, k) == Some((Groups(bs[..n]), n))
    decreases n
  {
    assert bs[..n][1..] == bs[1..][..n - 1];
    if n == 1 {
    } else {
      FormIsRead64(bs[1..], k + 1, n - 1);
    }
  }

  /** The 64-bit reader takes exactly these forms, overlong ones included, and nothing else. */
  lemma Read64Exactly(bs: seq<Byte>, v: nat, n: nat)
    ensures Read64(bs, 0) == Some((v, n)) <==> IsForm(bs, 0, n) && v == Groups(bs[..n])
  {
    if Read64(bs, 0).Some? { Read64IsForm(bs, 0); FormIsRead64(bs, 0, Read64(bs, 0).value.1); }
    if IsForm(bs, 0, n) { FormIsRead64(bs, 0, n); }
  }

  lemma {:induction false} Read32FromSmall(bs: seq<Byte>, k: nat, result: nat)
    requires 1 <= k <= 9 && Read64(bs, k).Some? && result + Read64(bs, k).value.0 * Pow128(k) < TWO_TO_THE_32
    ensures Read32From(bs, k, result) == Some((result + Read64(bs, k).value.0 * Pow128(k), Read64(bs, k).value.1))
    decreases 9 - k
  {
    if bs[0] < 128 {
      SmallGroup(bs[0], bs[0], k, result);
    } else {
      var v := Read64(bs[1..], k + 1).value.0;
      SmallGroup(bs[0], bs[0] - 128 + 128 * v, k, result);
      Distribute(bs[0] % 128, v, Pow128(k));
      Read32FromSmall(bs[1..], k + 1, Keep32(bs[0], k, result));
    }
  }

  /** A byte of a number below 2^32 is accepted and kept. */
  lemma SmallGroup(b: Byte, v: nat, k: nat, result: nat)
    requires 1 <= k <= 9 && v >= b % 128 && result + v * Pow128(k) < TWO_TO_THE_32
    ensures Accepts32(b, k, result) && Keep32(b, k, result) == result + (b % 128) * Pow128(k)
  {
    if k >= 5 {
      LateGroup(v, k, result);
    } else if k == 4 {
      FifthGroup(b, v, result);
    }
  }

  lemma LateGroup(v: nat, k: nat, result: nat)
    requires 5 <= k && result + v * Pow128(k) < TWO_TO_THE_32
    ensures v == 0
  {
    Pow128From5(k);
    MustBeZero(v, Pow128(k), result);
  }

  lemma FifthGroup(b: Byte, v: nat, result: nat)
    requires v >= b % 128 && result + v * Pow128(4) < TWO_TO_THE_32
    ensures b % 128 < 16 && b / 16 % 8 == 0 && b % 16 == b % 128
  {
    Pow128Of4();
    assert v < 16;
    LowBits(b);
  }

  lemma LowBits(b: Byte)
    requires b % 128 < 16
    ensures b / 16 % 8 == 0 && b % 16 == b % 128
  {
  }

  lemma MustBeZero(v: nat, p: nat, result: nat)
    requires p > 0 && p % TWO_TO_THE_32 == 0 && result + v * p < TWO_TO_THE_32
    ensures v == 0
  {
    AtLeastOnce(v, p);
  }

  lemma AtLeastOnce(v: nat, p: nat)
    ensures v > 0 ==> v * p >= p
  {
  }

  /** The 32-bit reader accepts every form of a number below 2^32 that the 64-bit reader accepts. */
  lemma Read32OfSmall(bs: seq<Byte>)
    requires Read64(bs, 0).Some? && Read64(bs, 0).value.0 < TWO_TO_THE_32
    ensures Read32(bs) == Read64(bs, 0)
  {
    if bs[0] >= 128 {
      SmallPowers();
      Read32FromSmall(bs[1..], 1, bs[0] - 128);
    }
  }

  // ----- zigzag -----

  /** The unsigned 64-bit word that holds a signed value in two's complement. */
  function ToUnsigned64(x: int): int { if x < 0 then x + TWO_TO_THE_64 else x }

  /** The signed value of a 64-bit word. */
  function ToSigned64(u: int): int { if u >= TWO_TO_THE_63 then u - TWO_TO_THE_64 else u }

  /** `pb_encode_svarint`: the low 63 bits shifted left, all bits flipped when negative. */
  function ZigZag(x: int): int {
    if x < 0 then TWO_TO_THE_64 - 1 - 2 * (ToUnsigned64(x) % TWO_TO_THE_63)
    else 2 * x
  }

  /** `pb_decode_svarint`: the word shifted right, all bits flipped when it was odd. */
  function UnZigZag(u: int): int {
    if u % 2 == 1 then ToSigned64(TWO_TO_THE_64 - 1 - u / 2) else u / 2
  }

  /** The pair is a bijection between the signed and the unsigned 64-bit values, and small magnitudes stay small. */
  lemma ZigZagInverse(x: int)
    requires -TWO_TO_THE_63 <= x < TWO_TO_THE_63
    ensures 0 <= ZigZag(x) < TWO_TO_THE_64
    ensures UnZigZag(ZigZag(x)) == x
    ensures ZigZag(x) == if x < 0 then -2 * x - 1 else 2 * x
  {
    if x < 0 {
      assert ToUnsigned64(x) % TWO_TO_THE_63 == x + TWO_TO_THE_63;
    }
  }

  lemma UnZigZagInverse(u: int)
    requires 0 <= u < TWO_TO_THE_64
    ensures -TWO_TO_THE_63 <= UnZigZag(u) < TWO_TO_THE_63
    ensures ZigZag(UnZigZag(u)) == u
  {
    ZigZagInverse(if u % 2 == 1 then -(u / 2) - 1 else u / 2);
  }
}
