/** The bitmap of required fields that have been seen, in two 32-bit words. */
module FieldsSeen {
  import opened Schema
  import opened Decoding
  import opened Powers

  const ALL_BITS: nat := 0xFFFF_FFFF

  // ----- words as sets of bits -----

  /** The word whose bit k is set exactly when base + k is in the set, for the lowest n bits. */
  ghost function WordOf(bits: set<nat>, base: nat, n: nat): nat {
    if n == 0 then 0 else WordOf(bits, base, n - 1) + if base + n - 1 in bits then Pow2(n - 1) else 0
  }

  ghost predicate Has(bits: set<nat>, base: nat, k: nat) { base + k in bits }

  predicate Bit(word: nat, k: nat) { word / Pow2(k) % 2 == 1 }

  /** word | 1 << k */
  function SetBit(word: nat, k: nat): nat { if Bit(word, k) then word else word + Pow2(k) }

  lemma {:induction false} WordBelow(bits: set<nat>, base: nat, n: nat)
    ensures WordOf(bits, base, n) < Pow2(n)
  {
    if n == 0 {
    } else {
      WordBelow(bits, base, n - 1);
    }
  }

  lemma AddMultiple(w: nat, c: nat, p: nat)
    requires p > 0
    ensures (w + c * p) / p == w / p + c
  {
    var q, r := w / p, w % p;
    assert w == q * p + r;
    assert w + c * p == (q + c) * p + r;
    QuotientIs(w + c * p, p, q + c, r);
  }

  lemma TopBit(w: nat, k: nat, present: bool)
    requires w < Pow2(k)
    ensures Bit(w + if present then Pow2(k) else 0, k) <==> present
  {
    QuotientIs(w, Pow2(k), 0, w);
    if present { QuotientIs(w + Pow2(k), Pow2(k), 1, w); }
  }

  /** A higher bit does not change bit k. */
  lemma HigherBit(w: nat, k: nat, n: nat)
    requires k < n
    ensures Bit(w + Pow2(n), k) <==> Bit(w, k)
  {
    Pow2Add(n - k, k);
    EvenMultiple(w, Pow2(n - k - 1), Pow2(k), Pow2(n));
  }

  lemma EvenMultiple(w: nat, c: nat, p: nat, m: nat)
    requires p > 0 && m == 2 * c * p
    ensures (w + m) / p % 2 == w / p % 2
  {
    AddMultiple(w, 2 * c, p);
    EvenPart(w / p, c);
  }

  lemma {:induction false} BitOfWord(bits: set<nat>, base: nat, n: nat, k: nat)
    requires k < n
    ensures Bit(WordOf(bits, base, n), k) <==> base + k in bits
  {
    var w := WordOf(bits, base, n - 1);
    if k == n - 1 {
      WordBelow(bits, base, n - 1);
      TopBit(w, k, base + k in bits);
    } else {
      BitOfWord(bits, base, n - 1, k);
      HigherBit(w, k, n - 1);
    }
  }

  lemma EvenPart(a: nat, b: nat)
    ensures (a + 2 * b) % 2 == a % 2
  {
  }

  lemma {:induction false} WordOfMore(bits: set<nat>, base: nat, n: nat, k: nat)
    requires k < n
    ensures WordOf(bits + {base + k}, base, n) == WordOf(bits, base, n) + if base + k in bits then 0 else Pow2(k)
  {
    if k == n - 1 {
      WordOfOther(bits, base, n - 1, base + k);
    } else {
      WordOfMore(bits, base, n - 1, k);
    }
  }

  lemma {:induction false} WordOfOther(bits: set<nat>, base: nat, n: nat, x: nat)
    requires x < base || base + n <= x
    ensures WordOf(bits + {x}, base, n) == WordOf(bits, base, n)
  {
    if n == 0 {
    } else {
      WordOfOther(bits, base, n - 1, x);
    }
  }

  /** A word is the lowest r ones exactly when it holds the lowest r bits and no other. */
  lemma {:induction false} WordIsLow(bits: set<nat>, base: nat, n: nat, r: nat)
    requires r <= n
    ensures WordOf(bits, base, n) == Pow2(r) - 1 <==> forall k: nat :: k < n ==> (Has(bits, base, k) <==> k < r)
  {
    if n == 0 {
    } else if r == n {
      WordIsLow(bits, base, n - 1, n - 1);
      WordBelow(bits, base, n - 1);
      assert Has(bits, base, n - 1) <==> base + n - 1 in bits;
    } else {
      WordIsLow(bits, base, n - 1, r);
      PowRises(r, n - 1);
      assert Has(bits, base, n - 1) <==> base + n - 1 in bits;
    }
  }

  // ----- the bitmap -----

  /** Two words hold these bits. */
  ghost predicate Represents(words: seq<nat>, bits: set<nat>) {
    |words| == 2 && words[0] == WordOf(bits, 0, 32) && words[1] == WordOf(bits, 32, 32)
  }

  lemma {:induction false} NoBits(base: nat, n: nat)
    ensures WordOf({}, base, n) == 0
  {
    if n == 0 {
    } else {
      NoBits(base, n - 1);
    }
  }

  lemma NothingSeen()
    ensures Represents([0, 0], {})
  {
    NoBits(0, 32);
    NoBits(32, 32);
  }

  /** `fields_seen.bitfield[index >> 5] |= 1 << (index & 31)` */
  function MarkBit(words: seq<nat>, index: nat): seq<nat>
    requires |words| == 2 && index < MAX_REQUIRED_FIELDS
  {
    words[index / 32 := SetBit(words[index / 32], index % 32)]
  }

  lemma MarkBitAdds(words: seq<nat>, bits: set<nat>, index: nat)
    requires Represents(words, bits) && index < MAX_REQUIRED_FIELDS
    ensures Represents(MarkBit(words, index), bits + {index})
  {
    var base, k := if index < 32 then 0 else 32, index % 32;
    assert base + k == index;
    BitOfWord(bits, base, 32, k);
    WordOfMore(bits, base, 32, k);
    WordOfOther(bits, 32 - base, 32, index);
  }

  // ----- required fields and their numbers -----

  /** The numbers of the required fields that have been seen and are tracked. */
  ghost function SeenNumbers(fs: seq<Field>, seen: set<nat>): set<nat> {
    set i | i in seen && i < |fs| && Tracked(fs, i) :: RequiredIndex(fs, i)
  }

  lemma {:induction false} NumbersRise(fs: seq<Field>, i: nat, j: nat)
    requires i < j <= |fs|
    ensures RequiredIndex(fs, i) <= RequiredIndex(fs, j)
    ensures fs[i].h.Required? ==> RequiredIndex(fs, i) < RequiredIndex(fs, j)
    decreases j
  {
    if i == j - 1 {
    } else {
      NumbersRise(fs, i, j - 1);
    }
  }

  /** Every number below the count belongs to a required field. */
  lemma {:induction false} NumberOf(fs: seq<Field>, n: nat, k: nat) returns (i: nat)
    requires n <= |fs| && k < RequiredIndex(fs, n)
    ensures i < n && fs[i].h.Required? && RequiredIndex(fs, i) == k
  {
    if fs[n - 1].h.Required? && RequiredIndex(fs, n - 1) == k {
      i := n - 1;
    } else {
      i := NumberOf(fs, n - 1, k);
    }
  }

  /** How many required fields the bitmap tracks. */
  function TrackedCount(fs: seq<Field>): nat {
    var n := RequiredIndex(fs, |fs|);
    if n > MAX_REQUIRED_FIELDS then MAX_REQUIRED_FIELDS else n
  }

  lemma SeenBelow(fs: seq<Field>, seen: set<nat>)
    ensures forall k :: k in SeenNumbers(fs, seen) ==> k < TrackedCount(fs)
  {
    forall i | i in seen && i < |fs| && Tracked(fs, i) ensures RequiredIndex(fs, i) < TrackedCount(fs) {
      NumbersRise(fs, i, |fs|);
    }
  }

  /** All tracked fields have been seen exactly when all their numbers have. */
  lemma AllNumbers(fs: seq<Field>, seen: set<nat>)
    ensures AllSeen(fs, seen) <==> forall k: nat :: k < TrackedCount(fs) ==> k in SeenNumbers(fs, seen)
  {
    if AllSeen(fs, seen) {
      forall k: nat | k < TrackedCount(fs) ensures k in SeenNumbers(fs, seen) {
        var i := NumberOf(fs, |fs|, k);
        assert Tracked(fs, i);
      }
    } else {
      var i :| 0 <= i < |fs| && Tracked(fs, i) && i !in seen;
      NumbersRise(fs, i, |fs|);
      OnlyItself(fs, seen, i);
    }
  }

  lemma OnlyItself(fs: seq<Field>, seen: set<nat>, i: nat)
    requires i < |fs| && fs[i].h.Required? && i !in seen
    ensures RequiredIndex(fs, i) !in SeenNumbers(fs, seen)
  {
    forall j | j in seen && j < |fs| && Tracked(fs, j) ensures RequiredIndex(fs, j) != RequiredIndex(fs, i) {
      if j < i { NumbersRise(fs, j, i); } else { NumbersRise(fs, i, j); }
    }
  }

  lemma MarkAdds(fs: seq<Field>, i: nat, seen: set<nat>)
    requires i < |fs|
    ensures SeenNumbers(fs, Mark(fs, i, seen)) ==
            if Tracked(fs, i) then SeenNumbers(fs, seen) + {RequiredIndex(fs, i)} else SeenNumbers(fs, seen)
  {
  }

  // ----- the check at the end of a message -----

  lemma {:induction false} ShiftedOnes(r: nat, s: nat)
    ensures (Pow2(r + s) - 1) / Pow2(s) == Pow2(r) - 1
  {
    Pow2Add(r, s);
    var p := Pow2(s);
    assert Pow2(r) * p - 1 == (Pow2(r) - 1) * p + (p - 1);
    QuotientIs(Pow2(r + s) - 1, p, Pow2(r) - 1, p - 1);
  }

  lemma AllBitsIs()
    ensures Pow2(32) == ALL_BITS + 1
  {
    assert Pow2(1) == 2 && Pow2(2) == 4 && Pow2(4) == 16;
    Pow2Add(4, 4);
    Pow2Add(8, 8);
    Pow2Add(16, 16);
  }

  /** The two comparisons: whole words against all ones, and the rest against as many ones. */
  ghost predicate WordComplete(words: seq<nat>, i: nat, count: nat)
    requires |words| == 2 && i < 2
  {
    words[i] == Pow2(if count >= 32 * i + 32 then 32 else if count <= 32 * i then 0 else count - 32 * i) - 1
  }

  lemma CompleteIffAll(words: seq<nat>, bits: set<nat>, count: nat)
    requires Represents(words, bits) && count <= MAX_REQUIRED_FIELDS && forall k :: k in bits ==> k < count
    ensures (forall k: nat :: k < count ==> k in bits)
        <==> WordComplete(words, 0, count) && WordComplete(words, 1, count)
  {
    var low, high := if count >= 32 then 32 else count, if count <= 32 then 0 else count - 32;
    WordIsLow(bits, 0, 32, low);
    WordIsLow(bits, 32, 32, high);
    if forall k: nat :: k < count ==> k in bits {
      assert forall k: nat :: k < 32 ==> (Has(bits, 0, k) <==> k < low);
      assert forall k: nat :: k < 32 ==> (Has(bits, 32, k) <==> k < high);
    }
    if WordComplete(words, 0, count) && WordComplete(words, 1, count) {
      forall k: nat | k < count ensures k in bits {
        if k < 32 { assert Has(bits, 0, k); } else { assert Has(bits, 32, k - 32); }
      }
    }
  }

  lemma {:induction false} NoneIn(bits: set<nat>, base: nat, n: nat)
    requires forall k :: k in bits ==> k < base
    ensures WordOf(bits, base, n) == 0
  {
    if n == 0 {
    } else {
      NoneIn(bits, base, n - 1);
    }
  }

  lemma UnusedWords(words: seq<nat>, bits: set<nat>, count: nat)
    requires Represents(words, bits) && forall k :: k in bits ==> k < count
    ensures (count <= 32 ==> words[1] == 0) && (count == 0 ==> words[0] == 0)
  {
    if count <= 32 { NoneIn(bits, 32, 32); }
    if count == 0 { NoneIn(bits, 0, 32); }
  }

  /** The loop and the last comparison of `pb_decode_inner`. */
  method CheckRequired(fs: seq<Field>, bitfield: seq<nat>, ghost seen: set<nat>) returns (ok: bool)
    requires Represents(bitfield, SeenNumbers(fs, seen))
    ensures ok <==> AllSeen(fs, seen)
  {
    SeenBelow(fs, seen);
    AllNumbers(fs, seen);
    ghost var count := TrackedCount(fs);
    CompleteIffAll(bitfield, SeenNumbers(fs, seen), count);
    var reqFieldCount := RequiredIndex(fs, |fs|);
    if reqFieldCount > MAX_REQUIRED_FIELDS { reqFieldCount := MAX_REQUIRED_FIELDS; }
    UnusedWords(bitfield, SeenNumbers(fs, seen), count);
    ok := CompareWords(bitfield, reqFieldCount);
  }

  method CompareWords(bitfield: seq<nat>, count: nat) returns (ok: bool)
    requires |bitfield| == 2 && count <= MAX_REQUIRED_FIELDS
    requires count <= 32 ==> bitfield[1] == 0
    requires count == 0 ==> bitfield[0] == 0
    ensures ok <==> WordComplete(bitfield, 0, count) && WordComplete(bitfield, 1, count)
  {
    AllBitsIs();
    for i := 0 to count / 32
      invariant forall j :: 0 <= j < i ==> WordComplete(bitfield, j, count)
    {
      if bitfield[i] != ALL_BITS { return false; }
    }
    var rest := count % 32;
    if rest != 0 {
      ShiftedOnes(rest, 32 - rest);
      if bitfield[count / 32] != ALL_BITS / Pow2(32 - rest) { return false; }
    }
    ok := true;
  }

  /** The number of a required field is how many required fields come before it, and the first 64 are
      tracked. */
  lemma {:induction false} NumberCounts(fs: seq<Field>, i: nat)
    requires i <= |fs|
    ensures RequiredIndex(fs, i) == |set j | 0 <= j < i && fs[j].h.Required?|
    ensures i < |fs| ==> (Tracked(fs, i) <==> fs[i].h.Required? && RequiredIndex(fs, i) < 64)
  {
    var now := set j | 0 <= j < i && fs[j].h.Required?;
    if i == 0 {
      assert now == {};
    } else {
      NumberCounts(fs, i - 1);
      var before := set j | 0 <= j < i - 1 && fs[j].h.Required?;
      if fs[i - 1].h.Required? { assert now == before + {i - 1}; } else { assert now == before; }
    }
  }
}
