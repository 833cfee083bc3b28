/** pb_ostream_t: a sizing stream that only counts, or a window of a byte buffer. */
module OutputStream {
  import opened Basics
  import V = Base128

  /** A snapshot of a stream. `pos` is the `state` pointer, as an index into `mem`. */
  datatype OState = OState(sizing: bool, maxSize: nat, written: nat, pos: nat, mem: seq<Byte>)

  predicate ValidState(o: OState) {
    !o.sizing ==> o.written <= o.maxSize && o.pos + (o.maxSize - o.written) <= |o.mem|
  }

  predicate Room(o: OState, n: nat) { o.sizing || o.written + n <= o.maxSize }

  /** The stream after `e` has been written to it. */
  function Emit(o: OState, e: seq<Byte>): OState
    requires ValidState(o) && Room(o, |e|)
  {
    if o.sizing then o.(written := o.written + |e|)
    else o.(written := o.written + |e|, pos := o.pos + |e|, mem := o.mem[..o.pos] + e + o.mem[o.pos + |e|..])
  }

  /** Whatever happened, nothing outside the window of the stream has changed. */
  ghost predicate Confined(o: OState, o': OState)
    requires ValidState(o)
  {
    && ValidState(o') && o'.sizing == o.sizing && o'.maxSize == o.maxSize && |o'.mem| == |o.mem|
    && o.written <= o'.written
    && (o.sizing ==> o'.pos == o.pos && o'.mem == o.mem)
    && (!o.sizing ==>
          && o'.pos - o'.written == o.pos - o.written
          && forall k :: 0 <= k < |o.mem| && !(o.pos <= k < o.pos + o.maxSize - o.written) ==> o'.mem[k] == o.mem[k])
  }

  /** The contract of every writer: it succeeds exactly when there is something to write and room
      for all of it, and then has written exactly that. */
  ghost predicate Outcome(o: OState, o': OState, ok: bool, e: Option<seq<Byte>>) {
    && ValidState(o)
    && (ok <==> e.Some? && Room(o, |e.value|))
    && (ok ==> o' == Emit(o, e.value))
    && Confined(o, o')
  }

  lemma EmitConfined(o: OState, e: seq<Byte>)
    requires ValidState(o) && Room(o, |e|)
    ensures Confined(o, Emit(o, e))
  {
  }

  lemma EmitNothing(o: OState)
    requires ValidState(o)
    ensures Outcome(o, o, true, Some([]))
  {
    assert !o.sizing ==> o.mem[..o.pos] + [] + o.mem[o.pos..] == o.mem;
  }

  lemma FailsAtFirst(o: OState, o1: OState, e1: Option<seq<Byte>>, e2: Option<seq<Byte>>)
    requires Outcome(o, o1, false, e1)
    ensures Outcome(o, o1, false, Join(e1, e2))
  {
  }

  lemma EmitTwice(o: OState, a: seq<Byte>, b: seq<Byte>)
    requires ValidState(o) && Room(o, |a| + |b|)
    ensures Room(o, |a|) && ValidState(Emit(o, a)) && Room(Emit(o, a), |b|)
    ensures Emit(Emit(o, a), b) == Emit(o, a + b)
  {
    if !o.sizing {
      assert Emit(Emit(o, a), b).mem == Emit(o, a + b).mem;
    }
  }

  /** Two writers in sequence write the concatenation. */
  lemma InSequence(o: OState, o1: OState, o2: OState, ok: bool, e1: Option<seq<Byte>>, e2: Option<seq<Byte>>)
    requires Outcome(o, o1, true, e1) && Outcome(o1, o2, ok, e2)
    ensures Outcome(o, o2, ok, Join(e1, e2))
  {
    if ok { EmitTwice(o, e1.value, e2.value); }
  }

  class OStream {
    const sizing: bool
    const maxSize: nat
    const buf: array<Byte>
    var pos: nat
    var written: nat

    ghost function Snap(): OState
      reads this, buf
    {
      OState(sizing, maxSize, written, pos, buf[..])
    }

    ghost predicate Valid()
      reads this, buf
    {
      ValidState(Snap())
    }

    /** PB_OSTREAM_SIZING */
    constructor Sizing()
      ensures Valid() && sizing && written == 0 && fresh(this) && fresh(buf)
    {
      sizing, maxSize, pos, written := true, 0, 0, 0;
      buf := new Byte[0];
    }

    /** `pb_ostream_from_buffer`, and the writing substream of `pb_encode_submessage`. */
    constructor FromBuffer(buf: array<Byte>, pos: nat, size: nat)
      requires pos + size <= buf.Length
      ensures Valid() && !sizing && this.buf == buf && this.pos == pos && maxSize == size && written == 0
    {
      sizing, maxSize, written := false, size, 0;
      this.buf, this.pos := buf, pos;
    }

    /** `buf_write`: the bytes go to where the stream stands. */
    method Copy(data: seq<Byte>)
      requires pos + |data| <= buf.Length
      modifies buf
      ensures buf[..] == old(buf[..pos]) + data + old(buf[pos + |data|..])
    {
      ghost var mem := buf[..];
      for i := 0 to |data|
        invariant buf[..] == mem[..pos] + data[..i] + mem[pos + i..]
      {
        buf[pos + i] := data[i];
      }
      assert data[..|data|] == data;
    }

    /** `pb_write` */
    method Write(data: seq<Byte>) returns (ok: bool)
      requires Valid()
      modifies this, buf
      ensures Valid() && Outcome(old(Snap()), Snap(), ok, Some(data))
      ensures !ok ==> Snap() == old(Snap())
    {
      if |data| > 0 && !sizing {
        if written + |data| > maxSize { return false; }
        Copy(data);
        pos := pos + |data|;
      } else {
        assert !sizing ==> buf[..pos] + [] + buf[pos..] == buf[..];
      }
      written := written + |data|;
      EmitConfined(old(Snap()), data);
      return true;
    }

    /** `pb_write` of a count without data, which only a sizing stream may do. */
    method WriteCount(ghost data: seq<Byte>, n: nat) returns (ok: bool)
      requires Valid() && sizing && n == |data|
      modifies this
      ensures Valid() && ok && Outcome(old(Snap()), Snap(), true, Some(data))
    {
      written := written + n;
      return true;
    }

    /** `pb_encode_varint_32`: the value in two 32-bit halves, without 64-bit shifts. */
    method EncodeVarint32(low: nat, high: nat) returns (ok: bool)
      requires Valid() && low < TWO_TO_THE_32 && high < TWO_TO_THE_32
      modifies this, buf
      ensures Valid() && Outcome(old(Snap()), Snap(), ok, Some(V.Varint(low + TWO_TO_THE_32 * high)))
    {
      var buffer := new Byte[10];
      var n := SplitIntoGroups(buffer, low, high);
      ok := Write(buffer[..n]);
    }

    /** `pb_encode_varint` */
    method EncodeVarint(v: nat) returns (ok: bool)
      requires Valid() && v < TWO_TO_THE_64
      modifies this, buf
      ensures Valid() && Outcome(old(Snap()), Snap(), ok, Some(V.Varint(v)))
    {
      if v <= 0x7F {
        ok := Write([v]);
      } else {
        ok := EncodeVarint32(v % TWO_TO_THE_32, v / TWO_TO_THE_32);
      }
    }

    /** `pb_encode_string`: a length and that many bytes. */
    method EncodeString(data: seq<Byte>) returns (ok: bool)
      requires Valid() && |data| < TWO_TO_THE_64
      modifies this, buf
      ensures Valid() && Outcome(old(Snap()), Snap(), ok, Some(V.Varint(|data|) + data))
    {
      ghost var o := Snap();
      ok := EncodeVarint(|data|);
      ghost var o1 := Snap();
      if !ok {
        FailsAtFirst(o, o1, Some(V.Varint(|data|)), Some(data));
        return false;
      }
      ok := Write(data);
      InSequence(o, o1, Snap(), ok, Some(V.Varint(|data|)), Some(data));
    }
  }

  /** The bytes stored so far and what is still to be stored make up the varint of `v`. */
  ghost predicate Pending(v: nat, stored: seq<Byte>, rest: nat) { V.Varint(v) == stored + V.Varint(rest) }

  /** The loops of `pb_encode_varint_32`: at most four groups from the low half, then one that
      mixes both, then the rest of the high half. */
  method SplitIntoGroups(buffer: array<Byte>, low: nat, high: nat) returns (n: nat)
    requires buffer.Length == 10 && low < TWO_TO_THE_32 && high < TWO_TO_THE_32
    modifies buffer
    ensures n <= 10 && buffer[..n] == V.Varint(low + TWO_TO_THE_32 * high)
  {
    ghost var v := low + TWO_TO_THE_32 * high;
    var i: nat, lo: nat := 0, low / 128;
    var byte: Byte := low % 128;
    while i < 4 && (lo != 0 || high != 0)
      invariant 0 <= i <= 4 && byte < 128 && byte + 128 * lo < V.Room32(i)
      invariant Pending(v, buffer[..i], byte + 128 * lo + HighPart(i, high))
      decreases 4 - i
    {
      assert HighPart(i, high) == 128 * HighPart(i + 1, high);
      StoreOne(v, buffer[..i], byte, lo + HighPart(i + 1, high));
      byte, lo, i := AddGroup(buffer, i, byte, lo);
    }
    if high != 0 {
      var hi := high / 8;
      byte := byte + high % 8 * 16;
      assert i == 4 && lo == 0;
      byte, i := HighGroups(buffer, i, byte, hi, v);
    }
    StoreLast(v, buffer[..i], byte);
    buffer[i] := byte;
    n := i + 1;
    assert buffer[..n] == buffer[..i] + [byte];
  }

  method HighGroups(buffer: array<Byte>, n: nat, first: Byte, high: nat, ghost v: nat) returns (byte: Byte, i: nat)
    requires buffer.Length == 10 && n == 4 && first < 128 && high < 0x2000_0000
    requires Pending(v, buffer[..n], first + 128 * high)
    modifies buffer
    ensures i <= 9 && byte < 128 && Pending(v, buffer[..i], byte)
  {
    i, byte := n, first;
    var hi: nat := high;
    while hi != 0
      invariant 4 <= i <= 9 && byte < 128 && hi < HighRoom(i)
      invariant Pending(v, buffer[..i], byte + 128 * hi)
      decreases hi
    {
      StoreOne(v, buffer[..i], byte, hi);
      byte, hi, i := AddGroup(buffer, i, byte, hi);
    }
  }

  lemma StoreOne(v: nat, stored: seq<Byte>, byte: Byte, rest: nat)
    requires byte < 128 && rest > 0 && Pending(v, stored, byte + 128 * rest)
    ensures Pending(v, stored + [128 + byte], rest)
  {
    var r := byte + 128 * rest;
    assert r % 128 == byte && r / 128 == rest;
    assert stored + ([128 + byte] + V.Varint(rest)) == stored + [128 + byte] + V.Varint(rest);
  }

  lemma StoreLast(v: nat, stored: seq<Byte>, byte: Byte)
    requires byte < 128 && Pending(v, stored, byte)
    ensures V.Varint(v) == stored + [byte]
  {
  }

  /** Stores a group that is not the last and takes the next one from `rest`. */
  method AddGroup(buffer: array<Byte>, i: nat, byte: Byte, rest: nat) returns (byte': Byte, rest': nat, i': nat)
    requires i < buffer.Length && byte < 128
    modifies buffer
    ensures i' == i + 1 && rest == byte' + 128 * rest' && byte' < 128
    ensures buffer[..i'] == old(buffer[..i]) + [128 + byte]
  {
    buffer[i] := byte + 128;
    byte', rest', i' := rest % 128, rest / 128, i + 1;
    assert buffer[..i'] == buffer[..i] + [128 + byte];
  }

  /** The high half, shifted right with the low half by 7 bits `i` times. */
  function HighPart(i: nat, hi: nat): nat {
    if i == 0 then TWO_TO_THE_32 * hi else if i == 1 then 0x200_0000 * hi else if i == 2 then 0x4_0000 * hi
    else if i == 3 then 2048 * hi else 16 * hi
  }

  /** 2^29 >> 7 (i - 4): what is left of the high half after byte `i`. */
  function HighRoom(i: nat): nat {
    if i <= 4 then 0x2000_0000 else if i == 5 then 0x40_0000 else if i == 6 then 0x8000 else if i == 7 then 256
    else if i == 8 then 2 else 1
  }
}
