/** pb_istream_t over a memory buffer, with the readers that move it. */
module InputStream {
  import opened Basics
  import opened Decoding
  import E = Encoding
  import V = Base128

  class IStream {
    const buf: seq<Byte>
    var pos: nat     // the `state` pointer
    var left: nat    // bytes_left

    ghost predicate Valid()
      reads this
    {
      pos + left <= |buf|
    }

    /** The bytes that may still be read. */
    ghost function Rest(): seq<Byte>
      reads this
      requires Valid()
    {
      buf[pos..pos + left]
    }

    /** The stream stands `n` bytes further on, and its end has not moved. */
    twostate predicate Took(n: nat)
      reads this
    {
      n <= old(left) && pos == old(pos) + n && left == old(left) - n
    }

    /** `pb_istream_from_buffer`, and the copy made by `pb_make_string_substream`. */
    constructor (buf: seq<Byte>, pos: nat, left: nat)
      requires pos + left <= |buf|
      ensures Valid() && this.buf == buf && this.pos == pos && this.left == left
    {
      this.buf, this.pos, this.left := buf, pos, left;
    }

    /** `pb_read` */
    method Read(count: nat) returns (ok: bool, data: seq<Byte>)
      requires Valid()
      modifies this
      ensures Valid() && (ok <==> count <= old(left))
      ensures ok ==> Took(count) && ReadBytes(old(Rest()), count) == Some((data, count))
      ensures !ok ==> Took(0)
    {
      if left < count { return false, []; }
      data := buf[pos..pos + count];
      assert Rest()[..count] == data;
      pos, left := pos + count, left - count;
      ok := true;
    }

    /** `pb_readbyte` */
    method ReadByte() returns (ok: bool, byte: Byte)
      requires Valid()
      modifies this
      ensures Valid() && (ok <==> old(left) > 0)
      ensures ok ==> Took(1) && byte == old(Rest())[0] && Rest() == old(Rest())[1..]
      ensures !ok ==> Took(0)
    {
      if left == 0 { return false, 0; }
      byte := buf[pos];
      pos, left := pos + 1, left - 1;
      ok := true;
    }

    /** `pb_decode_varint` */
    method DecodeVarint() returns (ok: bool, value: nat)
      requires Valid()
      modifies this
      ensures Valid() && (ok <==> V.Read64(old(Rest()), 0).Some?)
      ensures ok ==> value == V.Read64(old(Rest()), 0).value.0 && Took(V.Read64(old(Rest()), 0).value.1)
      ensures pos + left == old(pos + left) && left <= old(left)
    {
      ghost var all := Rest();
      var result, k := 0, 0;
      while true
        invariant Valid() && result >= 0 && k >= 0 && Took(k) && Rest() == all[k..]
        invariant Continues64(all, k, result)
        decreases left
      {
        Stops64(all, k, result);
        var byte;
        ok, byte := ReadByte();
        if !ok { return false, 0; }
        if k >= 9 && byte >= 2 { return false, 0; }
        var next := result + byte % 128 * V.Pow128(k);
        Continue64(all, k, result, next);
        result, k := next, k + 1;
        if byte < 128 { return true, result; }
      }
    }

    /** `pb_decode_varint32_eof`: the end of the stream is reported when there is no first byte. */
    method DecodeVarint32Eof() returns (ok: bool, value: nat, eof: bool)
      requires Valid()
      modifies this
      ensures Valid() && (ok <==> V.Read32(old(Rest())).Some?) && (eof <==> old(left) == 0)
      ensures ok ==> value == V.Read32(old(Rest())).value.0 && Took(V.Read32(old(Rest())).value.1)
      ensures pos + left == old(pos + left) && left <= old(left)
    {
      eof := false;
      ghost var all := Rest();
      var byte;
      ok, byte := ReadByte();
      if !ok { return false, 0, left == 0; }
      if byte < 128 { return true, byte, false; }
      ok, value := MoreBytes32(byte % 128, all);
    }

    /** The multi-byte case, after the first byte. */
    method MoreBytes32(first: nat, ghost all: seq<Byte>) returns (ok: bool, value: nat)
      requires Valid() && |all| == left + 1 && Rest() == all[1..] && Continues32(all, 1, first)
      modifies this
      ensures Valid() && (ok <==> V.Read32(all).Some?)
      ensures ok ==> value == V.Read32(all).value.0 && Took(V.Read32(all).value.1 - 1)
      ensures pos + left == old(pos + left) && left <= old(left)
    {
      var byte;
      var result, k := first, 1;
      while true
        invariant Valid() && k >= 1 && Took(k - 1) && Rest() == all[k..] && result >= 0
        invariant Continues32(all, k, result)
        decreases left
      {
        ok, byte := ReadByte();
        if !ok { return false, 0; }
        Continue32(all, k, result);
        if !V.Accepts32(byte, k, result) { return false, 0; }
        result := V.Keep32(byte, k, result);
        k := k + 1;
        if byte < 128 { return true, result; }
      }
    }

    /** `pb_decode_varint32` */
    method DecodeVarint32() returns (ok: bool, value: nat)
      requires Valid()
      modifies this
      ensures Valid() && (ok <==> V.Read32(old(Rest())).Some?)
      ensures ok ==> value == V.Read32(old(Rest())).value.0 && Took(V.Read32(old(Rest())).value.1)
      ensures pos + left == old(pos + left) && left <= old(left)
    {
      var eof;
      ok, value, eof := DecodeVarint32Eof();
    }

    /** `pb_skip_varint` */
    method SkipVarintBytes() returns (ok: bool)
      requires Valid()
      modifies this
      ensures Valid() && (ok <==> SkipVarint(old(Rest())).Some?)
      ensures ok ==> Took(SkipVarint(old(Rest())).value)
      ensures pos + left == old(pos + left) && left <= old(left)
    {
      ghost var all := Rest();
      ghost var k := 0;
      while true
        invariant Valid() && k >= 0 && Took(k) && Rest() == all[k..]
        invariant SkipVarint(all) == match SkipVarint(all[k..]) case None => None case Some(n) => Some(k + n)
        decreases left
      {
        var byte;
        ok, byte := ReadByte();
        if !ok { return false; }
        assert all[k..][1..] == all[k + 1..];
        k := k + 1;
        if byte < 128 { return true; }
      }
    }

    /** `pb_decode_tag` */
    method DecodeTag() returns (ok: bool, tag: nat, wt: nat, eof: bool)
      requires Valid()
      modifies this
      ensures (eof <==> old(left) == 0) && (!ok ==> tag == 0 && wt == 0)
      ensures Valid() && (ok <==> DecTag(old(Rest())).Some?)
      ensures ok ==> tag == DecTag(old(Rest())).value.0 && wt == DecTag(old(Rest())).value.1
      ensures ok ==> Took(DecTag(old(Rest())).value.2)
      ensures pos + left == old(pos + left) && left <= old(left)
    {
      var temp;
      tag, wt := 0, 0;
      ok, temp, eof := DecodeVarint32Eof();
      if !ok { return; }
      tag, wt := temp / 8, temp % 8;
    }

    /** `pb_make_string_substream`: a limited view of the counted bytes, taken out of this stream's
        budget. Until it is closed this stream's own pointer is behind. */
    method MakeSubstream() returns (ok: bool, sub: IStream)
      requires Valid()
      modifies this
      ensures Valid() && (ok <==> ReadDelimited(old(Rest())).Some?)
      ensures ok ==> fresh(sub) && sub.Valid() && sub.Rest() == ReadDelimited(old(Rest())).value.0 && sub.buf == buf
      ensures ok ==> sub.left < old(left) && left == old(left) - ReadDelimited(old(Rest())).value.1
      ensures ok ==> sub.pos + sub.left + left == old(pos + left)
      ensures left <= old(left)
    {
      ghost var all := Rest();
      sub := new IStream(buf, 0, 0);
      var size;
      ok, size := DecodeVarint32();
      if !ok { return false, sub; }
      if left < size { return false, sub; }
      sub := new IStream(buf, pos, size);
      ghost var n := V.Read32(all).value.1;
      assert Rest() == all[n..];
      assert sub.Rest() == Rest()[..size];
      assert all[n..][..size] == all[n..n + size];
      left := left - size;
    }

    /** `pb_close_string_substream`: what the substream left unread is skipped, and the pointer catches up. */
    method CloseSubstream(sub: IStream) returns (ok: bool)
      requires Valid() && sub.Valid() && sub != this && sub.buf == buf && sub.pos + sub.left + left <= |buf|
      modifies this, sub
      ensures ok && Valid() && left == old(left) && pos == old(sub.pos + sub.left)
    {
      if sub.left != 0 {
        var skipped;
        ok, skipped := sub.Read(sub.left);
        if !ok { return false; }
      }
      pos := sub.pos;
      ok := true;
    }

    /** `pb_skip_field` */
    method SkipFieldBytes(wt: nat) returns (ok: bool)
      requires Valid()
      modifies this
      ensures Valid() && (ok <==> SkipField(wt, old(Rest())).Some?)
      ensures ok ==> Took(SkipField(wt, old(Rest())).value)
      ensures pos + left == old(pos + left) && left <= old(left)
    {
      var skipped;
      if wt == E.WT_VARINT {
        ok := SkipVarintBytes();
      } else if wt == E.WT_64BIT {
        ok, skipped := Read(8);
      } else if wt == E.WT_STRING {
        ghost var all := Rest();
        var size;
        ok, size := DecodeVarint32();
        if !ok { return false; }
        ghost var n := V.Read32(all).value.1;
        ok, skipped := Read(size);
      } else if wt == E.WT_32BIT {
        ok, skipped := Read(4);
      } else {
        ok := false;
      }
    }
  }

  /** Adds the number read from byte `k` on, scaled by `p`, to what is already there. */
  function Combine(r: Option<(nat, nat)>, result: nat, p: nat, k: nat): Option<(nat, nat)> {
    match r
    case None => None
    case Some((v, n)) => Some((result + v * p, n + k))
  }

  /** Loop invariant of `pb_decode_varint`: `result` and the groups from byte `k` on make up the answer. */
  ghost predicate Continues64(all: seq<Byte>, k: nat, result: nat) {
    k <= |all| && V.Read64(all, 0) == Combine(V.Read64(all[k..], k), result, V.Pow128(k), k)
  }

  lemma Stops64(all: seq<Byte>, k: nat, result: nat)
    requires Continues64(all, k, result)
    ensures k == |all| || (k >= 9 && all[k] >= 2) ==> V.Read64(all, 0).None?
  {
  }

  lemma Continue64(all: seq<Byte>, k: nat, result: nat, next: nat)
    requires k < |all| && Continues64(all, k, result) && !(k >= 9 && all[k] >= 2)
    requires next == result + all[k] % 128 * V.Pow128(k)
    ensures all[k] < 128 ==> V.Read64(all, 0) == Some((next, k + 1))
    ensures all[k] >= 128 ==> Continues64(all, k + 1, next)
  {
    if all[k] >= 128 { MoreGroups(all, k, result, next); } else { LastGroup(all, k, result, all[k], next); }
  }

  lemma LastGroup(all: seq<Byte>, k: nat, result: nat, b: nat, next: nat)
    requires k < |all| && Continues64(all, k, result) && b == all[k] < 128 && !(k >= 9 && b >= 2)
    requires next == result + b % 128 * V.Pow128(k)
    ensures V.Read64(all, 0) == Some((next, k + 1))
  {
    Read64Last(all[k..], k, b);
    CombineOne(b, result, V.Pow128(k), k, next);
  }

  lemma CombineOne(b: nat, result: nat, p: nat, k: nat, next: nat)
    requires b < 128 && next == result + b % 128 * p
    ensures Combine(Some((b, 1)), result, p, k) == Some((next, k + 1))
  {
    assert b % 128 == b;
  }

  lemma MoreGroups(all: seq<Byte>, k: nat, result: nat, next: nat)
    requires k < |all| && Continues64(all, k, result) && k < 9 && all[k] >= 128
    requires next == result + all[k] % 128 * V.Pow128(k)
    ensures Continues64(all, k + 1, next)
  {
    assert all[k..][1..] == all[k + 1..];
    Read64Head(all[k..], k);
    CombineStep(V.Read64(all[k + 1..], k + 1), all[k] % 128, result, V.Pow128(k), k, next);
  }

  lemma Read64Last(bs: seq<Byte>, k: nat, b: nat)
    requires bs != [] && b == bs[0] < 128 && !(k >= 9 && b >= 2)
    ensures V.Read64(bs, k) == Some((b, 1))
  {
  }

  lemma Read64Head(bs: seq<Byte>, k: nat)
    requires bs != [] && bs[0] >= 128 && k < 9
    ensures V.Read64(bs, k) == Combine(V.Read64(bs[1..], k + 1), bs[0] % 128, 128, 1)
  {
  }

  lemma CombineStep(r: Option<(nat, nat)>, b: nat, result: nat, p: nat, k: nat, next: nat)
    requires next == result + b * p
    ensures Combine(Combine(r, b, 128, 1), result, p, k) == Combine(r, next, 128 * p, k + 1)
  {
    if r.Some? { V.Distribute(b, r.value.0, p); }
  }

  /** Loop invariant of the multi-byte case of `pb_decode_varint32`. */
  ghost predicate Continues32(all: seq<Byte>, k: nat, result: nat) {
    && 1 <= k <= |all|
    && V.Read32(all) == match V.Read32From(all[k..], k, result) case None => None case Some((v, n)) => Some((v, n + k))
  }

  lemma Continue32(all: seq<Byte>, k: nat, result: nat)
    requires Continues32(all, k, result)
    ensures k == |all| ==> V.Read32(all).None?
    ensures k < |all| && !V.Accepts32(all[k], k, result) ==> V.Read32(all).None?
    ensures k < |all| && V.Accepts32(all[k], k, result) && all[k] < 128 ==>
      V.Read32(all) == Some((V.Keep32(all[k], k, result), k + 1))
    ensures k < |all| && V.Accepts32(all[k], k, result) && all[k] >= 128 ==>
      Continues32(all, k + 1, V.Keep32(all[k], k, result))
  {
    if k < |all| { assert all[k..][1..] == all[k + 1..]; }
  }
}
