/** The decoder of pb_decode.c on streams, tied to the functions of module Decoding. The methods
    recurse on `bytes_left`: every nested message is read from a strictly shorter substream. */
module Decoder {
  import opened Basics
  import opened Schema
  import opened Decoding
  import opened FieldsSeen
  import opened InputStream
  import E = Encoding
  import V = Base128

  // ----- scalars -----

  /** `pb_dec_bool`, `pb_dec_varint`, `pb_decode_fixed32` and `pb_decode_fixed64`. */
  method DecodeNumber(s: IStream, l: LType, wt: nat) returns (ok: bool, v: Val)
    requires s.Valid() && l.Packable() && AcceptsWireType(l, wt)
    modifies s
    ensures s.Valid() && (ok <==> DecScalar(l, wt, old(s.Rest())).Some?)
    ensures ok ==> v == DecScalar(l, wt, old(s.Rest())).value.0 && s.Took(DecScalar(l, wt, old(s.Rest())).value.1)
    ensures s.pos + s.left == old(s.pos + s.left) && s.left <= old(s.left)
  {
    v := Num(0);
    if l.Bool? {
      var n;
      ok, n := s.DecodeVarint32();
      v := Num(if n != 0 then 1 else 0);
    } else if l.Fixed32? || l.Fixed64? {
      var bytes;
      ok, bytes := s.Read(if l.Fixed32? then 4 else 8);
      v := Num(FromLittleEndian(bytes));
    } else {
      var n;
      ok, n := s.DecodeVarint();
      if !ok { return; }
      match Clamp(l, n)
      case None => ok := false;
      case Some(x) => v := x;
    }
  }

  /** The lengths that `pb_dec_bytes`, `pb_dec_string` and `pb_dec_fixed_length_bytes` let through. */
  predicate SizeFits(l: LType, size: nat) {
    match l
    case Bytes(capacity) => size <= PB_SIZE_MAX && size <= capacity
    case String(room) => size != TWO_TO_THE_32 - 1 && size + 1 <= room
    case FixedBytes(length) => size <= PB_SIZE_MAX && (size == 0 || size == length)
    case _ => false
  }

  method SizeAllowed(l: LType, size: nat) returns (ok: bool)
    requires l.Bytes? || l.String? || l.FixedBytes?
    ensures ok <==> SizeFits(l, size)
  {
    if l.Bytes? {
      if size > PB_SIZE_MAX || size > l.capacity { return false; }
    } else if l.String? {
      if size == TWO_TO_THE_32 - 1 || size + 1 > l.size { return false; }
    } else {
      if size > PB_SIZE_MAX || (size != 0 && size != l.size) { return false; }
    }
    ok := true;
  }

  /** What is decoded from a length and the bytes after it. */
  lemma BlobOutcome(l: LType, all: seq<Byte>)
    requires l.Bytes? || l.String? || l.FixedBytes?
    ensures ReadDelimited(all).None? ==> DecScalar(l, E.WT_STRING, all).None?
    ensures ReadDelimited(all).Some? ==>
      var (data, n) := ReadDelimited(all).value;
      DecScalar(l, E.WT_STRING, all) ==
        if !SizeFits(l, |data|) then None
        else Some((Blob(if l.String? then data + [0]
                        else if l.FixedBytes? && data == [] then seq(l.size, _ => 0)
                        else data), n))
  {
  }

  /** The length of a blob, checked against the storage before any byte is copied. */
  method BlobLength(s: IStream, l: LType) returns (ok: bool, size: nat)
    requires s.Valid() && (l.Bytes? || l.String? || l.FixedBytes?)
    modifies s
    ensures s.Valid() && s.pos + s.left == old(s.pos + s.left) && s.left <= old(s.left)
    ensures ok <==> V.Read32(old(s.Rest())).Some? && SizeFits(l, V.Read32(old(s.Rest())).value.0)
    ensures ok ==> V.Read32(old(s.Rest())) == Some((size, old(s.left) - s.left))
  {
    ok, size := s.DecodeVarint32();
    if ok { ok := SizeAllowed(l, size); }
  }

  lemma DelimitedIs(all: seq<Byte>, size: nat, n: nat)
    requires V.Read32(all) == Some((size, n))
    ensures ReadDelimited(all) == if n + size <= |all| then Some((all[n..n + size], n + size)) else None
  {
  }

  lemma BlobFails(l: LType, all: seq<Byte>)
    requires l.Bytes? || l.String? || l.FixedBytes?
    requires V.Read32(all).None? || !SizeFits(l, V.Read32(all).value.0)
    ensures DecScalar(l, E.WT_STRING, all).None?
  {
    BlobOutcome(l, all);
  }

  /** `pb_dec_bytes`, `pb_dec_string` and `pb_dec_fixed_length_bytes` */
  method DecodeBlob(s: IStream, l: LType) returns (ok: bool, v: Val)
    requires s.Valid() && (l.Bytes? || l.String? || l.FixedBytes?)
    modifies s
    ensures s.Valid() && (ok <==> DecScalar(l, E.WT_STRING, old(s.Rest())).Some?)
    ensures ok ==>
      && v == DecScalar(l, E.WT_STRING, old(s.Rest())).value.0
      && s.Took(DecScalar(l, E.WT_STRING, old(s.Rest())).value.1)
    ensures s.pos + s.left == old(s.pos + s.left) && s.left <= old(s.left)
  {
    v := Num(0);
    ghost var all := s.Rest();
    var size;
    ok, size := BlobLength(s, l);
    if !ok {
      BlobFails(l, all);
      return;
    }
    ok, v := BlobBytes(s, l, size, all);
  }

  /** The bytes after the length. */
  method BlobBytes(s: IStream, l: LType, size: nat, ghost all: seq<Byte>) returns (ok: bool, v: Val)
    requires s.Valid() && (l.Bytes? || l.String? || l.FixedBytes?) && SizeFits(l, size)
    requires s.left <= |all| && s.Rest() == all[|all| - s.left..] && V.Read32(all) == Some((size, |all| - s.left))
    modifies s
    ensures s.Valid() && s.pos + s.left == old(s.pos + s.left) && s.left <= old(s.left)
    ensures ok <==> DecScalar(l, E.WT_STRING, all).Some?
    ensures ok ==> DecScalar(l, E.WT_STRING, all) == Some((v, |all| - s.left))
  {
    ghost var n := |all| - s.left;
    DelimitedIs(all, size, n);
    BlobOutcome(l, all);
    if l.FixedBytes? && size == 0 { return true, Blob(seq(l.size, _ => 0)); }
    v := Num(0);
    var data;
    ok, data := s.Read(size);
    if !ok { return; }
    assert data == all[n..n + size];
    v := Blob(if l.String? then data + [0] else data);
  }

  method DecodeScalar(s: IStream, l: LType, wt: nat) returns (ok: bool, v: Val)
    requires s.Valid() && !l.SubMessage?
    modifies s
    ensures s.Valid() && (ok <==> DecScalar(l, wt, old(s.Rest())).Some?)
    ensures ok ==> v == DecScalar(l, wt, old(s.Rest())).value.0 && s.Took(DecScalar(l, wt, old(s.Rest())).value.1)
    ensures s.pos + s.left == old(s.pos + s.left) && s.left <= old(s.left)
  {
    if !AcceptsWireType(l, wt) { return false, Num(0); }
    if l.Packable() {
      ok, v := DecodeNumber(s, l, wt);
    } else {
      ok, v := DecodeBlob(s, l);
    }
  }

  /** Going on from here gives what decoding the whole record gives. */
  ghost predicate SamePacked(
    l: LType, payload: seq<Byte>, before: seq<Val>, here: seq<Byte>, items: seq<Val>, max: nat)
  {
    DecPacked(l, payload, max, before) == DecPacked(l, here, max, items)
  }

  lemma PackedStep(l: LType, payload: seq<Byte>, before: seq<Val>, here: seq<Byte>, items: seq<Val>, max: nat)
    requires SamePacked(l, payload, before, here, items, max) && here != [] && |items| < max
    ensures DecScalar(l, WT_PACKED, here).None? ==> DecPacked(l, payload, max, before).None?
    ensures DecScalar(l, WT_PACKED, here).Some? ==>
      var (v, n) := DecScalar(l, WT_PACKED, here).value;
      SamePacked(l, payload, before, here[n..], items + [v], max)
  {
  }

  lemma PackedEnd(l: LType, payload: seq<Byte>, before: seq<Val>, here: seq<Byte>, items: seq<Val>, max: nat)
    requires SamePacked(l, payload, before, here, items, max) && (|items| >= max || here == [])
    ensures DecPacked(l, payload, max, before) == if here == [] then Some(items) else None
  {
  }

  /** The loop over the elements of a packed record. */
  method DecodeItems(sub: IStream, l: LType, max: nat, before: seq<Val>) returns (status: bool, items: seq<Val>)
    requires sub.Valid() && l.Packable()
    modifies sub
    ensures sub.Valid() && sub.pos + sub.left == old(sub.pos + sub.left)
    ensures DecPacked(l, old(sub.Rest()), max, before) == if status && sub.left == 0 then Some(items) else None
  {
    status, items := true, before;
    ghost var payload := sub.Rest();
    var v;
    while sub.left > 0 && |items| < max
      invariant sub.Valid() && sub.pos + sub.left == old(sub.pos + sub.left)
      invariant SamePacked(l, payload, before, sub.Rest(), items, max)
      decreases sub.left
    {
      ghost var here := sub.Rest();
      PackedStep(l, payload, before, here, items, max);
      status, v := DecodeScalar(sub, l, WT_PACKED);
      if !status { return; }
      ghost var n := DecScalar(l, WT_PACKED, here).value.1;
      assert sub.Rest() == here[n..];
      items := items + [v];
    }
    PackedEnd(l, payload, before, sub.Rest(), items, max);
  }

  /** The packed branch of `decode_static_field`, from opening the substream to closing it. */
  method DecodePacked(s: IStream, l: LType, max: nat, before: seq<Val>) returns (ok: bool, items: seq<Val>)
    requires s.Valid() && l.Packable()
    modifies s
    ensures s.Valid() && s.left <= old(s.left)
    ensures ok <==>
      && ReadDelimited(old(s.Rest())).Some?
      && DecPacked(l, ReadDelimited(old(s.Rest())).value.0, max, before).Some?
    ensures ok ==> items == DecPacked(l, ReadDelimited(old(s.Rest())).value.0, max, before).value
    ensures ok ==> s.Took(ReadDelimited(old(s.Rest())).value.1)
  {
    items := before;
    var sub, status;
    ok, sub := s.MakeSubstream();
    if !ok { return; }
    status, items := DecodeItems(sub, l, max, before);
    if sub.left != 0 { return false, items; }
    ok := s.CloseSubstream(sub);
    ok := status;
  }

  // ----- fields and messages -----

  /** `decode_basic_field`, with `pb_dec_submessage` for nested messages. */
  method DecodeBasic(s: IStream, l: LType, wt: nat, cur: Val) returns (ok: bool, v: Val)
    requires s.Valid()
    modifies s
    ensures s.Valid() && s.left <= old(s.left) && (ok <==> DecBasic(l, wt, old(s.Rest()), cur).Some?)
    ensures ok ==> v == DecBasic(l, wt, old(s.Rest()), cur).value.0
    ensures ok ==> s.Took(DecBasic(l, wt, old(s.Rest()), cur).value.1)
    decreases s.left, 0
  {
    v := cur;
    if !l.SubMessage? {
      ok, v := DecodeScalar(s, l, wt);
      return;
    }
    if wt != E.WT_STRING || !cur.Sub? { return false, v; }
    var sub, m;
    ok, sub := s.MakeSubstream();
    if !ok { return; }
    var status;
    status, m := DecodeInner(sub, l.desc, cur.msg);
    if !status { return false, v; }
    ok := s.CloseSubstream(sub);
    v := Sub(m);
  }

  /** The branch of `decode_static_field` for arrays. */
  method DecodeRepeated(s: IStream, f: Field, wt: nat, prev: Val) returns (ok: bool, v: Val)
    requires s.Valid() && f.h.Repeated?
    modifies s
    ensures s.Valid() && s.left <= old(s.left) && (ok <==> DecFieldVal(f, wt, old(s.Rest()), prev, false).Some?)
    ensures ok ==>
      && v == DecFieldVal(f, wt, old(s.Rest()), prev, false).value.0
      && s.Took(DecFieldVal(f, wt, old(s.Rest()), prev, false).value.1)
    decreases s.left, 1
  {
    if !prev.Rep? { return false, prev; }
    if wt == E.WT_STRING && f.l.Packable() {
      var items;
      ok, items := DecodePacked(s, f.l, f.h.max, prev.items);
      v := Rep(items);
    } else {
      if |prev.items| >= f.h.max { return false, prev; }
      ok, v := DecodeBasic(s, f.l, wt, DefaultVal(f.l));
      v := Rep(prev.items + [v]);
    }
  }

  /** The branch for members of a oneof; a submessage that was not current starts from its defaults. */
  method DecodeMember(s: IStream, f: Field, wt: nat, prev: Val, active: bool) returns (ok: bool, v: Val)
    requires s.Valid() && f.h.OneOf?
    modifies s
    ensures s.Valid() && s.left <= old(s.left) && (ok <==> DecFieldVal(f, wt, old(s.Rest()), prev, active).Some?)
    ensures ok ==>
      && v == DecFieldVal(f, wt, old(s.Rest()), prev, active).value.0
      && s.Took(DecFieldVal(f, wt, old(s.Rest()), prev, active).value.1)
    decreases s.left, 1
  {
    var start := prev;
    if f.l.SubMessage? && !active { start := DefaultVal(f.l); }
    ok, v := DecodeBasic(s, f.l, wt, start);
  }

  /** `decode_static_field` up to the `which_` variable: the new contents of the field. */
  method DecodeFieldVal(s: IStream, f: Field, wt: nat, prev: Val, active: bool) returns (ok: bool, v: Val)
    requires s.Valid()
    modifies s
    ensures s.Valid() && s.left <= old(s.left) && (ok <==> DecFieldVal(f, wt, old(s.Rest()), prev, active).Some?)
    ensures ok ==>
      && v == DecFieldVal(f, wt, old(s.Rest()), prev, active).value.0
      && s.Took(DecFieldVal(f, wt, old(s.Rest()), prev, active).value.1)
    decreases s.left, 2
  {
    match f.h {
      case Required | Singular =>
        ok, v := DecodeBasic(s, f.l, wt, prev);
      case Optional =>
        if !prev.Opt? { return false, prev; }
        ok, v := DecodeBasic(s, f.l, wt, prev.v);
        v := Opt(true, v);
      case Repeated(_) =>
        ok, v := DecodeRepeated(s, f, wt, prev);
      case OneOf(g) =>
        ok, v := DecodeMember(s, f, wt, prev, active);
    }
  }

  /** `decode_static_field` */
  method DecodeStaticField(s: IStream, f: Field, i: nat, wt: nat, m: Msg) returns (ok: bool, m': Msg)
    requires s.Valid() && i < |m.vals|
    modifies s
    ensures s.Valid() && s.left <= old(s.left) && (ok <==> DecField(f, i, wt, old(s.Rest()), m).Some?)
    ensures ok ==>
      && m' == DecField(f, i, wt, old(s.Rest()), m).value.0
      && s.Took(DecField(f, i, wt, old(s.Rest()), m).value.1)
    decreases s.left, 3
  {
    var active := f.h.OneOf? && Which(m.which, f.h.group) == f.tag;
    var v;
    ok, v := DecodeFieldVal(s, f, wt, m.vals[i], active);
    m' := Msg(m.vals[i := v], if f.h.OneOf? then m.which[f.h.group := f.tag] else m.which);
  }

  /** Noting a required field in the bitmap. */
  method MarkField(fs: seq<Field>, i: nat, bitfield: seq<nat>, ghost seen: set<nat>) returns (bitfield': seq<nat>)
    requires i < |fs| && Represents(bitfield, SeenNumbers(fs, seen))
    ensures Represents(bitfield', SeenNumbers(fs, Mark(fs, i, seen)))
  {
    bitfield' := bitfield;
    var index := RequiredIndex(fs, i);
    MarkAdds(fs, i, seen);
    if fs[i].h.Required? && index < MAX_REQUIRED_FIELDS {
      MarkBitAdds(bitfield, SeenNumbers(fs, seen), index);
      bitfield' := MarkBit(bitfield, index);
    }
  }

  /** One turn of the loop of `pb_decode_inner`. */
  method DecodeRecord(s: IStream, d: Desc, m: Msg, bitfield: seq<nat>, ghost seen: set<nat>)
    returns (ok: bool, m': Msg, bitfield': seq<nat>, ghost seen': set<nat>)
    requires s.Valid() && s.left > 0 && |m.vals| == |d.fields| && Represents(bitfield, SeenNumbers(d.fields, seen))
    modifies s
    ensures Represents(bitfield', SeenNumbers(d.fields, seen'))
    ensures s.Valid() && s.left <= old(s.left) && (ok <==> DecRecord(d, old(s.Rest()), m, seen).Some?)
    ensures ok ==> DecRecord(d, old(s.Rest()), m, seen).value == (m', seen', old(s.left) - s.left)
    ensures ok ==> s.Took(old(s.left) - s.left)
    decreases s.left, 4
  {
    m', bitfield', seen' := m, bitfield, seen;
    ghost var all := s.Rest();
    var tag, wt, eof;
    ok, tag, wt, eof := s.DecodeTag();
    assert !eof;   // it would end the loop, but there are bytes left
    if !ok { return; }
    if tag == 0 {
      ok := false;
      return;
    }
    assert s.Rest() == all[DecTag(all).value.2..];
    match FindField(d.fields, tag) {
      case None =>
        ok := s.SkipFieldBytes(wt);
      case Some(i) =>
        bitfield' := MarkField(d.fields, i, bitfield, seen);
        seen' := Mark(d.fields, i, seen);
        ok, m' := DecodeStaticField(s, d.fields[i], i, wt, m);
    }
  }

  /** Going on from here gives what decoding the whole message gives. */
  ghost predicate SameLoop(d: Desc, all: seq<Byte>, m: Msg, here: seq<Byte>, m': Msg, seen: set<nat>) {
    |m.vals| == |d.fields| == |m'.vals| && Loop(d, all, m, {}) == Loop(d, here, m', seen)
  }

  lemma LoopFails(d: Desc, all: seq<Byte>, m: Msg, here: seq<Byte>, m': Msg, seen: set<nat>)
    requires SameLoop(d, all, m, here, m', seen) && here != [] && DecRecord(d, here, m', seen).None?
    ensures Loop(d, all, m, {}).None?
  {
  }

  lemma LoopGoesOn(
    d: Desc, all: seq<Byte>, m: Msg, here: seq<Byte>, m': Msg, seen: set<nat>, m1: Msg, seen1: set<nat>, n: nat)
    requires SameLoop(d, all, m, here, m', seen) && here != [] && DecRecord(d, here, m', seen) == Some((m1, seen1, n))
    ensures SameLoop(d, all, m, here[n..], m1, seen1)
  {
  }

  /** One record further into the message. */
  method DecodeNext(
    s: IStream, d: Desc, m: Msg, bitfield: seq<nat>, ghost seen: set<nat>, ghost all: seq<Byte>, ghost m0: Msg)
    returns (ok: bool, m': Msg, bitfield': seq<nat>, ghost seen': set<nat>)
    requires s.Valid() && s.left > 0 && Represents(bitfield, SeenNumbers(d.fields, seen))
    requires SameLoop(d, all, m0, s.Rest(), m, seen)
    modifies s
    ensures s.Valid() && Represents(bitfield', SeenNumbers(d.fields, seen'))
    ensures s.left <= old(s.left)
    ensures !ok ==> Loop(d, all, m0, {}).None?
    ensures ok ==> SameLoop(d, all, m0, s.Rest(), m', seen') && s.left < old(s.left) && s.Took(old(s.left) - s.left)
    decreases s.left, 5
  {
    ghost var here := s.Rest();
    ok, m', bitfield', seen' := DecodeRecord(s, d, m, bitfield, seen);
    if !ok {
      LoopFails(d, all, m0, here, m, seen);
      return;
    }
    ghost var n := |here| - s.left;
    LoopGoesOn(d, all, m0, here, m, seen, m', seen', n);
    assert s.Rest() == here[n..];
  }

  method DecodeRecords(s: IStream, d: Desc, m: Msg)
    returns (ok: bool, m': Msg, bitfield: seq<nat>, ghost seen: set<nat>)
    requires s.Valid() && |m.vals| == |d.fields|
    modifies s
    ensures Represents(bitfield, SeenNumbers(d.fields, seen))
    ensures s.Valid() && s.left <= old(s.left) && (ok <==> Loop(d, old(s.Rest()), m, {}).Some?)
    ensures ok ==> Loop(d, old(s.Rest()), m, {}).value == (m', seen) && s.Took(old(s.left))
    decreases s.left, 6
  {
    m', bitfield, seen := m, [0, 0], {};
    NothingSeen();
    assert SeenNumbers(d.fields, {}) == {};
    ghost var all := s.Rest();
    while s.left > 0
      invariant s.Valid() && Represents(bitfield, SeenNumbers(d.fields, seen))
      invariant s.pos + s.left == old(s.pos + s.left) && s.left <= old(s.left)
      invariant SameLoop(d, all, m, s.Rest(), m', seen)
      decreases s.left
    {
      ok, m', bitfield, seen := DecodeNext(s, d, m', bitfield, seen, all, m);
      if !ok { return; }
    }
    ok := true;
  }

  /** `pb_decode_inner` into an initialised message: it consumes the whole stream. */
  method DecodeInner(s: IStream, d: Desc, m: Msg) returns (ok: bool, m': Msg)
    requires s.Valid()
    modifies s
    ensures s.Valid() && s.left <= old(s.left) && (ok <==> Dec(d, old(s.Rest()), m).Some?)
    ensures ok ==> m' == Dec(d, old(s.Rest()), m).value && s.Took(old(s.left))
    decreases s.left, 7
  {
    m' := m;
    if |m.vals| != |d.fields| { return false, m'; }
    var bitfield;
    ghost var seen;
    ok, m', bitfield, seen := DecodeRecords(s, d, m);
    if ok { ok := CheckRequired(d.fields, bitfield, seen); }
  }

  /** `pb_decode`: success means that the whole message was consumed, and the result is a function of
      its bytes. */
  method PbDecode(s: IStream, d: Desc) returns (ok: bool, m: Msg)
    requires s.Valid()
    modifies s
    ensures s.Valid() && (ok <==> Decode(d, old(s.Rest())).Some?)
    ensures ok ==> m == Decode(d, old(s.Rest())).value && s.left == 0 && s.pos == old(s.pos + s.left)
  {
    ok, m := DecodeInner(s, d, DefaultMsg(d));
  }
}
