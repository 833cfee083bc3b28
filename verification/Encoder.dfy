/** The encoder of pb_encode.c on streams. Every method is tied by `Outcome` to the bytes that
    module Encoding assigns to its argument; submessages and packed arrays are first sized with a
    counting stream and then written. */
module Encoder {
  import opened Basics
  import opened Schema
  import opened Encoding
  import opened OutputStream
  import V = Base128

  // ----- scalars -----

  /** `pb_encode_tag` */
  method EncodeTag(s: OStream, wt: nat, tag: nat) returns (ok: bool)
    requires s.Valid() && wt < 8 && 1 <= tag <= PB_SIZE_MAX
    modifies s, s.buf
    ensures s.Valid() && Outcome(old(s.Snap()), s.Snap(), ok, Some(TagBytes(tag, wt)))
  {
    ok := s.EncodeVarint(8 * tag + wt);
  }

  /** `pb_encode_fixed32` and `pb_encode_fixed64`, byte by byte. */
  method EncodeFixed(s: OStream, value: nat, size: nat) returns (ok: bool)
    requires s.Valid()
    modifies s, s.buf
    ensures s.Valid() && Outcome(old(s.Snap()), s.Snap(), ok, Some(LittleEndian(value, size)))
  {
    var bytes: seq<Byte> := [];
    var val := value;
    for i := 0 to size
      invariant val >= 0 && |bytes| == i && LittleEndian(value, size) == bytes + LittleEndian(val, size - i)
    {
      assert bytes + ([val % 256] + LittleEndian(val / 256, size - i - 1))
          == bytes + [val % 256] + LittleEndian(val / 256, size - i - 1);
      bytes := bytes + [val % 256];
      val := val / 256;
    }
    assert bytes + [] == bytes;
    ok := s.Write(bytes);
  }

  /** `pb_enc_bool`, `pb_enc_varint` and `pb_enc_fixed`: a number in its declared storage. */
  method EncodeNumber(s: OStream, l: LType, n: int) returns (ok: bool)
    requires s.Valid() && ValidLType(l) && l.Packable() && FitsVal(l, Num(n))
    modifies s, s.buf
    ensures s.Valid() && Outcome(old(s.Snap()), s.Snap(), ok, Payload(l, Num(n)))
  {
    NumberFits64(l, n);
    match l
    case Bool => ok := s.EncodeVarint(if n == 0 then 0 else 1);
    case UVarint(_) => ok := s.EncodeVarint(n);
    case Varint(_) => ok := s.EncodeVarint(V.ToUnsigned64(n));
    case SVarint(_) => ok := s.EncodeVarint(V.ZigZag(n));
    case Fixed32 => ok := EncodeFixed(s, n, 4);
    case Fixed64 => ok := EncodeFixed(s, n, 8);
  }

  lemma NumberFits64(l: LType, n: int)
    requires ValidLType(l) && l.Packable() && FitsVal(l, Num(n))
    ensures -TWO_TO_THE_63 <= n && (l.Varint? || l.SVarint? ==> n < TWO_TO_THE_63) && n < TWO_TO_THE_64
    ensures l.SVarint? ==> 0 <= V.ZigZag(n) < TWO_TO_THE_64
    ensures !l.Varint? && !l.SVarint? ==> 0 <= n
  {
    assert Pow256(1) == 256 && Pow256(2) == 65536 && Pow256(3) == 256 * Pow256(2) && Pow256(4) == 256 * Pow256(3);
    assert Pow256(5) == 256 * Pow256(4) && Pow256(6) == 256 * Pow256(5) && Pow256(7) == 256 * Pow256(6);
    if l.SVarint? { V.ZigZagInverse(n); }
  }

  /** Sizes of encoded parts are counted in a machine word. */
  predicate Countable(e: Option<seq<Byte>>) { e.Some? ==> |e.value| < TWO_TO_THE_64 }

  /** What the structure can hold for a field: right shape and storage, but not yet accepted by the encoder. */
  predicate HoldsVal(l: LType, v: Val)
    decreases l
  {
    match l
    case Bytes(_) => v.Blob? && |v.data| <= PB_SIZE_MAX
    case String(size) => v.Blob? && |v.data| <= size
    case SubMessage(d) => v.Sub? && HoldsMsg(d, v.msg) && Countable(Enc(d, v.msg))
    case _ => FitsVal(l, v)
  }

  predicate HoldsField(f: Field, v: Val, which: map<nat, nat>)
    decreases f
  {
    match f.h
    case Optional => v.Opt? && (v.has ==> HoldsVal(f.l, v.v))
    case OneOf(g) => Which(which, g) == f.tag ==> HoldsVal(f.l, v)
    case Repeated(_) =>
      && v.Rep? && (f.l.Packable() ==> Countable(PackedItems(f.l, v.items)))
      && forall i :: 0 <= i < |v.items| ==> HoldsVal(f.l, v.items[i])
    case _ => HoldsVal(f.l, v)
  }

  predicate HoldsMsg(d: Desc, m: Msg)
    decreases d
  {
    && |m.vals| == |d.fields|
    && (forall i :: 0 <= i < |d.fields| ==> HoldsField(d.fields[i], m.vals[i], m.which))
  }

  /** Length of the string in a buffer, counted up to the terminator or the end. */
  method StringLength(buf: seq<Byte>) returns (size: nat)
    ensures size == |CString(buf)|
  {
    size := 0;
    while size < |buf| && buf[size] != 0
      invariant size <= |buf| && |CString(buf)| == size + |CString(buf[size..])|
    {
      assert buf[size..][1..] == buf[size + 1..];
      size := size + 1;
    }
  }

  /** `pb_enc_bytes`, `pb_enc_string` and `pb_enc_fixed_length_bytes`. */
  method EncodeBlob(s: OStream, l: LType, data: seq<Byte>) returns (ok: bool)
    requires s.Valid() && ValidLType(l) && (l.Bytes? || l.String? || l.FixedBytes?) && HoldsVal(l, Blob(data))
    modifies s, s.buf
    ensures s.Valid() && Outcome(old(s.Snap()), s.Snap(), ok, Payload(l, Blob(data)))
  {
    match l
    case Bytes(capacity) =>
      if |data| > capacity { return false; }
      ok := s.EncodeString(data);
    case String(size) =>
      var n := StringLength(data);
      if n == |data| || n >= size { return false; }   // no terminator within the array
      ok := s.EncodeString(data[..n]);
    case FixedBytes(size) =>
      ok := s.EncodeString(data);
  }

  // ----- the default test, a loop over the fields with an early exit -----

  method CheckDefaultVal(l: LType, v: Val) returns (r: bool)
    requires HoldsVal(l, v)
    ensures r == IsDefaultVal(l, v)
    decreases l, 0
  {
    match v
    case Num(n) => r := n == 0;
    case Blob(data) =>
      if l.Bytes? { r := data == []; }
      else if l.String? { r := data == [] || data[0] == 0; }
      else { r := false; }
    case Sub(m) => r := CheckDefaultMsg(l.desc, m);
    case _ => r := false;
  }

  method CheckDefaultField(f: Field, v: Val, which: map<nat, nat>) returns (r: bool)
    requires HoldsField(f, v, which)
    ensures r == IsDefaultField(f, v, which)
    decreases f
  {
    match f.h
    case Required => r := false;
    case Repeated(_) => r := |v.items| == 0;
    case OneOf(g) => r := Which(which, g) == 0;
    case Optional => r := !v.has;
    case Singular => r := CheckDefaultVal(f.l, v);
  }

  method CheckDefaultMsg(d: Desc, m: Msg) returns (r: bool)
    requires HoldsMsg(d, m)
    ensures r == IsDefaultFields(d.fields, m.vals, m.which)
    decreases d
  {
    var i := 0;
    while i < |d.fields|
      invariant i <= |d.fields|
      invariant IsDefaultFields(d.fields, m.vals, m.which) == IsDefaultFields(d.fields[i..], m.vals[i..], m.which)
    {
      assert d.fields[i..][1..] == d.fields[i + 1..] && m.vals[i..][1..] == m.vals[i + 1..];
      var isDefault := CheckDefaultField(d.fields[i], m.vals[i], m.which);
      if !isDefault { return false; }
      i := i + 1;
    }
    return true;
  }

  // ----- fields and messages -----

  /** What comes after the tag. */
  method EncodePayload(s: OStream, l: LType, v: Val) returns (ok: bool)
    requires s.Valid() && ValidLType(l) && HoldsVal(l, v)
    modifies s, s.buf
    ensures s.Valid() && Outcome(old(s.Snap()), s.Snap(), ok, Payload(l, v))
    decreases l, 0
  {
    match v
    case Num(n) => ok := EncodeNumber(s, l, n);
    case Blob(data) => ok := EncodeBlob(s, l, data);
    case Sub(m) => ok := EncodeSubMessage(s, l.desc, m);
    case _ => return false;
  }

  /** `pb_encode_submessage`: size with a counting stream, write the length, then write the message
      into a window of exactly that size. */
  method EncodeSubMessage(s: OStream, d: Desc, m: Msg) returns (ok: bool)
    requires s.Valid() && ValidDesc(d) && HoldsMsg(d, m) && Countable(Enc(d, m))
    modifies s, s.buf
    ensures s.Valid()
    ensures Outcome(old(s.Snap()), s.Snap(), ok, match Enc(d, m) case None => None case Some(e) => Some(Delimited(e)))
    decreases d, 2
  {
    var sub := new OStream.Sizing();
    ok := Encode(sub, d, m);
    if !ok { return false; }
    ghost var e := Enc(d, m).value;
    var size := sub.written;
    ghost var o := s.Snap();
    ok := s.EncodeVarint(size);
    ghost var o1 := s.Snap();
    if !ok {
      FailsAtFirst(o, o1, Some(V.Varint(size)), Some(e));
      return false;
    }
    if s.sizing {
      ok := s.WriteCount(e, size);
      InSequence(o, o1, s.Snap(), true, Some(V.Varint(size)), Some(e));
      return;
    }
    ok := EncodeWindow(s, d, m, size);
    InSequence(o, o1, s.Snap(), ok, Some(V.Varint(size)), Some(e));
  }

  /** The writing pass of a submessage, into a window of the counted size. */
  method EncodeWindow(s: OStream, d: Desc, m: Msg, size: nat) returns (ok: bool)
    requires s.Valid() && !s.sizing && ValidDesc(d) && HoldsMsg(d, m)
    requires Enc(d, m).Some? && size == |Enc(d, m).value|
    modifies s, s.buf
    ensures s.Valid() && Outcome(old(s.Snap()), s.Snap(), ok, Enc(d, m))
    decreases d, 1
  {
    ghost var o, e := s.Snap(), Enc(d, m).value;
    if s.written + size > s.maxSize { return false; }
    var window := new OStream.FromBuffer(s.buf, s.pos, size);
    ok := Encode(window, d, m);
    s.written := s.written + window.written;
    s.pos := window.pos;
    assert ok && window.written == size;   // "submsg size changed" cannot happen
    WindowEmits(o, s.Snap(), size, e);
  }

  /** Writing into a window at the end of a stream and moving past it is writing to the stream. */
  lemma WindowEmits(o: OState, o': OState, size: nat, e: seq<Byte>)
    requires ValidState(o) && !o.sizing && |e| == size && Room(o, size)
    requires o' == Emit(OState(false, size, 0, o.pos, o.mem), e).(maxSize := o.maxSize, written := o.written + size)
    ensures Outcome(o, o', true, Some(e))
  {
    EmitConfined(o, e);
  }

  /** `encode_basic_field` */
  method EncodeBasic(s: OStream, l: LType, tag: nat, v: Val) returns (ok: bool)
    requires s.Valid() && ValidLType(l) && HoldsVal(l, v) && 1 <= tag <= PB_SIZE_MAX
    modifies s, s.buf
    ensures s.Valid() && Outcome(old(s.Snap()), s.Snap(), ok, EncBasic(l, tag, v))
    decreases l, 2
  {
    ghost var o := s.Snap();
    ok := EncodeTag(s, WireType(l), tag);
    ghost var o1 := s.Snap();
    if !ok {
      FailsAtFirst(o, o1, Some(TagBytes(tag, WireType(l))), Payload(l, v));
      return false;
    }
    ok := EncodePayload(s, l, v);
    InSequence(o, o1, s.Snap(), ok, Some(TagBytes(tag, WireType(l))), Payload(l, v));
  }

  /** An element of a packed array, by `pb_enc_varint` or `pb_enc_fixed`: never by `pb_enc_bool`. */
  method EncodeItem(s: OStream, l: LType, n: int) returns (ok: bool)
    requires s.Valid() && ValidLType(l) && l.Packable() && FitsVal(l, Num(n))
    modifies s, s.buf
    ensures s.Valid() && Outcome(old(s.Snap()), s.Snap(), ok, PackedItem(l, Num(n)))
  {
    if l.Bool? {
      ok := s.EncodeVarint(V.ToUnsigned64(SignedByte(n)));
    } else {
      ok := EncodeNumber(s, l, n);
    }
  }

  /** The elements of a packed array, or its size when the stream only counts. */
  method EncodeItems(s: OStream, l: LType, vs: seq<Val>) returns (ok: bool)
    requires s.Valid() && ValidLType(l) && l.Packable() && forall i :: 0 <= i < |vs| ==> HoldsVal(l, vs[i])
    modifies s, s.buf
    ensures s.Valid() && Outcome(old(s.Snap()), s.Snap(), ok, PackedItems(l, vs))
  {
    ghost var o := s.Snap();
    ghost var done: seq<Byte> := [];
    EmitNothing(o);
    JoinEmpty(PackedItems(l, vs));
    assert vs[0..] == vs;
    for i := 0 to |vs|
      invariant s.Valid() && Outcome(o, s.Snap(), true, Some(done))
      invariant PackedItems(l, vs) == Join(Some(done), PackedItems(l, vs[i..]))
    {
      assert vs[i..][1..] == vs[i + 1..];
      ghost var o1 := s.Snap();
      ghost var p, rest := PackedItem(l, vs[i]), PackedItems(l, vs[i + 1..]);
      ok := EncodeItem(s, l, vs[i].n);
      InSequence(o, o1, s.Snap(), ok, Some(done), p);
      JoinAssociative(Some(done), p, rest);
      if !ok {
        FailsAtFirst(o, s.Snap(), Join(Some(done), p), rest);
        return false;
      }
      done := done + p.value;
    }
    assert done + [] == done;
    return true;
  }

  lemma JoinAssociative(a: Option<seq<Byte>>, b: Option<seq<Byte>>, c: Option<seq<Byte>>)
    ensures Join(a, Join(b, c)) == Join(Join(a, b), c)
  {
    if a.Some? && b.Some? && c.Some? { assert a.value + (b.value + c.value) == a.value + b.value + c.value; }
  }

  lemma JoinEmpty(a: Option<seq<Byte>>)
    ensures Join(Some([]), a) == a
  {
    if a.Some? { assert [] + a.value == a.value; }
  }

  method EncodeUnpacked(s: OStream, l: LType, tag: nat, vs: seq<Val>) returns (ok: bool)
    requires s.Valid() && ValidLType(l) && 1 <= tag <= PB_SIZE_MAX && forall i :: 0 <= i < |vs| ==> HoldsVal(l, vs[i])
    modifies s, s.buf
    ensures s.Valid() && Outcome(old(s.Snap()), s.Snap(), ok, UnpackedItems(l, tag, vs))
    decreases l, 3
  {
    ghost var o := s.Snap();
    ghost var done: seq<Byte> := [];
    EmitNothing(o);
    JoinEmpty(UnpackedItems(l, tag, vs));
    assert vs[0..] == vs;
    for i := 0 to |vs|
      invariant s.Valid() && Outcome(o, s.Snap(), true, Some(done))
      invariant UnpackedItems(l, tag, vs) == Join(Some(done), UnpackedItems(l, tag, vs[i..]))
    {
      assert vs[i..][1..] == vs[i + 1..];
      ghost var o1 := s.Snap();
      ghost var p, rest := EncBasic(l, tag, vs[i]), UnpackedItems(l, tag, vs[i + 1..]);
      ok := EncodeBasic(s, l, tag, vs[i]);
      InSequence(o, o1, s.Snap(), ok, Some(done), p);
      JoinAssociative(Some(done), p, rest);
      if !ok {
        FailsAtFirst(o, s.Snap(), Join(Some(done), p), rest);
        return false;
      }
      done := done + p.value;
    }
    assert done + [] == done;
    return true;
  }

  /** The packed branch of `encode_array`: tag, length, elements. */
  method EncodePacked(s: OStream, l: LType, tag: nat, vs: seq<Val>) returns (ok: bool)
    requires s.Valid() && ValidLType(l) && l.Packable() && 1 <= tag <= PB_SIZE_MAX && Countable(PackedItems(l, vs))
    requires forall i :: 0 <= i < |vs| ==> HoldsVal(l, vs[i])
    modifies s, s.buf
    ensures s.Valid() && PackedItems(l, vs).Some?
    ensures Outcome(old(s.Snap()), s.Snap(), ok, Some(TagBytes(tag, WT_STRING) + Delimited(PackedItems(l, vs).value)))
  {
    PackedItemsEncode(l, vs);
    ghost var t, p := Some(TagBytes(tag, WT_STRING)), Some(Delimited(PackedItems(l, vs).value));
    ghost var o := s.Snap();
    ok := EncodeTag(s, WT_STRING, tag);
    ghost var o1 := s.Snap();
    if !ok {
      FailsAtFirst(o, o1, t, p);
      return false;
    }
    ok := EncodePackedBody(s, l, vs);
    InSequence(o, o1, s.Snap(), ok, t, p);
  }

  method EncodePackedBody(s: OStream, l: LType, vs: seq<Val>) returns (ok: bool)
    requires s.Valid() && ValidLType(l) && l.Packable() && Countable(PackedItems(l, vs))
    requires forall i :: 0 <= i < |vs| ==> HoldsVal(l, vs[i])
    modifies s, s.buf
    ensures s.Valid() && PackedItems(l, vs).Some?
    ensures Outcome(old(s.Snap()), s.Snap(), ok, Some(Delimited(PackedItems(l, vs).value)))
  {
    ghost var o := s.Snap();
    var size := PackedSize(l, vs);
    ghost var p := PackedItems(l, vs).value;
    ok := s.EncodeVarint(size);
    ghost var o1 := s.Snap();
    if !ok {
      FailsAtFirst(o, o1, Some(V.Varint(size)), Some(p));
      return false;
    }
    if s.sizing {
      ok := s.WriteCount(p, size);
    } else {
      ok := EncodeItems(s, l, vs);
    }
    InSequence(o, o1, s.Snap(), ok, Some(V.Varint(size)), Some(p));
  }

  lemma NumberEncodes(l: LType, n: int)
    requires ValidLType(l) && l.Packable() && FitsVal(l, Num(n))
    ensures PackedItem(l, Num(n)).Some?
    ensures l.Fixed32? ==> |PackedItem(l, Num(n)).value| == 4
    ensures l.Fixed64? ==> |PackedItem(l, Num(n)).value| == 8
  {
    NumberFits64(l, n);
  }

  lemma {:induction false} PackedItemsEncode(l: LType, vs: seq<Val>)
    requires ValidLType(l) && l.Packable() && forall i :: 0 <= i < |vs| ==> HoldsVal(l, vs[i])
    ensures PackedItems(l, vs).Some?
    ensures l.Fixed32? ==> |PackedItems(l, vs).value| == 4 * |vs|
    ensures l.Fixed64? ==> |PackedItems(l, vs).value| == 8 * |vs|
  {
    if vs == [] {
    } else {
      assert FitsVal(l, vs[0]);
      NumberEncodes(l, vs[0].n);
      PackedItemsEncode(l, vs[1..]);
    }
  }

  method PackedSize(l: LType, vs: seq<Val>) returns (size: nat)
    requires ValidLType(l) && l.Packable() && forall i :: 0 <= i < |vs| ==> HoldsVal(l, vs[i])
    ensures PackedItems(l, vs).Some? && size == |PackedItems(l, vs).value|
  {
    PackedItemsEncode(l, vs);
    if l.Fixed32? {
      size := 4 * |vs|;
    } else if l.Fixed64? {
      size := 8 * |vs|;
    } else {
      var sizeStream := new OStream.Sizing();
      var sized := EncodeItems(sizeStream, l, vs);
      size := sizeStream.written;
    }
  }

  /** `encode_array` */
  method EncodeArray(s: OStream, l: LType, tag: nat, max: nat, vs: seq<Val>) returns (ok: bool)
    requires s.Valid() && ValidLType(l) && 1 <= tag <= PB_SIZE_MAX && (l.Packable() ==> Countable(PackedItems(l, vs)))
    requires forall i :: 0 <= i < |vs| ==> HoldsVal(l, vs[i])
    modifies s, s.buf
    ensures s.Valid() && Outcome(old(s.Snap()), s.Snap(), ok, EncArray(l, tag, max, vs))
    decreases l, 4
  {
    if |vs| == 0 {
      EmitNothing(s.Snap());
      return true;
    }
    if |vs| > max { return false; }
    if l.Packable() {
      ok := EncodePacked(s, l, tag, vs);
    } else {
      ok := EncodeUnpacked(s, l, tag, vs);
    }
  }

  /** `encode_field` */
  method EncodeField(s: OStream, f: Field, v: Val, which: map<nat, nat>) returns (ok: bool)
    requires s.Valid() && ValidLType(f.l) && HoldsField(f, v, which) && 1 <= f.tag <= PB_SIZE_MAX
    modifies s, s.buf
    ensures s.Valid() && Outcome(old(s.Snap()), s.Snap(), ok, EncField(f, v, which))
    decreases f, 1
  {
    match f.h
    case OneOf(g) =>
      EmitNothing(s.Snap());
      if Which(which, g) != f.tag { return true; }
      ok := EncodeBasic(s, f.l, f.tag, v);
    case Optional =>
      EmitNothing(s.Snap());
      if !v.has { return true; }
      ok := EncodeBasic(s, f.l, f.tag, v.v);
    case Singular =>
      ok := EncodeSingular(s, f, v);
    case Repeated(max) =>
      ok := EncodeArray(s, f.l, f.tag, max, v.items);
    case Required =>
      ok := EncodeBasic(s, f.l, f.tag, v);
  }

  /** The branch for proto3 fields, which are left out when they have their default value. */
  method EncodeSingular(s: OStream, f: Field, v: Val) returns (ok: bool)
    requires s.Valid() && ValidLType(f.l) && HoldsVal(f.l, v) && 1 <= f.tag <= PB_SIZE_MAX && f.h == Singular
    modifies s, s.buf
    ensures s.Valid() && Outcome(old(s.Snap()), s.Snap(), ok, EncField(f, v, map[]))
    decreases f, 0
  {
    EmitNothing(s.Snap());
    var isDefault := CheckDefaultVal(f.l, v);
    if isDefault { return true; }
    ok := EncodeBasic(s, f.l, f.tag, v);
  }

  /** `pb_encode`. It succeeds exactly when the message has an encoding and the stream has room for
      all of it; a counting stream ends up with its length, a buffer with its bytes, and in every
      case nothing outside the stream's window is written. */
  method Encode(s: OStream, d: Desc, m: Msg) returns (ok: bool)
    requires s.Valid() && ValidDesc(d) && HoldsMsg(d, m)
    modifies s, s.buf
    ensures s.Valid() && Outcome(old(s.Snap()), s.Snap(), ok, Enc(d, m))
    decreases d, 0
  {
    ghost var o := s.Snap();
    ghost var done: seq<Byte> := [];
    EmitNothing(o);
    JoinEmpty(Enc(d, m));
    assert d.fields[0..] == d.fields && m.vals[0..] == m.vals;
    var i := 0;
    while i < |d.fields|
      invariant i <= |d.fields| && s.Valid() && Outcome(o, s.Snap(), true, Some(done))
      invariant Enc(d, m) == Join(Some(done), EncFields(d.fields[i..], m.vals[i..], m.which))
    {
      assert d.fields[i..][1..] == d.fields[i + 1..] && m.vals[i..][1..] == m.vals[i + 1..];
      ghost var o1 := s.Snap();
      ghost var e := EncField(d.fields[i], m.vals[i], m.which);
      ghost var rest := EncFields(d.fields[i + 1..], m.vals[i + 1..], m.which);
      ok := EncodeField(s, d.fields[i], m.vals[i], m.which);
      InSequence(o, o1, s.Snap(), ok, Some(done), e);
      JoinAssociative(Some(done), e, rest);
      if !ok {
        FailsAtFirst(o, s.Snap(), Join(Some(done), e), rest);
        return false;
      }
      done := done + e.value;
      i := i + 1;
    }
    assert done + [] == done;
    return true;
  }

  /** `pb_get_encoded_size`: a counting pass finds the exact number of bytes a writing pass needs. */
  method GetEncodedSize(d: Desc, m: Msg) returns (ok: bool, size: nat)
    requires ValidDesc(d) && HoldsMsg(d, m)
    ensures ok <==> Enc(d, m).Some?
    ensures ok ==> size == |Enc(d, m).value|
  {
    var stream := new OStream.Sizing();
    size := 0;
    ok := Encode(stream, d, m);
    if ok { size := stream.written; }
  }

  datatype Flag = Plain | DelimitedMessage | NullTerminated

  /** What `pb_encode_ex` writes. */
  function EncEx(d: Desc, m: Msg, flag: Flag): Option<seq<Byte>> {
    match flag
    case Plain => Enc(d, m)
    case DelimitedMessage => (match Enc(d, m) case None => None case Some(e) => Some(Delimited(e)))
    case NullTerminated => Join(Enc(d, m), Some([0]))
  }

  /** `pb_encode_ex` */
  method EncodeEx(s: OStream, d: Desc, m: Msg, flag: Flag) returns (ok: bool)
    requires s.Valid() && ValidDesc(d) && HoldsMsg(d, m) && Countable(Enc(d, m))
    modifies s, s.buf
    ensures s.Valid() && Outcome(old(s.Snap()), s.Snap(), ok, EncEx(d, m, flag))
  {
    match flag
    case DelimitedMessage =>
      ok := EncodeSubMessage(s, d, m);
    case NullTerminated =>
      ghost var o := s.Snap();
      ok := Encode(s, d, m);
      ghost var o1 := s.Snap();
      if !ok {
        FailsAtFirst(o, o1, Enc(d, m), Some([0]));
        return false;
      }
      ok := s.Write([0]);
      InSequence(o, o1, s.Snap(), ok, Enc(d, m), Some([0]));
    case Plain =>
      ok := Encode(s, d, m);
  }

  /** The counting pass and the writing pass agree: writing into a window of n bytes succeeds exactly
      when counting succeeds with at most n, and then writes exactly as many bytes. */
  lemma CountingPredictsWriting(sized0: OState, sized1: OState, sizedOk: bool, window0: OState, window1: OState,
                                ok: bool, n: nat, e: Option<seq<Byte>>)
    requires Outcome(sized0, sized1, sizedOk, e) && sized0.sizing && sized0.written == 0
    requires Outcome(window0, window1, ok, e) && !window0.sizing && window0.written == 0 && window0.maxSize == n
    ensures ok <==> sizedOk && sized1.written <= n
    ensures ok ==> window1.written == sized1.written
  {
  }
}
