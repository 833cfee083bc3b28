/** The encoder and the decoder put together: writing a message and reading it back, for every schema. */
module EndToEnd {
  import opened Basics
  import opened Schema
  import opened Encoding
  import opened RoundTrip
  import opened Defaults
  import opened OutputStream
  import opened InputStream
  import opened Encoder
  import opened Decoder
  import D = Decoding

  // ----- a message in range with a short encoding is one the encoder can take -----

  predicate Short(e: Option<seq<Byte>>) { e.Some? && |e.value| < TWO_TO_THE_32 }

  lemma ShortParts(a: Option<seq<Byte>>, b: Option<seq<Byte>>)
    requires Short(Join(a, b))
    ensures Short(a) && Short(b)
  {
  }

  lemma {:induction false} FitsHolds(l: LType, v: Val)
    requires ValidLType(l) && FitsVal(l, v) && Short(Payload(l, v))
    ensures HoldsVal(l, v)
    decreases l, 0
  {
    if l.SubMessage? { FitsHoldsMsg(l.desc, v.msg); }
  }

  lemma {:induction false} FitsHoldsItems(l: LType, tag: nat, vs: seq<Val>)
    requires ValidLType(l) && (forall i :: 0 <= i < |vs| ==> FitsVal(l, vs[i]))
    requires Short(UnpackedItems(l, tag, vs))
    ensures forall i :: 0 <= i < |vs| ==> HoldsVal(l, vs[i])
    decreases l, 1, |vs|
  {
    if vs == [] {
    } else {
      ShortParts(EncBasic(l, tag, vs[0]), UnpackedItems(l, tag, vs[1..]));
      ShortParts(Some(TagBytes(tag, WireType(l))), Payload(l, vs[0]));
      FitsHolds(l, vs[0]);
      FitsHoldsItems(l, tag, vs[1..]);
    }
  }

  lemma DefaultIsShort(l: LType, v: Val)
    requires ValidLType(l) && FitsVal(l, v) && IsDefaultVal(l, v)
    ensures Short(Payload(l, v))
  {
    if l.SubMessage? { DefaultsHaveNoBytes(l.desc.fields, v.msg.vals, v.msg.which); }
    else if l.String? { CStringStops(v.data); }
    else if l.Packable() { ZeroIsShort(l, v); }
  }

  lemma ZeroIsShort(l: LType, v: Val)
    requires l.Packable() && v == Num(0)
    ensures Short(Payload(l, v))
  {
  }

  lemma {:induction false} FitsHoldsField(f: Field, v: Val, which: map<nat, nat>)
    requires ValidLType(f.l) && FitsField(f, v, which) && Short(EncField(f, v, which))
    ensures HoldsField(f, v, which)
    decreases f, 2
  {
    match f.h
    case Repeated(max) => ArrayHolds(f, v.items, max);
    case Optional => if v.has { BasicHolds(f, v.v); }
    case OneOf(g) => if Which(which, g) == f.tag { BasicHolds(f, v); }
    case Required => BasicHolds(f, v);
    case Singular =>
      if IsDefaultVal(f.l, v) {
        DefaultIsShort(f.l, v);
        FitsHolds(f.l, v);
      } else {
        assert EncField(f, v, which) == EncBasic(f.l, f.tag, v);
        BasicHolds(f, v);
      }
  }

  lemma {:induction false} BasicHolds(f: Field, v: Val)
    requires ValidLType(f.l) && FitsVal(f.l, v) && Short(EncBasic(f.l, f.tag, v))
    ensures HoldsVal(f.l, v)
    decreases f, 1
  {
    ShortParts(Some(TagBytes(f.tag, WireType(f.l))), Payload(f.l, v));
    FitsHolds(f.l, v);
  }

  lemma {:induction false} ArrayHolds(f: Field, vs: seq<Val>, max: nat)
    requires ValidLType(f.l) && (forall i :: 0 <= i < |vs| ==> FitsVal(f.l, vs[i]))
    requires f.h == Repeated(max) && Short(EncArray(f.l, f.tag, max, vs))
    ensures HoldsField(f, Rep(vs), map[])
    decreases f, 1
  {
    if vs != [] && !f.l.Packable() { FitsHoldsItems(f.l, f.tag, vs); }
  }

  lemma {:induction false} FitsHoldsFields(fs: seq<Field>, vs: seq<Val>, which: map<nat, nat>)
    requires |fs| == |vs|
    requires forall i :: 0 <= i < |fs| ==> ValidLType(fs[i].l) && FitsField(fs[i], vs[i], which)
    requires Short(EncFields(fs, vs, which))
    ensures forall i :: 0 <= i < |fs| ==> HoldsField(fs[i], vs[i], which)
    decreases fs, 3
  {
    if fs == [] {
    } else {
      ShortParts(EncField(fs[0], vs[0], which), EncFields(fs[1..], vs[1..], which));
      FitsHoldsField(fs[0], vs[0], which);
      FitsHoldsFields(fs[1..], vs[1..], which);
      forall i | 0 <= i < |fs| ensures HoldsField(fs[i], vs[i], which) {
        if i > 0 { assert fs[i] == fs[1..][i - 1] && vs[i] == vs[1..][i - 1]; }
      }
    }
  }

  /** Range and length are all the encoder asks for. */
  lemma {:induction false} FitsHoldsMsg(d: Desc, m: Msg)
    requires ValidDesc(d) && FitsMsg(d, m) && Short(Enc(d, m))
    ensures HoldsMsg(d, m)
    decreases d, 4
  {
    FitsHoldsFields(d.fields, m.vals, m.which);
  }

  // ----- the methods put together -----

  /** `pb_get_encoded_size`, `pb_encode` into a buffer of that size, and `pb_decode` of the bytes:
      every message in range comes back equal. */
  method WriteAndRead(d: Desc, m: Msg) returns (ok: bool, m': Msg)
    requires ValidDesc(d) && FitsMsg(d, m) && (Enc(d, m).Some? ==> |Enc(d, m).value| < TWO_TO_THE_32)
    ensures ok && m' == CanonMsg(d, m)
  {
    DecodeUndoesEncode(d, m);
    FitsHoldsMsg(d, m);
    var size;
    ok, size := GetEncodedSize(d, m);
    var buf := new Byte[size](_ => 0);
    var output := new OStream.FromBuffer(buf, 0, size);
    ok := Encode(output, d, m);
    assert buf[..] == Enc(d, m).value;
    var input := new IStream(buf[..], 0, size);
    assert input.Rest() == buf[..];
    ok, m' := PbDecode(input, d);
  }

  /** A counting pass and then a writing pass into the first n bytes of a buffer: writing succeeds
      exactly when counting does with at most n, and writes exactly as many bytes. */
  method CountAndWrite(d: Desc, m: Msg, buf: array<Byte>, n: nat)
    returns (counted: bool, size: nat, ok: bool, written: nat)
    requires ValidDesc(d) && HoldsMsg(d, m) && n <= buf.Length
    modifies buf
    ensures ok <==> counted && size <= n
    ensures ok ==> written == size
    ensures buf[n..] == old(buf[n..])
  {
    var counter := new OStream.Sizing();
    ghost var c := counter.Snap();
    counted := Encode(counter, d, m);
    size := counter.written;
    var output := new OStream.FromBuffer(buf, 0, n);
    ghost var o := output.Snap();
    ok := Encode(output, d, m);
    written := output.written;
    CountingPredictsWriting(c, counter.Snap(), counted, o, output.Snap(), ok, n, Enc(d, m));
  }

  // ----- the forms of `pb_encode_ex` -----

  /** A delimited message can be cut off the front of whatever follows it, and what is cut off decodes. */
  lemma DelimitedComesBack(d: Desc, m: Msg, rest: seq<Byte>)
    requires ValidDesc(d) && FitsMsg(d, m) && Short(Enc(d, m))
    ensures EncEx(d, m, DelimitedMessage).Some?
    ensures var e := EncEx(d, m, DelimitedMessage).value;
      && D.ReadDelimited(e + rest) == Some((Enc(d, m).value, |e|))
      && D.Decode(d, D.ReadDelimited(e + rest).value.0) == Some(CanonMsg(d, m))
  {
    DelimitedRoundTrip(Enc(d, m).value, rest);
    DecodeUndoesEncode(d, m);
  }

  /** The NUL-terminated form is the message and one byte 0, which reads as field number 0: no field has it. */
  lemma TerminatorIsNoField(d: Desc, m: Msg, rest: seq<Byte>)
    requires ValidDesc(d) && Enc(d, m).Some?
    ensures EncEx(d, m, NullTerminated).Some?
    ensures var e := EncEx(d, m, NullTerminated).value;
      && |e| == |Enc(d, m).value| + 1 && e[..|e| - 1] == Enc(d, m).value
      && D.DecTag(e[|e| - 1..] + rest) == Some((0, 0, 1)) && D.FindField(d.fields, 0).None?
  {
    var e := EncEx(d, m, NullTerminated).value;
    assert e[|e| - 1..] == [0];
  }
}
