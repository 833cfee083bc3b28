/** Decoding undoes encoding, for every schema of static fields and every message in range. */
module RoundTrip {
  import opened Basics
  import opened Schema
  import opened Encoding
  import opened Decoding
  import V = Base128

  // ----- scalars -----

  lemma {:induction false} LittleEndianRoundTrip(v: nat, n: nat)
    requires v < Pow256(n)
    ensures FromLittleEndian(LittleEndian(v, n)) == v
  {
    if n == 0 {
    } else {
      LittleEndianRoundTrip(v / 256, n - 1);
      assert LittleEndian(v, n)[1..] == LittleEndian(v / 256, n - 1);
    }
  }

  lemma Powers()
    ensures Pow256(1) == 256 && Pow256(2) == 65536 && Pow256(4) == TWO_TO_THE_32 && Pow256(8) == TWO_TO_THE_64
  {
    assert Pow256(3) == 256 * Pow256(2);
    assert Pow256(5) == 256 * Pow256(4) && Pow256(6) == 256 * Pow256(5) && Pow256(7) == 256 * Pow256(6);
  }

  lemma DelimitedRoundTrip(data: seq<Byte>, rest: seq<Byte>)
    requires |data| < TWO_TO_THE_32
    ensures ReadDelimited(Delimited(data) + rest) == Some((data, |Delimited(data)|))
  {
    V.Read32OfUint32(|data|, data + rest);
    assert Delimited(data) + rest == V.Varint(|data|) + (data + rest);
  }

  lemma ClampRoundTrip(l: LType, n: int, u: nat)
    requires l.Varint? || l.UVarint? || l.SVarint?
    requires ValidLType(l) && FitsVal(l, Num(n)) && Payload(l, Num(n)) == Some(V.Varint(u))
    requires u == if l.Varint? then V.ToUnsigned64(n) else if l.SVarint? then V.ZigZag(n) else n
    ensures u < TWO_TO_THE_64 && Clamp(l, u) == Some(Num(n))
  {
    Powers();
    if l.SVarint? { V.ZigZagInverse(n); }
    if l.Varint? { SignedWord(n, u, l.size); }
  }

  /** Casting the word of a signed number back to 32 or 64 bits restores the number. */
  lemma SignedWord(n: int, u: nat, size: nat)
    requires ValidSize(size) && InSigned(n, size) && u == V.ToUnsigned64(n)
    ensures u < TWO_TO_THE_64
    ensures n == if size == 8 then V.ToSigned64(u) else ToSigned32(u % TWO_TO_THE_32)
  {
    Powers();
    if size != 8 {
      assert -TWO_TO_THE_31 <= n < TWO_TO_THE_31;
      if n < 0 { assert u % TWO_TO_THE_32 == n + TWO_TO_THE_32; }
    }
  }

  lemma NumberRoundTrip(l: LType, wt: nat, v: Val, rest: seq<Byte>)
    requires ValidLType(l) && FitsVal(l, v) && l.Packable() && AcceptsWireType(l, wt)
    ensures Payload(l, v).Some?
    ensures DecScalar(l, wt, Payload(l, v).value + rest) == Some((CanonVal(l, v), |Payload(l, v).value|))
  {
    if l.Bool? {
      V.Read32OfUint32(if v.n == 0 then 0 else 1, rest);
    } else if l.Fixed32? || l.Fixed64? {
      Powers();
      var size := if l.Fixed32? then 4 else 8;
      LittleEndianRoundTrip(v.n, size);
      FixedBytesBack(v.n, size, rest);
    } else {
      VarintFieldRoundTrip(l, wt, v, rest);
    }
  }

  /** A bool in a packed array is written as a signed byte, and read as whether that is not zero. */
  lemma BoolItemRoundTrip(v: Val, rest: seq<Byte>)
    requires FitsVal(Bool, v)
    ensures PackedItem(Bool, v).Some?
    ensures DecScalar(Bool, WT_PACKED, PackedItem(Bool, v).value + rest)
         == Some((CanonVal(Bool, v), |PackedItem(Bool, v).value|))
  {
    var b := SignedByte(v.n);
    if b >= 0 {
      V.Read32OfUint32(b, rest);
    } else {
      V.Read32OfNegative(b, rest);
      V.LongVarint(V.ToUnsigned64(b));
    }
  }

  lemma ItemRoundTrip(l: LType, v: Val, rest: seq<Byte>)
    requires ValidLType(l) && FitsVal(l, v) && l.Packable()
    ensures PackedItem(l, v).Some?
    ensures DecScalar(l, WT_PACKED, PackedItem(l, v).value + rest) == Some((CanonVal(l, v), |PackedItem(l, v).value|))
  {
    if l.Bool? { BoolItemRoundTrip(v, rest); } else { NumberRoundTrip(l, WT_PACKED, v, rest); }
  }

  /** The unsigned word that goes on the wire. */
  function WireWord(l: LType, n: int): int {
    if l.Varint? then V.ToUnsigned64(n) else if l.SVarint? then V.ZigZag(n) else n
  }

  lemma WordIsPayload(l: LType, n: int)
    requires l.Varint? || l.UVarint? || l.SVarint?
    requires ValidLType(l) && FitsVal(l, Num(n))
    ensures 0 <= WireWord(l, n) < TWO_TO_THE_64 && Payload(l, Num(n)) == Some(V.Varint(WireWord(l, n)))
    ensures Clamp(l, WireWord(l, n)) == Some(Num(n))
  {
    Powers();
    if l.SVarint? { V.ZigZagInverse(n); }
    ClampRoundTrip(l, n, WireWord(l, n));
  }

  lemma WordIsRead(l: LType, wt: nat, bs: seq<Byte>, u: nat, k: nat, x: Val)
    requires (l.Varint? || l.UVarint? || l.SVarint?) && AcceptsWireType(l, wt)
    requires V.Read64(bs, 0) == Some((u, k)) && Clamp(l, u) == Some(x)
    ensures DecScalar(l, wt, bs) == Some((x, k))
  {
  }

  lemma VarintFieldRoundTrip(l: LType, wt: nat, v: Val, rest: seq<Byte>)
    requires l.Varint? || l.UVarint? || l.SVarint?
    requires ValidLType(l) && FitsVal(l, v) && AcceptsWireType(l, wt)
    ensures Payload(l, v).Some?
    ensures DecScalar(l, wt, Payload(l, v).value + rest) == Some((v, |Payload(l, v).value|))
  {
    var u := WireWord(l, v.n);
    WordIsPayload(l, v.n);
    V.VarintRoundTrip(u, rest);
    WordIsRead(l, wt, V.Varint(u) + rest, u, |V.Varint(u)|, v);
  }

  lemma FixedBytesBack(v: nat, n: nat, rest: seq<Byte>)
    ensures ReadBytes(LittleEndian(v, n) + rest, n) == Some((LittleEndian(v, n), n))
  {
    assert (LittleEndian(v, n) + rest)[..n] == LittleEndian(v, n);
  }

  lemma {:induction false} CStringStops(data: seq<Byte>)
    ensures CString(data) == data <==> 0 !in data
  {
    if data == [] || data[0] == 0 {
    } else {
      CStringStops(data[1..]);
    }
  }

  lemma StoreRoundTrip(l: LType, v: Val, data: seq<Byte>)
    requires ValidLType(l) && FitsVal(l, v) && (l.Bytes? || l.String? || l.FixedBytes?)
    requires data == if l.String? then CString(v.data) else v.data
    ensures Payload(l, v) == Some(Delimited(data)) && |data| < TWO_TO_THE_32
    ensures Store(l, data) == Some(CanonVal(l, v))
  {
    CStringStops(v.data);
    if l.String? { assert |CString(v.data)| < |v.data|; }
  }

  lemma BlobRoundTrip(l: LType, v: Val, rest: seq<Byte>)
    requires ValidLType(l) && FitsVal(l, v) && (l.Bytes? || l.String? || l.FixedBytes?)
    ensures Payload(l, v).Some?
    ensures DecScalar(l, WT_STRING, Payload(l, v).value + rest) == Some((CanonVal(l, v), |Payload(l, v).value|))
  {
    var data := if l.String? then CString(v.data) else v.data;
    StoreRoundTrip(l, v, data);
    DelimitedRoundTrip(data, rest);
  }

  // ----- records -----

  lemma {:induction false} FindFieldIs(fs: seq<Field>, i: nat)
    requires i < |fs| && forall a, b :: 0 <= a < b < |fs| ==> fs[a].tag < fs[b].tag
    ensures FindField(fs, fs[i].tag) == Some(i)
  {
  }

  lemma TagRoundTrip(tag: nat, wt: nat, rest: seq<Byte>)
    requires tag <= PB_SIZE_MAX && wt < 8
    ensures DecTag(TagBytes(tag, wt) + rest) == Some((tag, wt, |TagBytes(tag, wt)|))
  {
    TagParts(tag, wt);
    V.Read32OfUint32(8 * tag + wt, rest);
  }

  lemma TagParts(tag: nat, wt: nat)
    requires wt < 8
    ensures (8 * tag + wt) / 8 == tag && (8 * tag + wt) % 8 == wt
  {
  }

  lemma RecordIs(d: Desc, i: nat, wt: nat, body: seq<Byte>, m: Msg, seen: set<nat>)
    requires ValidDesc(d) && |m.vals| == |d.fields| && i < |d.fields| && wt < 8
    requires DecField(d.fields[i], i, wt, body, m).Some?
    ensures var (m', k) := DecField(d.fields[i], i, wt, body, m).value;
      var t := TagBytes(d.fields[i].tag, wt);
      DecRecord(d, t + body, m, seen) == Some((m', Mark(d.fields, i, seen), |t| + k))
  {
    var t := TagBytes(d.fields[i].tag, wt);
    TagRoundTrip(d.fields[i].tag, wt, body);
    FindFieldIs(d.fields, i);
    assert (t + body)[|t|..] == body;
  }

  lemma DropTag(t: seq<Byte>, body: seq<Byte>, k: nat)
    requires k <= |body|
    ensures (t + body)[|t| + k..] == body[k..]
  {
  }

  lemma LoopStep(d: Desc, bs: seq<Byte>, m: Msg, seen: set<nat>, m': Msg, seen': set<nat>, n: nat)
    requires |m.vals| == |d.fields| && |bs| > 0 && DecRecord(d, bs, m, seen) == Some((m', seen', n))
    ensures 0 < n <= |bs| && Loop(d, bs, m, seen) == Loop(d, bs[n..], m', seen')
  {
  }

  /** A tag followed by something the field accepts is one turn of the loop. */
  lemma RecordStep(d: Desc, i: nat, wt: nat, body: seq<Byte>, m: Msg, seen: set<nat>)
    requires ValidDesc(d) && |m.vals| == |d.fields| && i < |d.fields| && wt < 8
    requires DecField(d.fields[i], i, wt, body, m).Some?
    ensures var (m', k) := DecField(d.fields[i], i, wt, body, m).value;
            Loop(d, TagBytes(d.fields[i].tag, wt) + body, m, seen) == Loop(d, body[k..], m', Mark(d.fields, i, seen))
  {
    var t := TagBytes(d.fields[i].tag, wt);
    var (m', k) := DecField(d.fields[i], i, wt, body, m).value;
    RecordIs(d, i, wt, body, m, seen);
    LoopStep(d, t + body, m, seen, m', Mark(d.fields, i, seen), |t| + k);
    DropTag(t, body, k);
  }

  // ----- default values are restored -----

  lemma {:induction false} DefaultIsCanon(l: LType, v: Val)
    requires ValidLType(l) && FitsVal(l, v) && IsDefaultVal(l, v)
    ensures CanonVal(l, v) == DefaultVal(l)
    decreases l, 0
  {
    if l.SubMessage? { DefaultMsgIsCanon(l.desc, v.msg); }
  }

  lemma {:induction false} DefaultMsgIsCanon(d: Desc, m: Msg)
    requires ValidDesc(d) && FitsMsg(d, m) && IsDefaultFields(d.fields, m.vals, m.which)
    ensures CanonMsg(d, m) == DefaultMsg(d)
    decreases d, 2
  {
    DefaultFieldsAreDefault(d.fields, m.vals, m.which);
    forall i | 0 <= i < |d.fields|
      ensures CanonField(d.fields[i], m.vals[i], m.which) == DefaultField(d.fields[i])
    {
      DefaultFieldIsCanon(d.fields[i], m.vals[i], m.which);
    }
    assert CanonFields(d.fields, m.vals, m.which) == DefaultFields(d.fields);
    NoneActive(d, m);
  }

  /** In a message of defaults every oneof is unset. */
  lemma NoneActive(d: Desc, m: Msg)
    requires ValidDesc(d) && |m.vals| == |d.fields| && FitsWhich(d.fields, m.which)
    requires forall i :: 0 <= i < |d.fields| ==> IsDefaultField(d.fields[i], m.vals[i], m.which)
    ensures CanonWhich(m.which) == map[]
  {
  }

  lemma {:induction false} DefaultFieldIsCanon(f: Field, v: Val, which: map<nat, nat>)
    requires f.tag != 0 && ValidLType(f.l) && FitsField(f, v, which) && IsDefaultField(f, v, which)
    ensures CanonField(f, v, which) == DefaultField(f)
    decreases f, 1
  {
    if f.h.Singular? { DefaultIsCanon(f.l, v); }
  }

  lemma {:induction false} DefaultFieldsAreDefault(fs: seq<Field>, vs: seq<Val>, which: map<nat, nat>)
    requires |fs| == |vs| && IsDefaultFields(fs, vs, which)
    ensures forall i :: 0 <= i < |fs| ==> IsDefaultField(fs[i], vs[i], which)
  {
    if fs == [] {
    } else {
      DefaultFieldsAreDefault(fs[1..], vs[1..], which);
      forall i | 0 <= i < |fs| ensures IsDefaultField(fs[i], vs[i], which) {
        if i > 0 { assert fs[i] == fs[1..][i - 1] && vs[i] == vs[1..][i - 1]; }
      }
    }
  }

  // ----- every message in range can be encoded -----

  lemma {:induction false} EncodesVal(l: LType, v: Val)
    requires ValidLType(l) && FitsVal(l, v)
    ensures Payload(l, v).Some?
    decreases l, 0
  {
    if l.SubMessage? { Encodes(l.desc, v.msg); }
    else if l.Packable() { NumberRoundTrip(l, WireType(l), v, []); }
    else { BlobRoundTrip(l, v, []); }
  }

  lemma JoinsSome(a: Option<seq<Byte>>, b: Option<seq<Byte>>)
    requires a.Some? && b.Some?
    ensures Join(a, b).Some?
  {
  }

  lemma {:induction false} EncodesItems(l: LType, tag: nat, vs: seq<Val>)
    requires ValidLType(l) && forall i :: 0 <= i < |vs| ==> FitsVal(l, vs[i])
    ensures PackedItems(l, vs).Some? && UnpackedItems(l, tag, vs).Some?
    decreases l, 1, |vs|
  {
    if vs == [] {
    } else {
      EncodesVal(l, vs[0]);
      EncodesItems(l, tag, vs[1..]);
      JoinsSome(EncBasic(l, tag, vs[0]), UnpackedItems(l, tag, vs[1..]));
      JoinsSome(PackedItem(l, vs[0]), PackedItems(l, vs[1..]));
    }
  }

  lemma {:induction false} EncodesField(f: Field, v: Val, which: map<nat, nat>)
    requires ValidLType(f.l) && FitsField(f, v, which)
    ensures EncField(f, v, which).Some?
    decreases f
  {
    match f.h
    case Repeated(_) => EncodesItems(f.l, f.tag, v.items);
    case Optional => if v.has { EncodesVal(f.l, v.v); }
    case OneOf(g) => if Which(which, g) == f.tag { EncodesVal(f.l, v); }
    case _ => EncodesVal(f.l, v);
  }

  lemma {:induction false} EncodesFields(fs: seq<Field>, vs: seq<Val>, which: map<nat, nat>)
    requires |fs| == |vs|
    requires forall i :: 0 <= i < |fs| ==> ValidLType(fs[i].l) && FitsField(fs[i], vs[i], which)
    ensures EncFields(fs, vs, which).Some?
    decreases fs
  {
    if fs == [] {
    } else {
      EncodesField(fs[0], vs[0], which);
      EncodesFields(fs[1..], vs[1..], which);
    }
  }

  lemma {:induction false} Encodes(d: Desc, m: Msg)
    requires ValidDesc(d) && FitsMsg(d, m)
    ensures Enc(d, m).Some?
    decreases d
  {
    EncodesFields(d.fields, m.vals, m.which);
  }

  // ----- the decoder's state after the first `i` fields -----

  /** The `which_` variables that the first `i` fields have set. */
  ghost function WhichUpTo(fs: seq<Field>, which: map<nat, nat>, i: nat): map<nat, nat>
    requires i <= |fs|
  {
    map g | g in which && which[g] != 0 && ChosenBefore(fs, which, g, i) :: which[g]
  }

  /** The active member of a group is among the first i fields. */
  ghost predicate ChosenBefore(fs: seq<Field>, which: map<nat, nat>, g: nat, i: nat)
    requires i <= |fs| && g in which
  {
    exists j :: 0 <= j < i && fs[j].h == OneOf(g) && fs[j].tag == which[g]
  }

  lemma ChosenStep(fs: seq<Field>, which: map<nat, nat>, g: nat, i: nat)
    requires i < |fs| && g in which
    ensures ChosenBefore(fs, which, g, i + 1) <==>
            ChosenBefore(fs, which, g, i) || (fs[i].h == OneOf(g) && fs[i].tag == which[g])
  {
    if fs[i].h == OneOf(g) && fs[i].tag == which[g] { assert ChosenBefore(fs, which, g, i + 1); }
  }

  ghost function Partial(d: Desc, m: Msg, i: nat): (p: Msg)
    requires |m.vals| == |d.fields| && i <= |d.fields|
    ensures |p.vals| == |d.fields|
  {
    Msg(CanonFields(d.fields, m.vals, m.which)[..i] + DefaultFields(d.fields)[i..], WhichUpTo(d.fields, m.which, i))
  }

  ghost function SeenUpTo(fs: seq<Field>, i: nat): set<nat>
    requires i <= |fs|
  {
    set j | 0 <= j < i && Tracked(fs, j)
  }

  lemma WhichStays(d: Desc, which: map<nat, nat>, i: nat)
    requires i < |d.fields|
    requires d.fields[i].h.OneOf? ==> Which(which, d.fields[i].h.group) != d.fields[i].tag
    ensures WhichUpTo(d.fields, which, i + 1) == WhichUpTo(d.fields, which, i)
  {
    forall g | g in which && which[g] != 0
      ensures ChosenBefore(d.fields, which, g, i + 1) <==> ChosenBefore(d.fields, which, g, i)
    {
      ChosenStep(d.fields, which, g, i);
    }
  }

  /** The active member is its group's only one: tags rise, so no earlier field has its tag. */
  lemma NotChosenEarlier(d: Desc, which: map<nat, nat>, g: nat, i: nat)
    requires ValidDesc(d) && i < |d.fields| && g in which && which[g] == d.fields[i].tag
    ensures !ChosenBefore(d.fields, which, g, i)
  {
  }

  lemma WhichGrows(d: Desc, which: map<nat, nat>, i: nat)
    requires ValidDesc(d) && i < |d.fields| && d.fields[i].h.OneOf?
    requires Which(which, d.fields[i].h.group) == d.fields[i].tag
    ensures var g := d.fields[i].h.group;
            && Which(WhichUpTo(d.fields, which, i), g) == 0
            && WhichUpTo(d.fields, which, i + 1) == WhichUpTo(d.fields, which, i)[g := d.fields[i].tag]
  {
    var g := d.fields[i].h.group;
    NotChosenEarlier(d, which, g, i);
    forall g' | g' in which && which[g'] != 0
      ensures ChosenBefore(d.fields, which, g', i + 1) <==> ChosenBefore(d.fields, which, g', i) || g' == g
    {
      ChosenStep(d.fields, which, g', i);
    }
  }

  lemma PartialStep(d: Desc, m: Msg, i: nat, w: map<nat, nat>)
    requires |m.vals| == |d.fields| && i < |d.fields|
    requires w == WhichUpTo(d.fields, m.which, i + 1)
    ensures Partial(d, m, i).vals[i] == DefaultField(d.fields[i])
    ensures Msg(Partial(d, m, i).vals[i := CanonField(d.fields[i], m.vals[i], m.which)], w) == Partial(d, m, i + 1)
  {
    OneMore(CanonFields(d.fields, m.vals, m.which), DefaultFields(d.fields), i);
  }

  lemma OneMore(a: seq<Val>, b: seq<Val>, i: nat)
    requires i < |a| == |b|
    ensures (a[..i] + b[i..])[i] == b[i] && (a[..i] + b[i..])[i := a[i]] == a[..i + 1] + b[i + 1..]
  {
  }

  lemma PartialEnds(d: Desc, m: Msg)
    requires |m.vals| == |d.fields| && FitsWhich(d.fields, m.which)
    ensures Partial(d, m, 0) == DefaultMsg(d)
    ensures Partial(d, m, |d.fields|) == CanonMsg(d, m)
    ensures AllSeen(d.fields, SeenUpTo(d.fields, |d.fields|))
  {
    var n := |d.fields|;
    var c, df := CanonFields(d.fields, m.vals, m.which), DefaultFields(d.fields);
    assert c[..0] + df[0..] == df && c[..n] + df[n..] == c;
    assert WhichUpTo(d.fields, m.which, n) == CanonWhich(m.which);
  }

  // ----- the main induction -----

  lemma Associate(a: seq<Byte>, b: seq<Byte>, c: seq<Byte>)
    ensures a + b + c == a + (b + c)
  {
  }

  lemma Split(a: seq<Byte>, b: seq<Byte>)
    ensures (a + b)[..|a|] == a && (a + b)[|a|..] == b
  {
  }

  lemma CanonItemsSnoc(l: LType, vs: seq<Val>, done: seq<Val>)
    requires vs != []
    ensures done + CanonItems(l, vs) == (done + [CanonVal(l, vs[0])]) + CanonItems(l, vs[1..])
  {
  }

  lemma DecPackedStep(l: LType, p: seq<Byte>, rest: seq<Byte>, v: Val, max: nat, done: seq<Val>)
    requires |done| < max && DecScalar(l, WT_PACKED, p + rest) == Some((v, |p|))
    ensures DecPacked(l, p + rest, max, done) == DecPacked(l, rest, max, done + [v])
  {
    Split(p, rest);
  }

  /** A single tagged value is read back into a fresh destination. */
  lemma {:induction false} BasicRoundTrip(l: LType, v: Val, rest: seq<Byte>)
    requires ValidLType(l) && FitsVal(l, v) && Payload(l, v).Some? && |Payload(l, v).value| < TWO_TO_THE_32
    ensures DecBasic(l, WireType(l), Payload(l, v).value + rest, DefaultVal(l))
         == Some((CanonVal(l, v), |Payload(l, v).value|))
    decreases l, 0
  {
    if l.SubMessage? {
      var e := Enc(l.desc, v.msg).value;
      RoundTripInner(l.desc, v.msg);
      DelimitedRoundTrip(e, rest);
    } else if l.Packable() {
      NumberRoundTrip(l, WireType(l), v, rest);
    } else {
      BlobRoundTrip(l, v, rest);
    }
  }

  lemma {:induction false} PackedRoundTrip(l: LType, vs: seq<Val>, max: nat, done: seq<Val>)
    requires ValidLType(l) && l.Packable() && |done| + |vs| <= max
    requires forall i :: 0 <= i < |vs| ==> FitsVal(l, vs[i])
    requires PackedItems(l, vs).Some?
    ensures DecPacked(l, PackedItems(l, vs).value, max, done) == Some(done + CanonItems(l, vs))
    decreases |vs|
  {
    if vs == [] {
      assert done + CanonItems(l, vs) == done;
    } else {
      var p, rest := PackedItem(l, vs[0]).value, PackedItems(l, vs[1..]).value;
      var c := CanonVal(l, vs[0]);
      ItemRoundTrip(l, vs[0], rest);
      PackedRoundTrip(l, vs[1..], max, done + [c]);
      DecPackedStep(l, p, rest, c, max, done);
      CanonItemsSnoc(l, vs, done);
    }
  }

  /** Elements written one by one are appended one by one, also those of a type that is packed as a
      rule: other writers may send them so. */
  lemma {:induction false} UnpackedRoundTrip(d: Desc, i: nat, vs: seq<Val>, done: seq<Val>, m: Msg, seen: set<nat>,
                                             rest: seq<Byte>)
    requires ValidDesc(d) && i < |d.fields| && |m.vals| == |d.fields|
    requires var f := d.fields[i];
      && f.h.Repeated? && |done| + |vs| <= f.h.max
      && (forall k :: 0 <= k < |vs| ==> FitsVal(f.l, vs[k]))
      && UnpackedItems(f.l, f.tag, vs).Some? && |UnpackedItems(f.l, f.tag, vs).value| < TWO_TO_THE_32
    requires m.vals[i] == Rep(done)
    ensures Loop(d, UnpackedItems(d.fields[i].l, d.fields[i].tag, vs).value + rest, m, seen)
         == Loop(d, rest, m.(vals := m.vals[i := Rep(done + CanonItems(d.fields[i].l, vs))]), seen)
    decreases d, 1, |vs|
  {
    var f := d.fields[i];
    if vs == [] {
      assert UnpackedItems(f.l, f.tag, vs).value + rest == rest && done + CanonItems(f.l, vs) == done;
      assert m.vals[i := Rep(done)] == m.vals;
    } else {
      var e, more := EncBasic(f.l, f.tag, vs[0]).value, UnpackedItems(f.l, f.tag, vs[1..]).value + rest;
      var c := CanonVal(f.l, vs[0]);
      var m' := m.(vals := m.vals[i := Rep(done + [c])]);
      assert UnpackedItems(f.l, f.tag, vs).value + rest == e + more;
      BasicRoundTrip(f.l, vs[0], more);
      ValueStep(d, i, vs[0], m, m', seen, more);
      UnpackedRoundTrip(d, i, vs[1..], done + [c], m', seen, rest);
      CanonItemsSnoc(f.l, vs, done);
      assert m'.vals[i := Rep(done + CanonItems(f.l, vs))] == m.vals[i := Rep(done + CanonItems(f.l, vs))];
    }
  }

  /** One tagged value whose field decoder succeeds is one turn of the loop. */
  lemma ValueStep(d: Desc, i: nat, v: Val, m: Msg, m': Msg, seen: set<nat>, rest: seq<Byte>)
    requires ValidDesc(d) && i < |d.fields| && |m.vals| == |d.fields|
    requires Payload(d.fields[i].l, v).Some?
    requires var p := Payload(d.fields[i].l, v).value;
             DecField(d.fields[i], i, WireType(d.fields[i].l), p + rest, m) == Some((m', |p|))
    ensures |m'.vals| == |d.fields|
    ensures Loop(d, EncBasic(d.fields[i].l, d.fields[i].tag, v).value + rest, m, seen)
         == Loop(d, rest, m', Mark(d.fields, i, seen))
  {
    var f := d.fields[i];
    var t, p := TagBytes(f.tag, WireType(f.l)), Payload(f.l, v).value;
    RecordStep(d, i, WireType(f.l), p + rest, m, seen);
    Associate(t, p, rest);
    Split(p, rest);
  }

  /** What a field that is not repeated looks like after its value has been read. */
  ghost function WithValue(f: Field, i: nat, m: Msg, c: Val): Msg
    requires i < |m.vals|
  {
    Msg(m.vals[i := if f.h.Optional? then Opt(true, c) else c],
        if f.h.OneOf? then m.which[f.h.group := f.tag] else m.which)
  }

  lemma SingleField(f: Field, i: nat, m: Msg, c: Val, p: seq<Byte>, rest: seq<Byte>)
    requires i < |m.vals| && !f.h.Repeated? && m.vals[i] == DefaultField(f)
    requires DecBasic(f.l, WireType(f.l), p + rest, DefaultVal(f.l)) == Some((c, |p|))
    ensures DecField(f, i, WireType(f.l), p + rest, m) == Some((WithValue(f, i, m, c), |p|))
  {
  }

  /** A value of a field that is not repeated is one record. */
  lemma {:induction false} SingleRoundTrip(d: Desc, i: nat, v: Val, m: Msg, seen: set<nat>, rest: seq<Byte>)
    requires ValidDesc(d) && i < |d.fields| && |m.vals| == |d.fields| && !d.fields[i].h.Repeated?
    requires m.vals[i] == DefaultField(d.fields[i])
    requires FitsVal(d.fields[i].l, v) && EncBasic(d.fields[i].l, d.fields[i].tag, v).Some?
    requires |EncBasic(d.fields[i].l, d.fields[i].tag, v).value| < TWO_TO_THE_32
    ensures Loop(d, EncBasic(d.fields[i].l, d.fields[i].tag, v).value + rest, m, seen)
         == Loop(d, rest, WithValue(d.fields[i], i, m, CanonVal(d.fields[i].l, v)), Mark(d.fields, i, seen))
    decreases d, 1
  {
    BasicRoundTrip(d.fields[i].l, v, rest);
    SingleField(d.fields[i], i, m, CanonVal(d.fields[i].l, v), Payload(d.fields[i].l, v).value, rest);
    ValueStep(d, i, v, m, WithValue(d.fields[i], i, m, CanonVal(d.fields[i].l, v)), seen, rest);
  }

  lemma PackedArrayField(f: Field, i: nat, vs: seq<Val>, m: Msg, p: seq<Byte>, rest: seq<Byte>)
    requires i < |m.vals| && f.h.Repeated? && f.l.Packable() && ValidLType(f.l) && m.vals[i] == Rep([])
    requires FitsField(f, Rep(vs), map[]) && PackedItems(f.l, vs) == Some(p) && |p| < TWO_TO_THE_32
    ensures DecField(f, i, WT_STRING, Delimited(p) + rest, m)
         == Some((m.(vals := m.vals[i := Rep(CanonItems(f.l, vs))]), |Delimited(p)|))
  {
    PackedRoundTrip(f.l, vs, f.h.max, []);
    assert [] + CanonItems(f.l, vs) == CanonItems(f.l, vs);
    DelimitedRoundTrip(p, rest);
    PackedField(f, i, m, CanonItems(f.l, vs), p, Delimited(p) + rest, |Delimited(p)|);
  }

  lemma PackedField(f: Field, i: nat, m: Msg, items: seq<Val>, p: seq<Byte>, bs: seq<Byte>, n: nat)
    requires i < |m.vals| && f.h.Repeated? && f.l.Packable() && m.vals[i] == Rep([])
    requires ReadDelimited(bs) == Some((p, n)) && DecPacked(f.l, p, f.h.max, []) == Some(items)
    ensures DecField(f, i, WT_STRING, bs, m) == Some((m.(vals := m.vals[i := Rep(items)]), n))
  {
  }

  /** A packed array is one record. */
  lemma PackedRecord(f: Field, vs: seq<Val>)
    requires f.h.Repeated? && f.l.Packable() && vs != [] && EncField(f, Rep(vs), map[]).Some?
    ensures PackedItems(f.l, vs).Some?
    ensures EncField(f, Rep(vs), map[]) == Some(TagBytes(f.tag, WT_STRING) + Delimited(PackedItems(f.l, vs).value))
  {
  }

  lemma PackedArrayRoundTrip(d: Desc, i: nat, vs: seq<Val>, m: Msg, seen: set<nat>, rest: seq<Byte>)
    requires ValidDesc(d) && i < |d.fields| && |m.vals| == |d.fields| && d.fields[i].h.Repeated?
    requires m.vals[i] == Rep([]) && FitsField(d.fields[i], Rep(vs), map[]) && vs != [] && d.fields[i].l.Packable()
    requires EncField(d.fields[i], Rep(vs), map[]).Some?
    requires |EncField(d.fields[i], Rep(vs), map[]).value| < TWO_TO_THE_32
    ensures Loop(d, EncField(d.fields[i], Rep(vs), map[]).value + rest, m, seen)
         == Loop(d, rest, m.(vals := m.vals[i := Rep(CanonItems(d.fields[i].l, vs))]), seen)
  {
    var f := d.fields[i];
    PackedRecord(f, vs);
    var p, t := PackedItems(f.l, vs).value, TagBytes(f.tag, WT_STRING);
    var e := Delimited(p);
    PackedArrayField(f, i, vs, m, p, rest);
    RecordStep(d, i, WT_STRING, e + rest, m, seen);
    Associate(t, e, rest);
    Split(e, rest);
  }

  lemma {:induction false} ArrayRoundTrip(d: Desc, i: nat, vs: seq<Val>, m: Msg, seen: set<nat>, rest: seq<Byte>)
    requires ValidDesc(d) && i < |d.fields| && |m.vals| == |d.fields| && d.fields[i].h.Repeated?
    requires m.vals[i] == Rep([]) && FitsField(d.fields[i], Rep(vs), map[])
    requires EncField(d.fields[i], Rep(vs), map[]).Some?
    requires |EncField(d.fields[i], Rep(vs), map[]).value| < TWO_TO_THE_32
    ensures Loop(d, EncField(d.fields[i], Rep(vs), map[]).value + rest, m, seen)
         == Loop(d, rest, m.(vals := m.vals[i := Rep(CanonItems(d.fields[i].l, vs))]), seen)
    decreases d, 2
  {
    var f := d.fields[i];
    if vs == [] {
      assert [] + rest == rest && m.vals[i := Rep([])] == m.vals;
    } else if f.l.Packable() {
      PackedArrayRoundTrip(d, i, vs, m, seen, rest);
    } else {
      UnpackedRoundTrip(d, i, vs, [], m, seen, rest);
      assert [] + CanonItems(f.l, vs) == CanonItems(f.l, vs);
    }
  }

  /** Decoding the bytes of field `i` takes the decoder from its state before the field to the one after it. */
  lemma {:induction false} FieldRoundTrip(d: Desc, m: Msg, i: nat, rest: seq<Byte>)
    requires ValidDesc(d) && FitsMsg(d, m) && i < |d.fields|
    requires EncField(d.fields[i], m.vals[i], m.which).Some?
    requires |EncField(d.fields[i], m.vals[i], m.which).value| < TWO_TO_THE_32
    ensures Loop(d, EncField(d.fields[i], m.vals[i], m.which).value + rest, Partial(d, m, i), SeenUpTo(d.fields, i))
         == Loop(d, rest, Partial(d, m, i + 1), SeenUpTo(d.fields, i + 1))
    decreases d, 3
  {
    var f, v := d.fields[i], m.vals[i];
    var e := EncField(f, v, m.which).value;
    var p, seen := Partial(d, m, i), SeenUpTo(d.fields, i);
    PartialStep(d, m, i, WhichUpTo(d.fields, m.which, i + 1));
    assert SeenUpTo(d.fields, i + 1) == Mark(d.fields, i, seen);
    if f.h.OneOf? && Which(m.which, f.h.group) == f.tag {
      WhichGrows(d, m.which, i);
      SingleRoundTrip(d, i, v, p, seen, rest);
    } else {
      WhichStays(d, m.which, i);
      if f.h.Repeated? {
        ArrayRoundTrip(d, i, v.items, p, seen, rest);
      } else if f.h.Optional? && v.has {
        SingleRoundTrip(d, i, v.v, p, seen, rest);
      } else if f.h.Required? || (f.h.Singular? && !IsDefaultVal(f.l, v)) {
        SingleRoundTrip(d, i, v, p, seen, rest);
      } else {
        if f.h.Singular? { DefaultIsCanon(f.l, v); }
        assert e + rest == rest;
        assert p.vals[i := DefaultField(f)] == p.vals;
      }
    }
  }

  lemma {:induction false} FieldsRoundTrip(d: Desc, m: Msg, i: nat)
    requires ValidDesc(d) && FitsMsg(d, m) && i <= |d.fields|
    requires EncFields(d.fields[i..], m.vals[i..], m.which).Some?
    requires |EncFields(d.fields[i..], m.vals[i..], m.which).value| < TWO_TO_THE_32
    ensures Loop(d, EncFields(d.fields[i..], m.vals[i..], m.which).value, Partial(d, m, i), SeenUpTo(d.fields, i))
         == Some((Partial(d, m, |d.fields|), SeenUpTo(d.fields, |d.fields|)))
    decreases d, 4, |d.fields| - i
  {
    if i >= |d.fields| {
    } else {
      assert d.fields[i..][1..] == d.fields[i + 1..] && m.vals[i..][1..] == m.vals[i + 1..];
      var rest := EncFields(d.fields[i + 1..], m.vals[i + 1..], m.which).value;
      FieldRoundTrip(d, m, i, rest);
      FieldsRoundTrip(d, m, i + 1);
    }
  }

  lemma {:induction false} RoundTripInner(d: Desc, m: Msg)
    requires ValidDesc(d) && FitsMsg(d, m) && Enc(d, m).Some? && |Enc(d, m).value| < TWO_TO_THE_32
    ensures Dec(d, Enc(d, m).value, DefaultMsg(d)) == Some(CanonMsg(d, m))
    decreases d, 5
  {
    assert d.fields[0..] == d.fields && m.vals[0..] == m.vals;
    FieldsRoundTrip(d, m, 0);
    PartialEnds(d, m);
    assert SeenUpTo(d.fields, 0) == {};
  }

  /** Every message in range is encoded, and decoding the bytes gives an equal message. Lengths are
      32-bit on the wire, so the whole message must be shorter than 2^32 bytes. */
  lemma DecodeUndoesEncode(d: Desc, m: Msg)
    requires ValidDesc(d) && FitsMsg(d, m)
    ensures Enc(d, m).Some?
    ensures |Enc(d, m).value| < TWO_TO_THE_32 ==> Decode(d, Enc(d, m).value) == Some(CanonMsg(d, m))
  {
    Encodes(d, m);
    if |Enc(d, m).value| < TWO_TO_THE_32 { RoundTripInner(d, m); }
  }
}
