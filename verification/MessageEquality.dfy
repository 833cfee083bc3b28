/** What the decoder produces stays within the declared storage, and equal messages whose packed bools
    are the same have equal bytes. */
module MessageEquality {
  import opened Basics
  import opened Schema
  import opened Encoding
  import opened Decoding
  import opened RoundTrip

  // ----- decoded messages fit -----

  /** A value that fits and has no part that only fits because it does not count: absent optionals
      and inactive members are in their storage as well. */
  predicate FullVal(l: LType, v: Val)
    decreases l
  {
    if l.SubMessage? then v.Sub? && FullMsg(l.desc, v.msg) else FitsVal(l, v)
  }

  predicate FullField(f: Field, v: Val)
    decreases f
  {
    match f.h
    case Optional => v.Opt? && FullVal(f.l, v.v)
    case Repeated(max) => v.Rep? && |v.items| <= max && forall i :: 0 <= i < |v.items| ==> FullVal(f.l, v.items[i])
    case _ => FullVal(f.l, v)
  }

  predicate FullMsg(d: Desc, m: Msg)
    decreases d
  {
    && |m.vals| == |d.fields|
    && (forall i :: 0 <= i < |d.fields| ==> FullField(d.fields[i], m.vals[i]))
    && FitsWhich(d.fields, m.which)
  }

  lemma {:induction false} FullFits(l: LType, v: Val)
    requires FullVal(l, v)
    ensures FitsVal(l, v)
    decreases l, 0
  {
    if l.SubMessage? { FullMsgFits(l.desc, v.msg); }
  }

  lemma {:induction false} FullMsgFits(d: Desc, m: Msg)
    requires FullMsg(d, m)
    ensures FitsMsg(d, m)
    decreases d, 1
  {
    forall i | 0 <= i < |d.fields| ensures FitsField(d.fields[i], m.vals[i], m.which) {
      FullFieldFits(d.fields[i], m.vals[i], m.which);
    }
  }

  lemma {:induction false} FullFieldFits(f: Field, v: Val, which: map<nat, nat>)
    requires FullField(f, v)
    ensures FitsField(f, v, which)
    decreases f, 1
  {
    match f.h
    case Optional => FullFits(f.l, v.v);
    case Repeated(_) => forall i | 0 <= i < |v.items| ensures FitsVal(f.l, v.items[i]) { FullFits(f.l, v.items[i]); }
    case _ => FullFits(f.l, v);
  }

  lemma {:induction false} FromLittleEndianFits(bs: seq<Byte>)
    ensures FromLittleEndian(bs) < Pow256(|bs|)
  {
    if bs == [] {
    } else {
      FromLittleEndianFits(bs[1..]);
    }
  }

  lemma DecScalarFits(l: LType, wt: nat, bs: seq<Byte>)
    requires ValidLType(l) && DecScalar(l, wt, bs).Some?
    ensures FullVal(l, DecScalar(l, wt, bs).value.0)
  {
    if l.Fixed32? { FromLittleEndianFits(bs[..4]); }
    if l.Fixed64? { FromLittleEndianFits(bs[..8]); }
  }

  lemma {:induction false} DefaultFits(l: LType)
    requires ValidLType(l)
    ensures FullVal(l, DefaultVal(l))
    decreases l, 0
  {
    match l
    case SubMessage(d) => DefaultMsgFits(d);
    case UVarint(size) => ZeroFits(size);
    case Varint(size) => ZeroFits(size);
    case SVarint(size) => ZeroFits(size);
    case _ =>
  }

  lemma ZeroFits(size: nat)
    ensures InUnsigned(0, size) && InSigned(0, size)
  {
  }

  lemma {:induction false} DefaultMsgFits(d: Desc)
    requires ValidDesc(d)
    ensures FullMsg(d, DefaultMsg(d))
    decreases d, 1
  {
    forall i | 0 <= i < |d.fields| ensures FullField(d.fields[i], DefaultMsg(d).vals[i]) {
      DefaultFits(d.fields[i].l);
    }
  }

  lemma {:induction false} DecPackedFits(l: LType, bs: seq<Byte>, max: nat, items: seq<Val>)
    requires ValidLType(l) && |items| <= max && DecPacked(l, bs, max, items).Some?
    requires forall i :: 0 <= i < |items| ==> FullVal(l, items[i])
    ensures FullField(Field(1, Repeated(max), l), Rep(DecPacked(l, bs, max, items).value))
    decreases |bs|
  {
    if bs == [] {
    } else {
      var (v, n) := DecScalar(l, WT_PACKED, bs).value;
      DecScalarFits(l, WT_PACKED, bs);
      DecPackedFits(l, bs[n..], max, items + [v]);
    }
  }

  lemma {:induction false} DecBasicFits(l: LType, wt: nat, bs: seq<Byte>, cur: Val)
    requires ValidLType(l) && FullVal(l, cur) && DecBasic(l, wt, bs, cur).Some?
    ensures FullVal(l, DecBasic(l, wt, bs, cur).value.0)
    decreases |bs|, 0
  {
    if l.SubMessage? {
      DecFits(l.desc, ReadDelimited(bs).value.0, cur.msg);
    } else {
      DecScalarFits(l, wt, bs);
    }
  }

  lemma {:induction false} DecFieldFits(f: Field, wt: nat, bs: seq<Byte>, prev: Val, active: bool)
    requires ValidLType(f.l) && FullField(f, prev) && DecFieldVal(f, wt, bs, prev, active).Some?
    ensures FullField(f, DecFieldVal(f, wt, bs, prev, active).value.0)
    decreases |bs|, 1
  {
    DefaultFits(f.l);
    match f.h
    case Optional => DecBasicFits(f.l, wt, bs, prev.v);
    case OneOf(_) => DecBasicFits(f.l, wt, bs, if f.l.SubMessage? && !active then DefaultVal(f.l) else prev);
    case Repeated(max) =>
      if wt == WT_STRING && f.l.Packable() { DecPackedFits(f.l, ReadDelimited(bs).value.0, max, prev.items); }
      else { DecBasicFits(f.l, wt, bs, DefaultVal(f.l)); }
    case _ => DecBasicFits(f.l, wt, bs, prev);
  }

  lemma WriteFits(d: Desc, i: nat, m: Msg, v: Val)
    requires FullMsg(d, m) && i < |d.fields| && FullField(d.fields[i], v)
    ensures FullMsg(d, Write(d.fields[i], i, m, v))
  {
    var f, w := d.fields[i], Write(d.fields[i], i, m, v).which;
    forall g | g in w && w[g] != 0
      ensures exists j :: 0 <= j < |d.fields| && d.fields[j].h == OneOf(g) && d.fields[j].tag == w[g]
    {
      if f.h == OneOf(g) { assert d.fields[i].tag == w[g]; } else { assert w[g] == m.which[g]; }
    }
  }

  lemma {:induction false} RecordFits(d: Desc, bs: seq<Byte>, m: Msg, seen: set<nat>)
    requires ValidDesc(d) && FullMsg(d, m) && DecRecord(d, bs, m, seen).Some?
    ensures FullMsg(d, DecRecord(d, bs, m, seen).value.0)
    decreases |bs|, 3
  {
    var (tag, wt, n) := DecTag(bs).value;
    var found := FindField(d.fields, tag);
    if found.Some? {
      var i := found.value;
      var f, active := d.fields[i], IsActive(d.fields[i], m);
      assert DecField(f, i, wt, bs[n..], m).Some?;
      DecFieldFits(f, wt, bs[n..], m.vals[i], active);
      WriteFits(d, i, m, DecFieldVal(f, wt, bs[n..], m.vals[i], active).value.0);
    }
  }

  lemma {:induction false} LoopFits(d: Desc, bs: seq<Byte>, m: Msg, seen: set<nat>)
    requires ValidDesc(d) && FullMsg(d, m) && Loop(d, bs, m, seen).Some?
    ensures FullMsg(d, Loop(d, bs, m, seen).value.0)
    decreases |bs|, 4
  {
    if bs == [] {
    } else {
      var (m', seen', k) := DecRecord(d, bs, m, seen).value;
      RecordFits(d, bs, m, seen);
      LoopFits(d, bs[k..], m', seen');
    }
  }

  lemma {:induction false} DecFits(d: Desc, bs: seq<Byte>, m: Msg)
    requires ValidDesc(d) && FullMsg(d, m) && Dec(d, bs, m).Some?
    ensures FullMsg(d, Dec(d, bs, m).value)
    decreases |bs|, 5
  {
    LoopFits(d, bs, m, {});
  }

  /** Whatever bytes arrive, a message that is accepted respects every declared size: integers in
      their storage, arrays within their maximum, byte strings within their capacity, strings terminated. */
  lemma DecodedMessageFits(d: Desc, bs: seq<Byte>)
    requires ValidDesc(d) && Decode(d, bs).Some?
    ensures FullMsg(d, Decode(d, bs).value) && FitsMsg(d, Decode(d, bs).value)
  {
    DefaultMsgFits(d);
    DecFits(d, bs, DefaultMsg(d));
    FullMsgFits(d, Decode(d, bs).value);
  }

  // ----- the packed arrays of bools -----

  /** The packed bools of the two messages are the same bytes, at every depth, as far as they are written. */
  predicate SameBools(d: Desc, a: Msg, b: Msg)
    decreases d
  {
    forall i :: 0 <= i < |d.fields| && i < |a.vals| && i < |b.vals| ==>
      SameFieldBools(d.fields[i], a.vals[i], b.vals[i], a.which, b.which)
  }

  predicate SameFieldBools(f: Field, a: Val, b: Val, wa: map<nat, nat>, wb: map<nat, nat>)
    decreases f
  {
    match f.h
    case Repeated(_) => a.Rep? && b.Rep? ==> SameItemBools(f.l, a.items, b.items)
    case Optional => a.Opt? && b.Opt? && a.has && b.has ==> SameValBools(f.l, a.v, b.v)
    case OneOf(g) => Which(wa, g) == f.tag && Which(wb, g) == f.tag ==> SameValBools(f.l, a, b)
    case _ => SameValBools(f.l, a, b)
  }

  predicate SameItemBools(l: LType, a: seq<Val>, b: seq<Val>)
    decreases l, 1
  {
    if l.Bool? then a == b
    else forall i :: 0 <= i < |a| && i < |b| ==> SameValBools(l, a[i], b[i])
  }

  predicate SameValBools(l: LType, a: Val, b: Val)
    decreases l, 0
  {
    l.SubMessage? && a.Sub? && b.Sub? ==> SameBools(l.desc, a.msg, b.msg)
  }

  // ----- equal messages with the same packed bools have equal bytes -----

  lemma {:induction false} CStringOfCanon(s: seq<Byte>)
    requires 0 !in s
    ensures CString(s + [0]) == s
  {
    if s == [] {
    } else {
      CStringOfCanon(s[1..]);
      assert (s + [0])[1..] == s[1..] + [0];
    }
  }

  lemma SameString(a: seq<Byte>, b: seq<Byte>)
    requires CString(a) + [0] == CString(b) + [0]
    ensures CString(a) == CString(b)
  {
    CStringOfCanon(CString(a));
    CStringOfCanon(CString(b));
  }

  lemma {:induction false} EqualPayloads(l: LType, a: Val, b: Val)
    requires ValidLType(l) && FitsVal(l, a) && FitsVal(l, b)
    requires CanonVal(l, a) == CanonVal(l, b) && SameValBools(l, a, b)
    ensures Payload(l, a) == Payload(l, b)
    ensures IsDefaultVal(l, a) == IsDefaultVal(l, b)
    decreases l, 0
  {
    if l.String? {
      SameString(a.data, b.data);
      CStringStops(a.data);
      CStringStops(b.data);
    } else if l.SubMessage? {
      EqualMessages(l.desc, a.msg, b.msg);
    }
  }

  lemma {:induction false} EqualMessages(d: Desc, a: Msg, b: Msg)
    requires ValidDesc(d) && FitsMsg(d, a) && FitsMsg(d, b)
    requires CanonMsg(d, a) == CanonMsg(d, b) && SameBools(d, a, b)
    ensures Enc(d, a) == Enc(d, b)
    ensures IsDefaultFields(d.fields, a.vals, a.which) == IsDefaultFields(d.fields, b.vals, b.which)
    decreases d, 3
  {
    SameWhich(a.which, b.which);
    forall i | 0 <= i < |d.fields|
      ensures EncField(d.fields[i], a.vals[i], a.which) == EncField(d.fields[i], b.vals[i], b.which)
      ensures IsDefaultField(d.fields[i], a.vals[i], a.which) == IsDefaultField(d.fields[i], b.vals[i], b.which)
    {
      assert CanonMsg(d, a).vals[i] == CanonMsg(d, b).vals[i];
      EqualFields(d.fields[i], a.vals[i], b.vals[i], a.which, b.which);
    }
    FieldByField(d.fields, a.vals, b.vals, a.which, b.which);
  }

  lemma SameWhich(wa: map<nat, nat>, wb: map<nat, nat>)
    requires CanonWhich(wa) == CanonWhich(wb)
    ensures forall g :: Which(wa, g) == Which(wb, g)
  {
    forall g ensures Which(wa, g) == Which(wb, g) {
      assert Which(CanonWhich(wa), g) == Which(wa, g) && Which(CanonWhich(wb), g) == Which(wb, g);
    }
  }

  lemma {:induction false} EqualItems(l: LType, tag: nat, a: seq<Val>, b: seq<Val>)
    requires ValidLType(l) && |a| == |b|
    requires forall i :: 0 <= i < |a| ==> FitsVal(l, a[i]) && FitsVal(l, b[i]) && CanonVal(l, a[i]) == CanonVal(l, b[i])
    requires SameItemBools(l, a, b)
    ensures PackedItems(l, a) == PackedItems(l, b)
    ensures UnpackedItems(l, tag, a) == UnpackedItems(l, tag, b)
    decreases l, 1, |a|
  {
    if a == [] {
    } else if l.Bool? {
    } else {
      EqualPayloads(l, a[0], b[0]);
      EqualItems(l, tag, a[1..], b[1..]);
    }
  }

  lemma {:induction false} EqualFields(f: Field, a: Val, b: Val, wa: map<nat, nat>, wb: map<nat, nat>)
    requires f.tag >= 1 && ValidLType(f.l) && FitsField(f, a, wa) && FitsField(f, b, wb)
    requires CanonField(f, a, wa) == CanonField(f, b, wb) && SameFieldBools(f, a, b, wa, wb)
    requires f.h.OneOf? ==> Which(wa, f.h.group) == Which(wb, f.h.group)
    ensures EncField(f, a, wa) == EncField(f, b, wb)
    ensures IsDefaultField(f, a, wa) == IsDefaultField(f, b, wb)
    decreases f, 1
  {
    match f.h
    case Repeated(_) => EqualArrays(f, a.items, b.items);
    case Optional => EqualOptionals(f, a, b);
    case OneOf(_) => EqualMembers(f, a, b, wa, wb);
    case _ => EqualSingles(f, a, b, wa, wb);
  }

  lemma {:induction false} EqualSingles(f: Field, a: Val, b: Val, wa: map<nat, nat>, wb: map<nat, nat>)
    requires (f.h.Required? || f.h.Singular?) && ValidLType(f.l) && FitsVal(f.l, a) && FitsVal(f.l, b)
    requires CanonVal(f.l, a) == CanonVal(f.l, b) && SameValBools(f.l, a, b)
    ensures EncField(f, a, wa) == EncField(f, b, wb)
    ensures IsDefaultField(f, a, wa) == IsDefaultField(f, b, wb)
    decreases f, 0
  {
    EqualPayloads(f.l, a, b);
  }

  lemma {:induction false} EqualMembers(f: Field, a: Val, b: Val, wa: map<nat, nat>, wb: map<nat, nat>)
    requires f.h.OneOf? && ValidLType(f.l) && FitsField(f, a, wa) && FitsField(f, b, wb)
    requires CanonField(f, a, wa) == CanonField(f, b, wb) && SameFieldBools(f, a, b, wa, wb)
    requires Which(wa, f.h.group) == Which(wb, f.h.group)
    ensures EncField(f, a, wa) == EncField(f, b, wb)
    decreases f, 0
  {
    if Which(wa, f.h.group) == f.tag { EqualPayloads(f.l, a, b); }
  }

  lemma {:induction false} EqualArrays(f: Field, a: seq<Val>, b: seq<Val>)
    requires f.h.Repeated? && ValidLType(f.l) && FitsField(f, Rep(a), map[]) && FitsField(f, Rep(b), map[])
    requires CanonItems(f.l, a) == CanonItems(f.l, b) && SameItemBools(f.l, a, b)
    ensures |a| == |b| && EncArray(f.l, f.tag, f.h.max, a) == EncArray(f.l, f.tag, f.h.max, b)
    decreases f, 0
  {
    RepeatedItems(f.l, a, b);
    EqualItems(f.l, f.tag, a, b);
  }

  lemma {:induction false} EqualOptionals(f: Field, a: Val, b: Val)
    requires f.h.Optional? && ValidLType(f.l) && FitsField(f, a, map[]) && FitsField(f, b, map[])
    requires CanonField(f, a, map[]) == CanonField(f, b, map[]) && SameFieldBools(f, a, b, map[], map[])
    ensures a.has == b.has && EncField(f, a, map[]) == EncField(f, b, map[])
    decreases f, 0
  {
    if a.has { EqualPayloads(f.l, a.v, b.v); }
  }

  lemma RepeatedItems(l: LType, a: seq<Val>, b: seq<Val>)
    requires CanonItems(l, a) == CanonItems(l, b)
    ensures |a| == |b| && forall i :: 0 <= i < |a| ==> CanonVal(l, a[i]) == CanonVal(l, b[i])
  {
    assert |CanonItems(l, a)| == |CanonItems(l, b)|;
    forall i | 0 <= i < |a| ensures CanonVal(l, a[i]) == CanonVal(l, b[i]) {
      assert CanonItems(l, a)[i] == CanonItems(l, b)[i];
    }
  }

  lemma {:induction false} FieldByField(fs: seq<Field>, a: seq<Val>, b: seq<Val>, wa: map<nat, nat>, wb: map<nat, nat>)
    requires |fs| == |a| == |b|
    requires forall i :: 0 <= i < |fs| ==> EncField(fs[i], a[i], wa) == EncField(fs[i], b[i], wb)
    requires forall i :: 0 <= i < |fs| ==> IsDefaultField(fs[i], a[i], wa) == IsDefaultField(fs[i], b[i], wb)
    ensures EncFields(fs, a, wa) == EncFields(fs, b, wb)
    ensures IsDefaultFields(fs, a, wa) == IsDefaultFields(fs, b, wb)
  {
    if fs == [] {
    } else {
      FieldByField(fs[1..], a[1..], b[1..], wa, wb);
    }
  }
}
