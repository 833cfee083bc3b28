/** What is left out: a field is not written exactly when it holds its default, and a message has no
    bytes exactly when it is the default message. The statements speak of canonical values, and not of
    the test that the encoder makes. */
module Defaults {
  import opened Basics
  import opened Schema
  import opened Encoding
  import opened RoundTrip

  // ----- schemas that can write nothing -----

  /** Required fields are always written, and so are singular byte arrays of fixed length. */
  predicate CanBeLeftOut(f: Field)
    decreases f
  {
    && !f.h.Required?
    && (f.h.Singular? ==> !f.l.FixedBytes? && (f.l.SubMessage? ==> CanBeEmpty(f.l.desc)))
  }

  predicate CanBeEmpty(d: Desc)
    decreases d
  {
    forall i :: 0 <= i < |d.fields| ==> CanBeLeftOut(d.fields[i])
  }

  // ----- the test of the encoder is equality with the default -----

  lemma {:induction false} EmptyCString(data: seq<Byte>)
    requires CString(data) + [0] == [0]
    ensures CString(data) == []
  {
    assert |CString(data) + [0]| == |CString(data)| + 1;
  }

  lemma {:induction false} CanonIsDefault(l: LType, v: Val)
    requires ValidLType(l) && FitsVal(l, v) && !l.FixedBytes? && (l.SubMessage? ==> CanBeEmpty(l.desc))
    ensures IsDefaultVal(l, v) <==> CanonVal(l, v) == DefaultVal(l)
    decreases l, 0
  {
    if l.SubMessage? {
      CanonMsgIsDefault(l.desc, v.msg);
    } else if l.String? && CanonVal(l, v) == DefaultVal(l) {
      EmptyCString(v.data);
    }
  }

  lemma {:induction false} CanonMsgIsDefault(d: Desc, m: Msg)
    requires ValidDesc(d) && FitsMsg(d, m) && CanBeEmpty(d)
    ensures IsDefaultFields(d.fields, m.vals, m.which) <==> CanonMsg(d, m) == DefaultMsg(d)
    decreases d, 2
  {
    if IsDefaultFields(d.fields, m.vals, m.which) { DefaultMsgIsCanon(d, m); }
    if CanonMsg(d, m) == DefaultMsg(d) {
      AllUnset(m.which);
      forall i | 0 <= i < |d.fields| ensures IsDefaultField(d.fields[i], m.vals[i], m.which) {
        assert CanonMsg(d, m).vals[i] == DefaultMsg(d).vals[i];
        CanonFieldIsDefault(d.fields[i], m.vals[i], m.which);
      }
      FieldsAreDefault(d.fields, m.vals, m.which);
    }
  }

  lemma AllUnset(which: map<nat, nat>)
    requires CanonWhich(which) == map[]
    ensures forall g :: Which(which, g) == 0
  {
    forall g ensures Which(which, g) == 0 { assert g !in CanonWhich(which); }
  }

  lemma {:induction false} CanonFieldIsDefault(f: Field, v: Val, which: map<nat, nat>)
    requires ValidLType(f.l) && FitsField(f, v, which) && CanBeLeftOut(f)
    requires CanonField(f, v, which) == DefaultField(f) && (f.h.OneOf? ==> Which(which, f.h.group) == 0)
    ensures IsDefaultField(f, v, which)
    decreases f, 1
  {
    match f.h
    case Singular => CanonIsDefault(f.l, v);
    case Repeated(_) => assert |CanonItems(f.l, v.items)| == |v.items|;
    case _ =>
  }

  lemma {:induction false} FieldsAreDefault(fs: seq<Field>, vs: seq<Val>, which: map<nat, nat>)
    requires |fs| == |vs| && forall i :: 0 <= i < |fs| ==> IsDefaultField(fs[i], vs[i], which)
    ensures IsDefaultFields(fs, vs, which)
  {
    if fs == [] {
    } else {
      FieldsAreDefault(fs[1..], vs[1..], which);
    }
  }

  // ----- what is left out -----

  lemma SomeBytes(l: LType, tag: nat, v: Val)
    ensures EncBasic(l, tag, v) != Some([])
  {
    if EncBasic(l, tag, v).Some? { assert |EncBasic(l, tag, v).value| >= |TagBytes(tag, WireType(l))| >= 1; }
  }

  /** A singular field is left out if and only if it is equal to its default: zero, false, no bytes, an
      empty string, a message equal to the default message. */
  lemma LeftOutIffDefault(f: Field, v: Val, which: map<nat, nat>)
    requires f.h.Singular? && CanBeLeftOut(f) && ValidLType(f.l) && FitsField(f, v, which)
    ensures EncField(f, v, which) == Some([]) <==> CanonVal(f.l, v) == DefaultVal(f.l)
  {
    CanonIsDefault(f.l, v);
    SomeBytes(f.l, f.tag, v);
  }

  /** In plain values: zero and false, no bytes, and a string that begins with its terminator. */
  lemma LeftOutIffZero(f: Field, v: Val, which: map<nat, nat>)
    requires f.h.Singular? && ValidLType(f.l) && FitsField(f, v, which)
    ensures f.l.Packable() ==> (EncField(f, v, which) == Some([]) <==> v == Num(0))
    ensures f.l.Bytes? ==> (EncField(f, v, which) == Some([]) <==> v == Blob([]))
    ensures f.l.String? ==> v.Blob? && v.data != [] && (EncField(f, v, which) == Some([]) <==> v.data[0] == 0)
  {
    SomeBytes(f.l, f.tag, v);
  }

  /** The other fields are left out when there is nothing to say: an absent optional, an empty array, a
      member of a oneof that is not the active one. Required fields are never left out. */
  lemma LeftOutIffNothing(f: Field, v: Val, which: map<nat, nat>)
    requires ValidLType(f.l) && FitsField(f, v, which)
    ensures f.h.Required? ==> EncField(f, v, which) != Some([])
    ensures f.h.Optional? ==> (EncField(f, v, which) == Some([]) <==> !v.has)
    ensures f.h.OneOf? ==> (EncField(f, v, which) == Some([]) <==> Which(which, f.h.group) != f.tag)
    ensures f.h.Repeated? ==> (EncField(f, v, which) == Some([]) <==> v.items == [])
    ensures f.h.Singular? && f.l.FixedBytes? ==> EncField(f, v, which) != Some([])
  {
    SomeBytes(f.l, f.tag, v);
    match f.h
    case Optional => SomeBytes(f.l, f.tag, v.v);
    case Repeated(max) => if v.items != [] { SomeArrayBytes(f.l, f.tag, max, v.items); }
    case _ =>
  }

  lemma SomeArrayBytes(l: LType, tag: nat, max: nat, vs: seq<Val>)
    requires vs != []
    ensures EncArray(l, tag, max, vs) != Some([])
  {
    SomeBytes(l, tag, vs[0]);
    if |vs| <= max && l.Packable() && PackedItems(l, vs).Some? {
      assert |EncArray(l, tag, max, vs).value| >= |TagBytes(tag, WT_STRING)| >= 1;
    }
  }

  // ----- whole messages -----

  lemma {:induction false} NoBytesMeansNone(fs: seq<Field>, vs: seq<Val>, which: map<nat, nat>, i: nat)
    requires |fs| == |vs| && i < |fs| && EncFields(fs, vs, which) == Some([])
    ensures EncField(fs[i], vs[i], which) == Some([])
  {
    if i == 0 {
    } else {
      NoBytesMeansNone(fs[1..], vs[1..], which, i - 1);
    }
  }

  /** Default values are not written, and a message of defaults has no bytes at all. */
  lemma {:induction false} DefaultsHaveNoBytes(fs: seq<Field>, vs: seq<Val>, which: map<nat, nat>)
    requires |fs| == |vs| && IsDefaultFields(fs, vs, which)
    requires forall i :: 0 <= i < |fs| ==> fs[i].tag != 0
    ensures EncFields(fs, vs, which) == Some([])
  {
    if fs == [] {
    } else {
      assert EncField(fs[0], vs[0], which) == Some([]);
      DefaultsHaveNoBytes(fs[1..], vs[1..], which);
      var none: seq<Byte> := [];
      assert none + none == none;
    }
  }

  lemma {:induction false} DefaultCanBeLeftOut(f: Field, v: Val, which: map<nat, nat>)
    requires ValidLType(f.l) && FitsField(f, v, which) && IsDefaultField(f, v, which)
    ensures CanBeLeftOut(f)
    decreases f, 0
  {
    if f.h.Singular? && f.l.SubMessage? { DefaultCanBeEmpty(f.l.desc, v.msg); }
  }

  lemma {:induction false} DefaultCanBeEmpty(d: Desc, m: Msg)
    requires ValidDesc(d) && FitsMsg(d, m) && IsDefaultFields(d.fields, m.vals, m.which)
    ensures CanBeEmpty(d)
    decreases d, 1
  {
    DefaultFieldsAreDefault(d.fields, m.vals, m.which);
    forall i | 0 <= i < |d.fields| ensures CanBeLeftOut(d.fields[i]) {
      DefaultCanBeLeftOut(d.fields[i], m.vals[i], m.which);
    }
  }

  lemma NothingMeansDefault(f: Field, v: Val, which: map<nat, nat>)
    requires f.tag >= 1 && ValidLType(f.l) && FitsField(f, v, which) && EncField(f, v, which) == Some([])
    requires f.h.OneOf? ==> Which(which, f.h.group) == 0
    ensures IsDefaultField(f, v, which)
  {
    LeftOutIffNothing(f, v, which);
    SomeBytes(f.l, f.tag, v);
  }

  lemma NoActiveMember(d: Desc, m: Msg, g: nat)
    requires ValidDesc(d) && FitsMsg(d, m) && Enc(d, m) == Some([])
    ensures Which(m.which, g) == 0
  {
    if Which(m.which, g) != 0 {
      var i :| 0 <= i < |d.fields| && d.fields[i].h == OneOf(g) && d.fields[i].tag == m.which[g];
      NoBytesMeansNone(d.fields, m.vals, m.which, i);
      LeftOutIffNothing(d.fields[i], m.vals[i], m.which);
      assert false;
    }
  }

  lemma NoBytesMeansDefault(d: Desc, m: Msg)
    requires ValidDesc(d) && FitsMsg(d, m) && Enc(d, m) == Some([])
    ensures IsDefaultFields(d.fields, m.vals, m.which)
  {
    forall i | 0 <= i < |d.fields| ensures IsDefaultField(d.fields[i], m.vals[i], m.which) {
      NoBytesMeansNone(d.fields, m.vals, m.which, i);
      if d.fields[i].h.OneOf? { NoActiveMember(d, m, d.fields[i].h.group); }
      NothingMeansDefault(d.fields[i], m.vals[i], m.which);
    }
    FieldsAreDefault(d.fields, m.vals, m.which);
  }

  /** A message has no bytes if and only if its schema has nothing that is always written, and it is
      equal to the default message. */
  lemma NoBytesIffDefault(d: Desc, m: Msg)
    requires ValidDesc(d) && FitsMsg(d, m)
    ensures Enc(d, m) == Some([]) <==> CanBeEmpty(d) && CanonMsg(d, m) == DefaultMsg(d)
  {
    if Enc(d, m) == Some([]) {
      NoBytesMeansDefault(d, m);
      DefaultCanBeEmpty(d, m);
      CanonMsgIsDefault(d, m);
    }
    if CanBeEmpty(d) && CanonMsg(d, m) == DefaultMsg(d) {
      CanonMsgIsDefault(d, m);
      DefaultsHaveNoBytes(d.fields, m.vals, m.which);
    }
  }
}
