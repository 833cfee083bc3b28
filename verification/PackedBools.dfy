/** Which messages have the same bytes. A packed array of bools is written like an array of signed
    bytes, so replacing every repeated bool by an 8-bit integer gives a schema under which the same
    bytes tell what stood in these arrays. */
module PackedBools {
  import opened Basics
  import opened Schema
  import opened Encoding
  import opened RoundTrip
  import opened MessageEquality
  import V = Base128

  // ----- the schema with signed bytes for repeated bools -----

  function SignedType(l: LType): LType
    decreases l
  {
    if l.SubMessage? then SubMessage(SignedDesc(l.desc)) else l
  }

  function SignedField(f: Field): Field
    decreases f
  {
    Field(f.tag, f.h, if f.h.Repeated? && f.l.Bool? then Varint(1) else SignedType(f.l))
  }

  function SignedFields(fs: seq<Field>): (r: seq<Field>)
    ensures |r| == |fs| && forall i :: 0 <= i < |fs| ==> r[i] == SignedField(fs[i])
    decreases fs
  {
    if fs == [] then [] else [SignedField(fs[0])] + SignedFields(fs[1..])
  }

  function SignedDesc(d: Desc): Desc
    decreases d
  {
    Desc(SignedFields(d.fields))
  }

  // ----- the message, read with that schema -----

  function SignedVal(l: LType, v: Val): Val
    decreases l, 0
  {
    if l.SubMessage? && v.Sub? then Sub(SignedMsg(l.desc, v.msg)) else v
  }

  function SignedItem(l: LType, v: Val): Val
    decreases l, 1
  {
    if l.Bool? && v.Num? then Num(SignedByte(v.n)) else SignedVal(l, v)
  }

  function SignedItems(l: LType, vs: seq<Val>): (r: seq<Val>)
    ensures |r| == |vs| && forall i :: 0 <= i < |vs| ==> r[i] == SignedItem(l, vs[i])
    decreases l, 2, |vs|
  {
    if vs == [] then [] else [SignedItem(l, vs[0])] + SignedItems(l, vs[1..])
  }

  function SignedFieldVal(f: Field, v: Val): Val
    decreases f
  {
    match f.h
    case Repeated(_) => if v.Rep? then Rep(SignedItems(f.l, v.items)) else v
    case Optional => if v.Opt? then Opt(v.has, SignedVal(f.l, v.v)) else v
    case _ => SignedVal(f.l, v)
  }

  function SignedVals(fs: seq<Field>, vs: seq<Val>): (r: seq<Val>)
    requires |fs| == |vs|
    ensures |r| == |vs| && forall i :: 0 <= i < |vs| ==> r[i] == SignedFieldVal(fs[i], vs[i])
    decreases fs
  {
    if fs == [] then [] else [SignedFieldVal(fs[0], vs[0])] + SignedVals(fs[1..], vs[1..])
  }

  function SignedMsg(d: Desc, m: Msg): Msg
    decreases d
  {
    if |m.vals| == |d.fields| then Msg(SignedVals(d.fields, m.vals), m.which) else m
  }

  // ----- it is a schema, and the message is in range for it -----

  lemma {:induction false} SignedTypeIsValid(l: LType)
    requires ValidLType(l)
    ensures ValidLType(SignedType(l))
    decreases l, 0
  {
    if l.SubMessage? { SignedIsValid(l.desc); }
  }

  lemma {:induction false} SignedIsValid(d: Desc)
    requires ValidDesc(d)
    ensures ValidDesc(SignedDesc(d))
    decreases d, 1
  {
    forall i | 0 <= i < |d.fields| ensures ValidLType(SignedField(d.fields[i]).l) {
      SignedTypeIsValid(d.fields[i].l);
    }
  }

  lemma {:induction false} SignedValFits(l: LType, v: Val)
    requires FitsVal(l, v)
    ensures FitsVal(SignedType(l), SignedVal(l, v))
    decreases l, 0
  {
    if l.SubMessage? { SignedFits(l.desc, v.msg); }
  }

  lemma SignedByteFits(v: Val)
    requires FitsVal(Bool, v)
    ensures FitsVal(Varint(1), SignedItem(Bool, v))
  {
    assert Pow256(1) == 256;
  }

  lemma {:induction false} SignedFieldFits(f: Field, v: Val, which: map<nat, nat>)
    requires FitsField(f, v, which)
    ensures FitsField(SignedField(f), SignedFieldVal(f, v), which)
    decreases f, 1
  {
    match f.h
    case Repeated(_) =>
      forall i | 0 <= i < |v.items| ensures FitsVal(SignedField(f).l, SignedItem(f.l, v.items[i])) {
        if f.l.Bool? { SignedByteFits(v.items[i]); } else { SignedValFits(f.l, v.items[i]); }
      }
    case Optional => if v.has { SignedValFits(f.l, v.v); }
    case OneOf(g) => if Which(which, g) == f.tag { SignedValFits(f.l, v); }
    case _ => SignedValFits(f.l, v);
  }

  lemma {:induction false} SignedFits(d: Desc, m: Msg)
    requires FitsMsg(d, m)
    ensures FitsMsg(SignedDesc(d), SignedMsg(d, m))
    decreases d, 2
  {
    var sd, sm := SignedDesc(d), SignedMsg(d, m);
    forall i | 0 <= i < |d.fields| ensures FitsField(sd.fields[i], sm.vals[i], m.which) {
      SignedFieldFits(d.fields[i], m.vals[i], m.which);
    }
    forall g | g in m.which && m.which[g] != 0
      ensures exists i :: 0 <= i < |sd.fields| && sd.fields[i].h == OneOf(g) && sd.fields[i].tag == m.which[g]
    {
      var i :| 0 <= i < |d.fields| && d.fields[i].h == OneOf(g) && d.fields[i].tag == m.which[g];
      assert sd.fields[i].h == OneOf(g) && sd.fields[i].tag == m.which[g];
    }
  }

  // ----- and its bytes are the same -----

  lemma {:induction false} SignedPayload(l: LType, v: Val)
    requires ValidLType(l) && FitsVal(l, v)
    ensures Payload(SignedType(l), SignedVal(l, v)) == Payload(l, v)
    ensures IsDefaultVal(SignedType(l), SignedVal(l, v)) == IsDefaultVal(l, v)
    decreases l, 0
  {
    if l.SubMessage? { SignedBytes(l.desc, v.msg); }
  }

  lemma {:induction false} SignedArray(l: LType, tag: nat, vs: seq<Val>)
    requires ValidLType(l) && !l.Bool? && forall i :: 0 <= i < |vs| ==> FitsVal(l, vs[i])
    ensures PackedItems(SignedType(l), SignedItems(l, vs)) == PackedItems(l, vs)
    ensures UnpackedItems(SignedType(l), tag, SignedItems(l, vs)) == UnpackedItems(l, tag, vs)
    decreases l, 1, |vs|
  {
    if vs == [] {
    } else {
      SignedPayload(l, vs[0]);
      SignedArray(l, tag, vs[1..]);
      assert SignedItems(l, vs)[1..] == SignedItems(l, vs[1..]);
    }
  }

  /** An array of bools has the bytes of the array of signed bytes. */
  lemma {:induction false} BoolsAreSignedBytes(vs: seq<Val>)
    requires forall i :: 0 <= i < |vs| ==> FitsVal(Bool, vs[i])
    ensures PackedItems(Varint(1), SignedItems(Bool, vs)) == PackedItems(Bool, vs)
  {
    if vs == [] {
    } else {
      BoolsAreSignedBytes(vs[1..]);
      assert SignedItems(Bool, vs)[1..] == SignedItems(Bool, vs[1..]);
    }
  }

  lemma {:induction false} SignedRepeatedBytes(f: Field, vs: seq<Val>)
    requires f.h.Repeated? && ValidLType(f.l) && forall i :: 0 <= i < |vs| ==> FitsVal(f.l, vs[i])
    ensures EncArray(SignedField(f).l, f.tag, f.h.max, SignedItems(f.l, vs)) == EncArray(f.l, f.tag, f.h.max, vs)
    decreases f, 0
  {
    if f.l.Bool? { BoolsAreSignedBytes(vs); } else { SignedArray(f.l, f.tag, vs); }
  }

  lemma {:induction false} SignedFieldBytes(f: Field, v: Val, which: map<nat, nat>)
    requires f.tag >= 1 && ValidLType(f.l) && FitsField(f, v, which)
    ensures EncField(SignedField(f), SignedFieldVal(f, v), which) == EncField(f, v, which)
    ensures IsDefaultField(SignedField(f), SignedFieldVal(f, v), which) == IsDefaultField(f, v, which)
    decreases f, 1
  {
    match f.h
    case Repeated(_) => SignedRepeatedBytes(f, v.items);
    case Optional => SignedOptionalBytes(f, v, which);
    case OneOf(_) => SignedMemberBytes(f, v, which);
    case _ => SignedSingleBytes(f, v, which);
  }

  lemma {:induction false} SignedSingleBytes(f: Field, v: Val, which: map<nat, nat>)
    requires (f.h.Required? || f.h.Singular?) && ValidLType(f.l) && FitsVal(f.l, v)
    ensures EncField(SignedField(f), SignedFieldVal(f, v), which) == EncField(f, v, which)
    ensures IsDefaultField(SignedField(f), SignedFieldVal(f, v), which) == IsDefaultField(f, v, which)
    decreases f, 0
  {
    SignedPayload(f.l, v);
  }

  lemma {:induction false} SignedOptionalBytes(f: Field, v: Val, which: map<nat, nat>)
    requires f.h.Optional? && ValidLType(f.l) && FitsField(f, v, which)
    ensures EncField(SignedField(f), SignedFieldVal(f, v), which) == EncField(f, v, which)
    decreases f, 0
  {
    if v.has { SignedPayload(f.l, v.v); }
  }

  lemma {:induction false} SignedMemberBytes(f: Field, v: Val, which: map<nat, nat>)
    requires f.h.OneOf? && ValidLType(f.l) && FitsField(f, v, which)
    ensures EncField(SignedField(f), SignedFieldVal(f, v), which) == EncField(f, v, which)
    decreases f, 0
  {
    if Which(which, f.h.group) == f.tag { SignedPayload(f.l, v); }
  }

  lemma {:induction false} SignedFieldsBytes(fs: seq<Field>, vs: seq<Val>, which: map<nat, nat>)
    requires |fs| == |vs|
    requires forall i :: 0 <= i < |fs| ==> fs[i].tag >= 1 && ValidLType(fs[i].l) && FitsField(fs[i], vs[i], which)
    ensures EncFields(SignedFields(fs), SignedVals(fs, vs), which) == EncFields(fs, vs, which)
    ensures IsDefaultFields(SignedFields(fs), SignedVals(fs, vs), which) == IsDefaultFields(fs, vs, which)
    decreases fs, 2
  {
    if fs == [] {
    } else {
      SignedFieldBytes(fs[0], vs[0], which);
      SignedFieldsBytes(fs[1..], vs[1..], which);
      assert SignedFields(fs)[1..] == SignedFields(fs[1..]) && SignedVals(fs, vs)[1..] == SignedVals(fs[1..], vs[1..]);
    }
  }

  /** The message of the other schema has the same bytes. */
  lemma {:induction false} SignedBytes(d: Desc, m: Msg)
    requires ValidDesc(d) && FitsMsg(d, m)
    ensures Enc(SignedDesc(d), SignedMsg(d, m)) == Enc(d, m)
    ensures IsDefaultFields(SignedDesc(d).fields, SignedMsg(d, m).vals, m.which)
         == IsDefaultFields(d.fields, m.vals, m.which)
    decreases d, 3
  {
    SignedFieldsBytes(d.fields, m.vals, m.which);
  }

  // ----- equal there means equal packed bools here -----

  lemma {:induction false} SignedValTells(l: LType, a: Val, b: Val)
    requires FitsVal(l, a) && FitsVal(l, b)
    requires CanonVal(SignedType(l), SignedVal(l, a)) == CanonVal(SignedType(l), SignedVal(l, b))
    ensures SameValBools(l, a, b)
    decreases l, 0
  {
    if l.SubMessage? { SignedTells(l.desc, a.msg, b.msg); }
  }

  lemma {:induction false} SignedItemsTell(l: LType, a: seq<Val>, b: seq<Val>)
    requires |a| == |b| && forall i :: 0 <= i < |a| ==> FitsVal(l, a[i]) && FitsVal(l, b[i])
    requires var t := if l.Bool? then Varint(1) else SignedType(l);
      forall i :: 0 <= i < |a| ==> CanonVal(t, SignedItem(l, a[i])) == CanonVal(t, SignedItem(l, b[i]))
    ensures SameItemBools(l, a, b)
    decreases l, 1
  {
    if l.Bool? {
      forall i | 0 <= i < |a| ensures a[i] == b[i] {
        assert CanonVal(Varint(1), SignedItem(l, a[i])) == Num(SignedByte(a[i].n));
      }
    } else {
      forall i | 0 <= i < |a| ensures SameValBools(l, a[i], b[i]) { SignedValTells(l, a[i], b[i]); }
    }
  }

  lemma {:induction false} SignedArrayTells(f: Field, a: seq<Val>, b: seq<Val>)
    requires f.h.Repeated? && FitsField(f, Rep(a), map[]) && FitsField(f, Rep(b), map[])
    requires var l := SignedField(f).l; CanonItems(l, SignedItems(f.l, a)) == CanonItems(l, SignedItems(f.l, b))
    ensures SameItemBools(f.l, a, b)
    decreases f, 0
  {
    RepeatedItems(SignedField(f).l, SignedItems(f.l, a), SignedItems(f.l, b));
    SignedItemsTell(f.l, a, b);
  }

  lemma {:induction false} SignedFieldTells(f: Field, a: Val, b: Val, wa: map<nat, nat>, wb: map<nat, nat>)
    requires FitsField(f, a, wa) && FitsField(f, b, wb)
    requires var g := SignedField(f);
      CanonField(g, SignedFieldVal(f, a), wa) == CanonField(g, SignedFieldVal(f, b), wb)
    ensures SameFieldBools(f, a, b, wa, wb)
    decreases f, 1
  {
    match f.h
    case Repeated(_) => SignedArrayTells(f, a.items, b.items);
    case Optional => SignedOptionalTells(f, a, b);
    case OneOf(_) => SignedMemberTells(f, a, b, wa, wb);
    case _ => SignedValTells(f.l, a, b);
  }

  lemma {:induction false} SignedMemberTells(f: Field, a: Val, b: Val, wa: map<nat, nat>, wb: map<nat, nat>)
    requires f.h.OneOf? && FitsField(f, a, wa) && FitsField(f, b, wb)
    requires var g := SignedField(f);
      CanonField(g, SignedFieldVal(f, a), wa) == CanonField(g, SignedFieldVal(f, b), wb)
    ensures SameFieldBools(f, a, b, wa, wb)
    decreases f, 0
  {
    if Which(wa, f.h.group) == f.tag && Which(wb, f.h.group) == f.tag { SignedValTells(f.l, a, b); }
  }

  lemma {:induction false} SignedOptionalTells(f: Field, a: Val, b: Val)
    requires f.h.Optional? && FitsField(f, a, map[]) && FitsField(f, b, map[])
    requires var g := SignedField(f);
      CanonField(g, SignedFieldVal(f, a), map[]) == CanonField(g, SignedFieldVal(f, b), map[])
    ensures SameFieldBools(f, a, b, map[], map[])
    decreases f, 0
  {
    if a.has && b.has { SignedValTells(f.l, a.v, b.v); }
  }

  lemma {:induction false} SignedTells(d: Desc, a: Msg, b: Msg)
    requires FitsMsg(d, a) && FitsMsg(d, b)
    requires CanonMsg(SignedDesc(d), SignedMsg(d, a)) == CanonMsg(SignedDesc(d), SignedMsg(d, b))
    ensures SameBools(d, a, b)
    decreases d, 2
  {
    var sd, sa, sb := SignedDesc(d), SignedMsg(d, a), SignedMsg(d, b);
    forall i | 0 <= i < |d.fields|
      ensures SameFieldBools(d.fields[i], a.vals[i], b.vals[i], a.which, b.which)
    {
      assert CanonMsg(sd, sa).vals[i] == CanonMsg(sd, sb).vals[i];
      SignedFieldTells(d.fields[i], a.vals[i], b.vals[i], a.which, b.which);
    }
  }

  // ----- the exact condition -----

  /** Two messages in range have the same bytes exactly when they are equal and their packed arrays of
      bools hold the same bytes. */
  lemma SameBytesIffEqual(d: Desc, a: Msg, b: Msg)
    requires ValidDesc(d) && FitsMsg(d, a) && FitsMsg(d, b)
    requires Enc(d, a).Some? ==> |Enc(d, a).value| < TWO_TO_THE_32
    ensures Enc(d, a) == Enc(d, b) <==> CanonMsg(d, a) == CanonMsg(d, b) && SameBools(d, a, b)
  {
    if Enc(d, a) == Enc(d, b) {
      DecodeUndoesEncode(d, a);
      DecodeUndoesEncode(d, b);
      BytesTellBools(d, a, b);
    } else if CanonMsg(d, a) == CanonMsg(d, b) && SameBools(d, a, b) {
      EqualMessages(d, a, b);
    }
  }

  lemma BytesTellBools(d: Desc, a: Msg, b: Msg)
    requires ValidDesc(d) && FitsMsg(d, a) && FitsMsg(d, b) && Enc(d, a) == Enc(d, b)
    requires Enc(d, a).Some? ==> |Enc(d, a).value| < TWO_TO_THE_32
    ensures SameBools(d, a, b)
  {
    SignedIsValid(d);
    SignedFits(d, a);
    SignedFits(d, b);
    SignedBytes(d, a);
    SignedBytes(d, b);
    DecodeUndoesEncode(SignedDesc(d), SignedMsg(d, a));
    DecodeUndoesEncode(SignedDesc(d), SignedMsg(d, b));
    SignedTells(d, a, b);
  }

  /** No array of bools at any depth. */
  predicate NoBoolArrays(d: Desc)
    decreases d
  {
    forall i :: 0 <= i < |d.fields| ==>
      && !(d.fields[i].h.Repeated? && d.fields[i].l.Bool?)
      && (d.fields[i].l.SubMessage? ==> NoBoolArrays(d.fields[i].l.desc))
  }

  lemma {:induction false} NoBoolsToDiffer(d: Desc, a: Msg, b: Msg)
    requires NoBoolArrays(d)
    ensures SameBools(d, a, b)
    decreases d, 1
  {
    forall i | 0 <= i < |d.fields| && i < |a.vals| && i < |b.vals|
      ensures SameFieldBools(d.fields[i], a.vals[i], b.vals[i], a.which, b.which)
    {
      NoFieldBoolsToDiffer(d.fields[i], a.vals[i], b.vals[i], a.which, b.which);
    }
  }

  lemma {:induction false} NoFieldBoolsToDiffer(f: Field, a: Val, b: Val, wa: map<nat, nat>, wb: map<nat, nat>)
    requires !(f.h.Repeated? && f.l.Bool?) && (f.l.SubMessage? ==> NoBoolArrays(f.l.desc))
    ensures SameFieldBools(f, a, b, wa, wb)
    decreases f, 1
  {
    match f.h
    case Repeated(_) =>
      if a.Rep? && b.Rep? {
        forall i | 0 <= i < |a.items| && i < |b.items| ensures SameValBools(f.l, a.items[i], b.items[i]) {
          NoValBoolsToDiffer(f.l, a.items[i], b.items[i]);
        }
      }
    case Optional => if a.Opt? && b.Opt? { NoValBoolsToDiffer(f.l, a.v, b.v); }
    case _ => NoValBoolsToDiffer(f.l, a, b);
  }

  lemma {:induction false} NoValBoolsToDiffer(l: LType, a: Val, b: Val)
    requires l.SubMessage? ==> NoBoolArrays(l.desc)
    ensures SameValBools(l, a, b)
    decreases l, 0
  {
    if l.SubMessage? && a.Sub? && b.Sub? { NoBoolsToDiffer(l.desc, a.msg, b.msg); }
  }

  /** Under such a schema equal messages have the same bytes, and only they. */
  lemma WithoutBoolArrays(d: Desc, a: Msg, b: Msg)
    requires ValidDesc(d) && FitsMsg(d, a) && FitsMsg(d, b) && NoBoolArrays(d)
    requires Enc(d, a).Some? ==> |Enc(d, a).value| < TWO_TO_THE_32
    ensures Enc(d, a) == Enc(d, b) <==> CanonMsg(d, a) == CanonMsg(d, b)
  {
    NoBoolsToDiffer(d, a, b);
    SameBytesIffEqual(d, a, b);
  }

  // ----- equal messages with different bytes -----

  const BOOL_ARRAY: Desc := Desc([Field(1, Repeated(1), Bool)])

  function OneBool(n: int): Msg { Msg([Rep([Num(n)])], map[]) }

  lemma OneBoolBytes(n: int)
    requires 0 <= n < 256
    ensures Enc(BOOL_ARRAY, OneBool(n)) == Some([0x0A] + Delimited(V.Varint(V.ToUnsigned64(SignedByte(n)))))
  {
    var f, vs, item := BOOL_ARRAY.fields[0], [Num(n)], V.Varint(V.ToUnsigned64(SignedByte(n)));
    assert item + [] == item && PackedItems(Bool, vs) == Some(item);
    var e := [0x0A] + Delimited(item);
    assert TagBytes(1, WT_STRING) == [0x0A] && EncField(f, Rep(vs), map[]) == Some(e);
    assert BOOL_ARRAY.fields[1..] == [] && e + [] == e;
  }

  lemma OneBoolFits(n: int)
    requires 0 <= n < 256
    ensures ValidDesc(BOOL_ARRAY) && FitsMsg(BOOL_ARRAY, OneBool(n))
    ensures CanonMsg(BOOL_ARRAY, OneBool(n)) == OneBool(if n == 0 then 0 else 1)
  {
    var vs := [Num(n)];
    assert CanonItems(Bool, vs) == [Num(if n == 0 then 0 else 1)];
    assert CanonMsg(BOOL_ARRAY, OneBool(n)).vals == [Rep(CanonItems(Bool, vs))];
  }

  lemma SmallDelimited(n: nat)
    requires n < 128
    ensures [0x0A] + Delimited(V.Varint(n)) == [0x0A, 1, n]
  {
    assert V.Varint(1) == [1] && V.Varint(n) == [n];
    assert Delimited([n]) == [1, n];
  }

  /** All of these are one element true, and are written in three different ways. */
  lemma TrueInThreeWays()
    ensures FitsMsg(BOOL_ARRAY, OneBool(1)) && FitsMsg(BOOL_ARRAY, OneBool(2)) && FitsMsg(BOOL_ARRAY, OneBool(255))
    ensures CanonMsg(BOOL_ARRAY, OneBool(2)) == CanonMsg(BOOL_ARRAY, OneBool(255)) == OneBool(1)
    ensures Enc(BOOL_ARRAY, OneBool(1)) == Some([0x0A, 1, 1])
    ensures Enc(BOOL_ARRAY, OneBool(2)) == Some([0x0A, 1, 2])
    ensures Enc(BOOL_ARRAY, OneBool(255)).Some? && |Enc(BOOL_ARRAY, OneBool(255)).value| == 12
  {
    OneBoolFits(1);
    OneBoolFits(2);
    OneBoolFits(255);
    OneBoolBytes(1);
    OneBoolBytes(2);
    OneBoolBytes(255);
    SmallDelimited(1);
    SmallDelimited(2);
    TenBytesDelimited();
  }

  lemma TenBytesDelimited()
    ensures |[0x0A] + Delimited(V.Varint(V.ToUnsigned64(-1)))| == 12
  {
    V.LongVarint(V.ToUnsigned64(-1));
    assert V.Varint(10) == [10];
  }
}
