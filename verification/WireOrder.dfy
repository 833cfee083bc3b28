/** What the order and the company of records on the wire mean to the decoder. */
module WireOrder {
  import opened Basics
  import opened Schema
  import opened Decoding
  import E = Encoding
  import V = Base128

  // ----- reading is local: an answer depends only on the bytes it takes -----

  /** The reader answers from `bs` alone, or would answer without needing more. */
  predicate Answers<T>(alone: Option<(T, nat)>, longer: Option<(T, nat)>, k: nat) {
    alone.Some? || (longer.Some? && longer.value.1 <= k)
  }

  lemma ReadDelimitedLocal(bs: seq<Byte>, rest: seq<Byte>)
    requires Answers(ReadDelimited(bs), ReadDelimited(bs + rest), |bs|)
    ensures ReadDelimited(bs + rest) == ReadDelimited(bs)
  {
    V.Read32Local(bs, rest);
    var (size, n) := V.Read32(bs).value;
    assert n + size <= |bs| ==> (bs + rest)[n..n + size] == bs[n..n + size];
  }

  lemma DecScalarLocal(l: LType, wt: nat, bs: seq<Byte>, rest: seq<Byte>)
    requires Answers(DecScalar(l, wt, bs), DecScalar(l, wt, bs + rest), |bs|)
    ensures DecScalar(l, wt, bs + rest) == DecScalar(l, wt, bs)
  {
    match l
    case Bool => V.Read32Local(bs, rest);
    case Varint(_) | UVarint(_) | SVarint(_) => V.Read64Local(bs, rest, 0);
    case Fixed32 => assert (bs + rest)[..4] == bs[..4];
    case Fixed64 => assert (bs + rest)[..8] == bs[..8];
    case _ => ReadDelimitedLocal(bs, rest);
  }

  lemma DecBasicLocal(l: LType, wt: nat, bs: seq<Byte>, cur: Val, rest: seq<Byte>)
    requires Answers(DecBasic(l, wt, bs, cur), DecBasic(l, wt, bs + rest, cur), |bs|)
    ensures DecBasic(l, wt, bs + rest, cur) == DecBasic(l, wt, bs, cur)
  {
    if l.SubMessage? { ReadDelimitedLocal(bs, rest); } else { DecScalarLocal(l, wt, bs, rest); }
  }

  lemma DecFieldValLocal(f: Field, wt: nat, bs: seq<Byte>, prev: Val, active: bool, rest: seq<Byte>)
    requires Answers(DecFieldVal(f, wt, bs, prev, active), DecFieldVal(f, wt, bs + rest, prev, active), |bs|)
    ensures DecFieldVal(f, wt, bs + rest, prev, active) == DecFieldVal(f, wt, bs, prev, active)
  {
    match f.h
    case Optional => DecBasicLocal(f.l, wt, bs, prev.v, rest);
    case OneOf(_) => DecBasicLocal(f.l, wt, bs, if f.l.SubMessage? && !active then DefaultVal(f.l) else prev, rest);
    case Repeated(_) =>
      if wt == E.WT_STRING && f.l.Packable() { ReadDelimitedLocal(bs, rest); }
      else { DecBasicLocal(f.l, wt, bs, DefaultVal(f.l), rest); }
    case _ => DecBasicLocal(f.l, wt, bs, prev, rest);
  }

  lemma {:induction false} SkipVarintLocal(bs: seq<Byte>, rest: seq<Byte>)
    requires SkipVarint(bs).Some?
    ensures SkipVarint(bs + rest) == SkipVarint(bs)
  {
    if bs[0] < 128 {
    } else {
      SkipVarintLocal(bs[1..], rest);
      assert (bs + rest)[1..] == bs[1..] + rest;
    }
  }

  lemma SkipFieldLocal(wt: nat, bs: seq<Byte>, rest: seq<Byte>)
    requires SkipField(wt, bs).Some?
    ensures SkipField(wt, bs + rest) == SkipField(wt, bs)
  {
    if wt == E.WT_VARINT { SkipVarintLocal(bs, rest); }
    else if wt == E.WT_STRING { ReadDelimitedLocal(bs, rest); }
  }

  lemma DecTagLocal(bs: seq<Byte>, rest: seq<Byte>)
    requires DecTag(bs).Some?
    ensures DecTag(bs + rest) == DecTag(bs)
    ensures (bs + rest)[DecTag(bs).value.2..] == bs[DecTag(bs).value.2..] + rest
  {
    V.Read32Local(bs, rest);
  }

  lemma DecFieldLocal(f: Field, i: nat, wt: nat, bs: seq<Byte>, m: Msg, rest: seq<Byte>)
    requires i < |m.vals| && DecField(f, i, wt, bs, m).Some?
    ensures DecField(f, i, wt, bs + rest, m) == DecField(f, i, wt, bs, m)
  {
    DecFieldValLocal(f, wt, bs, m.vals[i], IsActive(f, m), rest);
  }

  lemma DecRecordLocal(d: Desc, bs: seq<Byte>, m: Msg, seen: set<nat>, rest: seq<Byte>)
    requires |m.vals| == |d.fields| && DecRecord(d, bs, m, seen).Some?
    ensures DecRecord(d, bs + rest, m, seen) == DecRecord(d, bs, m, seen)
  {
    var (tag, wt, n) := DecTag(bs).value;
    DecTagLocal(bs, rest);
    var body := bs[n..];
    match FindField(d.fields, tag)
    case None => SkipFieldLocal(wt, body, rest);
    case Some(i) => DecFieldLocal(d.fields[i], i, wt, body, m, rest);
  }

  /** Decoding a concatenation is decoding the first part and then merging the second into the result. */
  lemma {:induction false} DecodeConcat(d: Desc, a: seq<Byte>, b: seq<Byte>, m: Msg, seen: set<nat>)
    requires |m.vals| == |d.fields| && Loop(d, a, m, seen).Some?
    ensures var (m', seen') := Loop(d, a, m, seen).value;
            Loop(d, a + b, m, seen) == Loop(d, b, m', seen')
    decreases |a|
  {
    if a == [] {
      assert a + b == b;
    } else {
      var (m', seen', n) := DecRecord(d, a, m, seen).value;
      DecRecordLocal(d, a, m, seen, b);
      assert (a + b)[n..] == a[n..] + b;
      DecodeConcat(d, a[n..], b, m', seen');
    }
  }

  // ----- records -----

  /** One well-formed record with a non-zero tag, whatever the schema. */
  predicate IsRecord(r: seq<Byte>) {
    && DecTag(r).Some?
    && var (tag, wt, n) := DecTag(r).value;
    && tag != 0 && SkipField(wt, r[n..]) == Some(|r| - n)
  }

  function RecordTag(r: seq<Byte>): nat
    requires IsRecord(r)
  {
    DecTag(r).value.0
  }

  lemma {:induction false} Read64Skips(bs: seq<Byte>, k: nat)
    requires V.Read64(bs, k).Some?
    ensures SkipVarint(bs) == Some(V.Read64(bs, k).value.1)
  {
    if bs[0] < 128 {
    } else {
      Read64Skips(bs[1..], k + 1);
    }
  }

  lemma DecScalarSkips(l: LType, wt: nat, bs: seq<Byte>)
    requires wt < 8 && DecScalar(l, wt, bs).Some?
    ensures SkipField(wt, bs) == Some(DecScalar(l, wt, bs).value.1)
  {
    match l
    case Bool => V.Read32ImpliesRead64(bs); Read64Skips(bs, 0);
    case Varint(_) | UVarint(_) | SVarint(_) => Read64Skips(bs, 0);
    case _ =>
  }

  /** A field decoder that succeeds takes exactly the bytes that skipping the field would take. */
  lemma DecodeTakesWhatSkipTakes(f: Field, wt: nat, bs: seq<Byte>, prev: Val, active: bool)
    requires wt < 8 && DecFieldVal(f, wt, bs, prev, active).Some?
    ensures SkipField(wt, bs) == Some(DecFieldVal(f, wt, bs, prev, active).value.1)
  {
    if !f.l.SubMessage? && !(f.h.Repeated? && wt == E.WT_STRING && f.l.Packable()) {
      DecScalarSkips(f.l, wt, bs);
    }
  }

  /** What one record does to the message, or `None` when its field rejects it. */
  function Effect(d: Desc, r: seq<Byte>, m: Msg, seen: set<nat>): (e: Option<(Msg, set<nat>)>)
    requires IsRecord(r) && |m.vals| == |d.fields|
    ensures e.Some? ==> |e.value.0.vals| == |d.fields|
  {
    match DecRecord(d, r, m, seen)
    case None => None
    case Some((m', seen', _)) => Some((m', seen'))
  }

  lemma DecRecordWhole(d: Desc, r: seq<Byte>, m: Msg, seen: set<nat>, rest: seq<Byte>)
    requires IsRecord(r) && |m.vals| == |d.fields|
    ensures DecRecord(d, r + rest, m, seen)
         == match Effect(d, r, m, seen) case None => None case Some((m', seen')) => Some((m', seen', |r|))
  {
    var (tag, wt, n) := DecTag(r).value;
    V.Read32Local(r, rest);
    var body := r[n..];
    assert (r + rest)[n..] == body + rest;
    SkipFieldLocal(wt, body, rest);
    assert DecTag(r + rest) == DecTag(r);
    match FindField(d.fields, tag)
    case None =>
      assert DecRecord(d, r, m, seen) == Some((m, seen, |r|));
    case Some(i) =>
      var f, prev, active := d.fields[i], m.vals[i], IsActive(d.fields[i], m);
      if DecFieldVal(f, wt, body, prev, active).Some? {
        DecFieldValLocal(f, wt, body, prev, active, rest);
        DecodeTakesWhatSkipTakes(f, wt, body, prev, active);
      } else if DecFieldVal(f, wt, body + rest, prev, active).Some? {
        DecodeTakesWhatSkipTakes(f, wt, body + rest, prev, active);
        DecFieldValLocal(f, wt, body, prev, active, rest);
      }
  }

  /** A record at the front of the input is one application of its effect. */
  lemma LoopRecord(d: Desc, r: seq<Byte>, m: Msg, seen: set<nat>, rest: seq<Byte>)
    requires IsRecord(r) && |m.vals| == |d.fields|
    ensures Loop(d, r + rest, m, seen)
         == match Effect(d, r, m, seen) case None => None case Some((m', seen')) => Loop(d, rest, m', seen')
  {
    DecRecordWhole(d, r, m, seen, rest);
    assert (r + rest)[|r|..] == rest;
  }

  // ----- unknown fields -----

  function Concat(rs: seq<seq<Byte>>): seq<Byte> {
    if rs == [] then [] else rs[0] + Concat(rs[1..])
  }

  ghost predicate AllRecords(rs: seq<seq<Byte>>) { forall i :: 0 <= i < |rs| ==> IsRecord(rs[i]) }

  predicate IsKnown(d: Desc, r: seq<Byte>) { IsRecord(r) && FindField(d.fields, RecordTag(r)).Some? }

  /** The records whose tag the schema declares. */
  function KnownRecords(d: Desc, rs: seq<seq<Byte>>): seq<seq<Byte>> {
    if rs == [] then []
    else if IsKnown(d, rs[0]) then [rs[0]] + KnownRecords(d, rs[1..])
    else KnownRecords(d, rs[1..])
  }

  /** Records of undeclared non-zero tags, anywhere between the records of a message and in any
      number, change neither whether it is accepted nor what is decoded. */
  lemma {:induction false} UnknownFieldsAreIgnored(d: Desc, rs: seq<seq<Byte>>, m: Msg, seen: set<nat>)
    requires AllRecords(rs) && |m.vals| == |d.fields|
    ensures Loop(d, Concat(rs), m, seen) == Loop(d, Concat(KnownRecords(d, rs)), m, seen)
  {
    if rs == [] {
    } else {
      var r, rest := rs[0], rs[1..];
      LoopRecord(d, r, m, seen, Concat(rest));
      if IsKnown(d, r) {
        LoopRecord(d, r, m, seen, Concat(KnownRecords(d, rest)));
        var e := Effect(d, r, m, seen);
        if e.Some? { UnknownFieldsAreIgnored(d, rest, e.value.0, e.value.1); }
        assert ([r] + KnownRecords(d, rest))[1..] == KnownRecords(d, rest);
      } else {
        UnknownFieldsAreIgnored(d, rest, m, seen);
      }
    }
  }

  // ----- reordering -----

  /** The part of a message a record writes: a field, or a whole oneof group. */
  datatype Slot = OfField(i: nat) | OfGroup(g: nat) | Nowhere

  function RecordSlot(d: Desc, r: seq<Byte>): Slot {
    if !IsKnown(d, r) then Nowhere
    else
      var i := FindField(d.fields, RecordTag(r)).value;
      if d.fields[i].h.OneOf? then OfGroup(d.fields[i].h.group) else OfField(i)
  }

  /** The records for one slot, in their order on the wire. */
  function Selected(d: Desc, rs: seq<seq<Byte>>, s: Slot): seq<seq<Byte>> {
    if rs == [] then [] else Hit(d, rs[0], s) + Selected(d, rs[1..], s)
  }

  function Hit(d: Desc, r: seq<Byte>, s: Slot): seq<seq<Byte>> { if RecordSlot(d, r) == s then [r] else [] }

  function Then(d: Desc, e: Option<(Msg, set<nat>)>, r: seq<Byte>): Option<(Msg, set<nat>)>
    requires IsRecord(r) && (e.Some? ==> |e.value.0.vals| == |d.fields|)
  {
    match e
    case None => None
    case Some((m, seen)) => Effect(d, r, m, seen)
  }

  /** Records that write different slots commute. */
  lemma RecordsCommute(d: Desc, r1: seq<Byte>, r2: seq<Byte>, m: Msg, seen: set<nat>)
    requires IsRecord(r1) && IsRecord(r2) && |m.vals| == |d.fields|
    requires RecordSlot(d, r1) != RecordSlot(d, r2) || RecordSlot(d, r1) == Nowhere
    ensures Then(d, Effect(d, r1, m, seen), r2) == Then(d, Effect(d, r2, m, seen), r1)
  {
    if IsKnown(d, r1) && IsKnown(d, r2) {
      var i1, i2 := FindField(d.fields, RecordTag(r1)).value, FindField(d.fields, RecordTag(r2)).value;
      KnownEffect(d, r1, i1, m, seen);
      KnownEffect(d, r2, i2, m, seen);
      var e1, e2 := Effect(d, r1, m, seen), Effect(d, r2, m, seen);
      if e1.Some? { KnownEffect(d, r2, i2, e1.value.0, e1.value.1); }
      if e2.Some? { KnownEffect(d, r1, i1, e2.value.0, e2.value.1); }
      if e1.Some? && e2.Some? {
        var v1, v2 := NewValue(d, r1, i1, m).value, NewValue(d, r2, i2, m).value;
        WritesCommute(d.fields[i1], i1, v1, d.fields[i2], i2, v2, m);
        assert Mark(d.fields, i1, Mark(d.fields, i2, seen)) == Mark(d.fields, i2, Mark(d.fields, i1, seen));
      }
    }
  }

  /** The new contents of the field that a known record is for. */
  function NewValue(d: Desc, r: seq<Byte>, i: nat, m: Msg): Option<Val>
    requires IsRecord(r) && |m.vals| == |d.fields| && i < |d.fields|
  {
    var (_, wt, n) := DecTag(r).value;
    match DecFieldVal(d.fields[i], wt, r[n..], m.vals[i], IsActive(d.fields[i], m))
    case None => None
    case Some((v, _)) => Some(v)
  }

  lemma KnownEffect(d: Desc, r: seq<Byte>, i: nat, m: Msg, seen: set<nat>)
    requires IsRecord(r) && |m.vals| == |d.fields| && FindField(d.fields, RecordTag(r)) == Some(i)
    ensures Effect(d, r, m, seen)
         == match NewValue(d, r, i, m)
            case None => None
            case Some(v) => Some((Write(d.fields[i], i, m, v), Mark(d.fields, i, seen)))
  {
    var (tag, wt, n) := DecTag(r).value;
    var upd := DecFieldVal(d.fields[i], wt, r[n..], m.vals[i], IsActive(d.fields[i], m));
    assert NewValue(d, r, i, m) == match upd case None => None case Some((v, _)) => Some(v);
    assert DecField(d.fields[i], i, wt, r[n..], m)
        == match upd case None => None case Some((v, k)) => Some((Write(d.fields[i], i, m, v), k));
    assert DecRecord(d, r, m, seen)
        == match upd
           case None => None
           case Some((v, k)) => Some((Write(d.fields[i], i, m, v), Mark(d.fields, i, seen), n + k));
  }

  lemma WritesCommute(f1: Field, i1: nat, v1: Val, f2: Field, i2: nat, v2: Val, m: Msg)
    requires i1 < |m.vals| && i2 < |m.vals| && i1 != i2
    requires f1.h.OneOf? && f2.h.OneOf? ==> f1.h.group != f2.h.group
    ensures Write(f1, i1, Write(f2, i2, m, v2), v1) == Write(f2, i2, Write(f1, i1, m, v1), v2)
  {
    assert m.vals[i1 := v1][i2 := v2] == m.vals[i2 := v2][i1 := v1];
    if f1.h.OneOf? && f2.h.OneOf? {
      assert m.which[f1.h.group := f1.tag][f2.h.group := f2.tag] == m.which[f2.h.group := f2.tag][f1.h.group := f1.tag];
    }
  }

  /** Bringing a record to the front past records for other slots changes nothing. */
  lemma ConcatCons(r: seq<Byte>, rs: seq<seq<Byte>>)
    ensures Concat([r] + rs) == r + Concat(rs)
  {
    assert ([r] + rs)[1..] == rs;
  }

  /** Two neighbouring records in either order, in front of the same rest. */
  lemma SwapFront(d: Desc, p: seq<Byte>, r: seq<Byte>, rest: seq<Byte>, m: Msg, seen: set<nat>)
    requires IsRecord(p) && IsRecord(r) && |m.vals| == |d.fields|
    requires RecordSlot(d, r) != Nowhere && RecordSlot(d, p) != RecordSlot(d, r)
    ensures Loop(d, p + (r + rest), m, seen) == Loop(d, r + (p + rest), m, seen)
  {
    RecordsCommute(d, p, r, m, seen);
    LoopRecord(d, p, m, seen, r + rest);
    LoopRecord(d, r, m, seen, p + rest);
    var e, e' := Effect(d, p, m, seen), Effect(d, r, m, seen);
    if e.Some? { LoopRecord(d, r, e.value.0, e.value.1, rest); }
    if e'.Some? { LoopRecord(d, p, e'.value.0, e'.value.1, rest); }
  }

  lemma {:induction false} ConcatAppend(a: seq<seq<Byte>>, b: seq<seq<Byte>>)
    ensures Concat(a + b) == Concat(a) + Concat(b)
  {
    if a == [] {
      assert a + b == b;
    } else {
      ConcatAppend(a[1..], b);
      assert a + b == [a[0]] + (a[1..] + b);
      ConcatCons(a[0], a[1..] + b);
    }
  }

  lemma Regroup(a: seq<Byte>, b: seq<Byte>, c: seq<Byte>)
    ensures (a + b) + c == a + (b + c)
  {
  }

  /** A record can be taken in front of records for other places, whatever follows. */
  lemma {:induction false} BringToFront(
    d: Desc, pre: seq<seq<Byte>>, r: seq<Byte>, rest: seq<Byte>, m: Msg, seen: set<nat>)
    requires AllRecords(pre) && IsRecord(r) && |m.vals| == |d.fields|
    requires RecordSlot(d, r) != Nowhere && forall i :: 0 <= i < |pre| ==> RecordSlot(d, pre[i]) != RecordSlot(d, r)
    ensures Loop(d, Concat(pre) + (r + rest), m, seen) == Loop(d, r + (Concat(pre) + rest), m, seen)
    decreases |pre|
  {
    if pre == [] {
      assert Concat(pre) + (r + rest) == r + rest && Concat(pre) + rest == rest;
    } else {
      var p, tail := pre[0], Concat(pre[1..]);
      Regroup(p, tail, r + rest);
      Regroup(p, tail, rest);
      LoopRecord(d, p, m, seen, tail + (r + rest));
      LoopRecord(d, p, m, seen, r + (tail + rest));
      var e := Effect(d, p, m, seen);
      if e.Some? { BringToFront(d, pre[1..], r, rest, e.value.0, e.value.1); }
      SwapFront(d, p, r, tail + rest, m, seen);
    }
  }

  lemma {:induction false} SelectedConcat(d: Desc, a: seq<seq<Byte>>, b: seq<seq<Byte>>, s: Slot)
    ensures Selected(d, a + b, s) == Selected(d, a, s) + Selected(d, b, s)
    decreases |a|
  {
    if a == [] {
      assert a + b == b;
    } else {
      assert (a + b)[1..] == a[1..] + b;
      SelectedConcat(d, a[1..], b, s);
    }
  }

  /** The first record for a slot: where it is, and that nothing before it writes that slot. */
  lemma {:induction false} FirstOf(d: Desc, rs: seq<seq<Byte>>, s: Slot) returns (p: nat)
    requires Selected(d, rs, s) != []
    ensures p < |rs| && rs[p] == Selected(d, rs, s)[0]
    ensures forall i :: 0 <= i < p ==> RecordSlot(d, rs[i]) != s
    ensures RecordSlot(d, rs[p]) == s
  {
    if RecordSlot(d, rs[0]) == s {
      p := 0;
    } else {
      p := FirstOf(d, rs[1..], s);
      p := p + 1;
    }
  }

  lemma RemoveFirst(d: Desc, rs: seq<seq<Byte>>, p: nat, s: Slot)
    requires p < |rs|
    ensures Selected(d, rs, s)
         == Selected(d, rs[..p], s) + (Hit(d, rs[p], s) + Selected(d, rs[p + 1..], s))
  {
    assert rs == rs[..p] + rs[p..] && rs[p..][1..] == rs[p + 1..];
    SelectedConcat(d, rs[..p], rs[p..], s);
  }

  lemma {:induction false} SelectedNone(d: Desc, rs: seq<seq<Byte>>, s: Slot)
    requires forall i :: 0 <= i < |rs| ==> RecordSlot(d, rs[i]) != s
    ensures Selected(d, rs, s) == []
  {
    if rs == [] {
    } else {
      SelectedNone(d, rs[1..], s);
    }
  }

  ghost predicate SameSelections(d: Desc, rs: seq<seq<Byte>>, ss: seq<seq<Byte>>) {
    forall s: Slot :: s != Nowhere ==> Selected(d, rs, s) == Selected(d, ss, s)
  }

  lemma {:induction false} SameSelectionsSameLoop(d: Desc, rs: seq<seq<Byte>>, ss: seq<seq<Byte>>, m: Msg,
                                                  seen: set<nat>)
    requires AllKnown(d, rs) && AllKnown(d, ss) && |m.vals| == |d.fields| && SameSelections(d, rs, ss)
    ensures Loop(d, Concat(rs), m, seen) == Loop(d, Concat(ss), m, seen)
    decreases |rs|
  {
    if rs == [] {
      EmptySelections(d, ss);
    } else {
      var s := RecordSlot(d, rs[0]);
      assert Selected(d, rs, s) == Selected(d, ss, s);
      var p := FirstOf(d, ss, s);
      var others := ss[..p] + ss[p + 1..];
      RestSelections(d, rs, ss, p);
      RestKnown(d, rs, ss, p);
      FrontRecord(d, ss, p, m, seen);
      HeadRecord(d, rs, m, seen);
      var e := Effect(d, rs[0], m, seen);
      if e.Some? { SameSelectionsSameLoop(d, rs[1..], others, e.value.0, e.value.1); }
    }
  }

  lemma HeadRecord(d: Desc, rs: seq<seq<Byte>>, m: Msg, seen: set<nat>)
    requires AllKnown(d, rs) && |m.vals| == |d.fields| && rs != []
    ensures var e := Effect(d, rs[0], m, seen);
      Loop(d, Concat(rs), m, seen) == if e.None? then None else Loop(d, Concat(rs[1..]), e.value.0, e.value.1)
  {
    assert Concat(rs) == rs[0] + Concat(rs[1..]);
    LoopRecord(d, rs[0], m, seen, Concat(rs[1..]));
  }

  ghost predicate AllKnown(d: Desc, rs: seq<seq<Byte>>) { forall i :: 0 <= i < |rs| ==> IsKnown(d, rs[i]) }

  lemma RestKnown(d: Desc, rs: seq<seq<Byte>>, ss: seq<seq<Byte>>, p: nat)
    requires AllKnown(d, rs) && AllKnown(d, ss) && rs != [] && p < |ss|
    ensures AllKnown(d, rs[1..]) && AllKnown(d, ss[..p] + ss[p + 1..])
  {
  }

  /** The first record for its slot can be decoded before all others. */
  lemma FrontRecord(d: Desc, ss: seq<seq<Byte>>, p: nat, m: Msg, seen: set<nat>)
    requires AllKnown(d, ss) && |m.vals| == |d.fields| && p < |ss|
    requires forall i :: 0 <= i < p ==> RecordSlot(d, ss[i]) != RecordSlot(d, ss[p])
    ensures var e, others := Effect(d, ss[p], m, seen), ss[..p] + ss[p + 1..];
      Loop(d, Concat(ss), m, seen) == if e.None? then None else Loop(d, Concat(others), e.value.0, e.value.1)
  {
    var r, pre, post := ss[p], ss[..p], ss[p + 1..];
    assert ss == pre + ([r] + post);
    ConcatAppend(pre, [r] + post);
    ConcatCons(r, post);
    ConcatAppend(pre, post);
    BringToFront(d, pre, r, Concat(post), m, seen);
    LoopRecord(d, r, m, seen, Concat(pre) + Concat(post));
  }

  lemma EmptySelections(d: Desc, ss: seq<seq<Byte>>)
    requires forall i :: 0 <= i < |ss| ==> IsKnown(d, ss[i])
    requires SameSelections(d, [], ss)
    ensures ss == []
  {
    var s := if ss == [] then Nowhere else RecordSlot(d, ss[0]);
    assert s != Nowhere ==> Selected(d, ss, s) == Selected(d, [], s);
  }

  lemma RestSelection(d: Desc, rs: seq<seq<Byte>>, ss: seq<seq<Byte>>, p: nat, t: Slot)
    requires rs != [] && p < |ss| && ss[p] == rs[0] && Selected(d, rs, t) == Selected(d, ss, t)
    requires RecordSlot(d, rs[0]) == t ==> Selected(d, ss[..p], t) == []
    ensures Selected(d, rs[1..], t) == Selected(d, ss[..p], t) + Selected(d, ss[p + 1..], t)
  {
    RemoveFirst(d, ss, p, t);
    Cancel(Hit(d, rs[0], t), Selected(d, rs[1..], t), Selected(d, ss[..p], t), Selected(d, ss[p + 1..], t));
  }

  lemma Cancel<T>(h: seq<T>, tail: seq<T>, pre: seq<T>, post: seq<T>)
    requires h + tail == pre + (h + post) && (h == [] || pre == [])
    ensures tail == pre + post
  {
    assert tail == (h + tail)[|h|..];
    assert pre == [] ==> post == (h + post)[|h|..];
  }

  /** Taking the same first record away from both sides keeps the selections equal. */
  lemma RestSelections(d: Desc, rs: seq<seq<Byte>>, ss: seq<seq<Byte>>, p: nat)
    requires rs != [] && p < |ss| && ss[p] == rs[0] && SameSelections(d, rs, ss)
    requires forall i :: 0 <= i < p ==> RecordSlot(d, ss[i]) != RecordSlot(d, rs[0])
    ensures SameSelections(d, rs[1..], ss[..p] + ss[p + 1..])
  {
    SelectedNone(d, ss[..p], RecordSlot(d, rs[0]));
    forall t: Slot | t != Nowhere
      ensures Selected(d, rs[1..], t) == Selected(d, ss[..p] + ss[p + 1..], t)
    {
      RestSelection(d, rs, ss, p, t);
      SelectedConcat(d, ss[..p], ss[p + 1..], t);
    }
  }

  lemma {:induction false} SelectedOfKnown(d: Desc, rs: seq<seq<Byte>>, s: Slot)
    requires s != Nowhere
    ensures Selected(d, KnownRecords(d, rs), s) == Selected(d, rs, s)
  {
    if rs == [] {
    } else {
      SelectedOfKnown(d, rs[1..], s);
      if IsKnown(d, rs[0]) {
        assert KnownRecords(d, rs)[1..] == KnownRecords(d, rs[1..]);
      }
    }
  }

  lemma {:induction false} KnownAreKnown(d: Desc, rs: seq<seq<Byte>>)
    ensures forall i :: 0 <= i < |KnownRecords(d, rs)| ==> IsKnown(d, KnownRecords(d, rs)[i])
  {
    if rs == [] {
    } else {
      KnownAreKnown(d, rs[1..]);
    }
  }

  /** Two inputs made of records decode alike, error or not, when every field and every oneof group
      sees the same records in the same order: unknown records may be added or dropped, and records
      for different fields may be interleaved in any way. */
  lemma OnlySelectionsMatter(d: Desc, rs: seq<seq<Byte>>, ss: seq<seq<Byte>>, m: Msg)
    requires AllRecords(rs) && AllRecords(ss) && SameSelections(d, rs, ss)
    ensures Dec(d, Concat(rs), m) == Dec(d, Concat(ss), m)
  {
    if |m.vals| == |d.fields| {
      var kr, ks := KnownRecords(d, rs), KnownRecords(d, ss);
      UnknownFieldsAreIgnored(d, rs, m, {});
      UnknownFieldsAreIgnored(d, ss, m, {});
      KnownAreKnown(d, rs);
      KnownAreKnown(d, ss);
      forall s: Slot | s != Nowhere ensures Selected(d, kr, s) == Selected(d, ks, s) {
        SelectedOfKnown(d, rs, s);
        SelectedOfKnown(d, ss, s);
      }
      SameSelectionsSameLoop(d, kr, ks, m, {});
    }
  }

  // ----- permutations -----

  lemma {:induction false} SelectedMultiplicity(d: Desc, rs: seq<seq<Byte>>, s: Slot, x: seq<Byte>)
    ensures multiset(Selected(d, rs, s))[x] == if RecordSlot(d, x) == s then multiset(rs)[x] else 0
  {
    if rs == [] {
    } else {
      assert rs == [rs[0]] + rs[1..];
      SelectedMultiplicity(d, rs[1..], s, x);
    }
  }

  /** When no two records are for the same field or oneof group, any permutation of them decodes alike. */
  lemma PermutedRecordsDecodeAlike(d: Desc, rs: seq<seq<Byte>>, ss: seq<seq<Byte>>, m: Msg)
    requires AllRecords(rs) && multiset(rs) == multiset(ss)
    requires forall s: Slot :: s != Nowhere ==> |Selected(d, rs, s)| <= 1
    ensures Dec(d, Concat(rs), m) == Dec(d, Concat(ss), m)
  {
    forall i | 0 <= i < |ss| ensures IsRecord(ss[i]) {
      assert ss[i] in multiset(ss);
      assert ss[i] in rs;
    }
    forall s: Slot | s != Nowhere ensures Selected(d, rs, s) == Selected(d, ss, s) {
      var a, b := Selected(d, rs, s), Selected(d, ss, s);
      forall x ensures multiset(a)[x] == multiset(b)[x] {
        SelectedMultiplicity(d, rs, s, x);
        SelectedMultiplicity(d, ss, s, x);
      }
      assert multiset(a) == multiset(b);
      SmallSequences(a, b);
    }
    OnlySelectionsMatter(d, rs, ss, m);
  }

  lemma SmallSequences<T>(a: seq<T>, b: seq<T>)
    requires multiset(a) == multiset(b) && |a| <= 1
    ensures a == b
  {
    assert |multiset(a)| == |a| && |multiset(b)| == |b|;
    if |a| == 1 { assert a[0] in multiset(b); }
  }
}
