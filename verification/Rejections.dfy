/** What the decoder refuses, in numbers: wrong wire types, field number 0, and messages in which a
    required field is missing. */
module Rejections {
  import opened Basics
  import opened Schema
  import opened Decoding
  import opened WireOrder

  /** A field takes records of its own wire type only; 255 marks an element of a packed array. */
  lemma WrongWireType(l: LType, wt: nat, bs: seq<Byte>, cur: Val)
    requires DecBasic(l, wt, bs, cur).Some?
    ensures l.Bool? || l.Varint? || l.UVarint? || l.SVarint? ==> wt == 0 || wt == 255
    ensures l.Fixed64? ==> wt == 1 || wt == 255
    ensures l.Fixed32? ==> wt == 5 || wt == 255
    ensures l.Bytes? || l.String? || l.FixedBytes? || l.SubMessage? ==> wt == 2
  {
  }

  /** There is no field number 0. */
  lemma ZeroTagFails(d: Desc, bs: seq<Byte>, m: Msg, wt: nat, n: nat)
    requires |m.vals| == |d.fields| && DecTag(bs) == Some((0, wt, n))
    ensures Dec(d, bs, m).None?
  {
    assert DecRecord(d, bs, m, {}).None?;
    assert Loop(d, bs, m, {}).None?;
  }

  /** A member of a oneof that becomes the active one starts from its default, whatever stood there. */
  lemma MemberStartsFresh(f: Field, wt: nat, bs: seq<Byte>, prev: Val)
    requires f.h.OneOf?
    ensures DecFieldVal(f, wt, bs, prev, false) == DecFieldVal(f, wt, bs, DefaultVal(f.l), false)
  {
  }

  // ----- required fields -----

  predicate Mentions(rs: seq<seq<Byte>>, tag: nat) {
    exists k :: 0 <= k < |rs| && IsRecord(rs[k]) && RecordTag(rs[k]) == tag
  }

  lemma {:induction false} SeenAreMentioned(d: Desc, rs: seq<seq<Byte>>, m: Msg, seen: set<nat>, i: nat)
    requires AllRecords(rs) && |m.vals| == |d.fields| && Loop(d, Concat(rs), m, seen).Some? && i < |d.fields|
    requires i in Loop(d, Concat(rs), m, seen).value.1 && i !in seen
    ensures Mentions(rs, d.fields[i].tag)
  {
    if rs == [] {
    } else {
      assert Concat(rs) == rs[0] + Concat(rs[1..]);
      LoopRecord(d, rs[0], m, seen, Concat(rs[1..]));
      var (m', seen') := Effect(d, rs[0], m, seen).value;
      if i in seen' {
        EffectMarks(d, rs[0], m, seen, i);
        assert RecordTag(rs[0]) == d.fields[i].tag;
      } else {
        SeenAreMentioned(d, rs[1..], m', seen', i);
        var k :| 0 <= k < |rs[1..]| && IsRecord(rs[1..][k]) && RecordTag(rs[1..][k]) == d.fields[i].tag;
        assert rs[k + 1] == rs[1..][k];
      }
    }
  }

  lemma EffectMarks(d: Desc, r: seq<Byte>, m: Msg, seen: set<nat>, i: nat)
    requires IsRecord(r) && |m.vals| == |d.fields| && Effect(d, r, m, seen).Some? && i < |d.fields|
    requires i in Effect(d, r, m, seen).value.1 && i !in seen
    ensures RecordTag(r) == d.fields[i].tag
  {
  }

  /** A message is only accepted when every required field, of the first 64, occurs in it. */
  lemma MissingRequiredFails(d: Desc, rs: seq<seq<Byte>>, i: nat)
    requires AllRecords(rs) && i < |d.fields| && d.fields[i].h.Required? && RequiredIndex(d.fields, i) < 64
    requires Decode(d, Concat(rs)).Some?
    ensures Mentions(rs, d.fields[i].tag)
  {
    assert Tracked(d.fields, i);
    SeenAreMentioned(d, rs, DefaultMsg(d), {}, i);
  }
}
