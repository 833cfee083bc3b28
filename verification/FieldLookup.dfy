/** The field iterator finds what the decoder looks for: one descriptor seen as packed words and as a
    list of fields. */
module FieldLookup {
  import opened Basics
  import opened FieldInfo
  import opened FieldIterator
  import S = Schema
  import D = Decoding

  /** The packed entries carry the tags of the fields. */
  ghost predicate SameTags(fs: seq<S.Field>, infos: seq<Info>) {
    |fs| == |infos| && forall k {:trigger TagIs(fs, infos, k)} :: 0 <= k < |fs| ==> TagIs(fs, infos, k)
  }

  ghost predicate TagIs(fs: seq<S.Field>, infos: seq<Info>, k: nat)
    requires k < |fs| == |infos|
  {
    fs[k].tag == infos[k].tag as nat
  }

  lemma SameNumber(a: bv32, b: bv32)
    requires a as nat == b as nat
    ensures a == b
  {
    assert (a as nat) as bv32 == a;
    assert (b as nat) as bv32 == b;
  }

  lemma NoneFound(fs: seq<S.Field>, infos: seq<Info>, tag: bv32)
    requires SameTags(fs, infos) && D.FindField(fs, tag as nat).None?
    ensures Misses(infos, tag, 0, |infos|)
  {
    forall k | 0 <= k < |infos| ensures infos[k].tag != tag {
      assert TagIs(fs, infos, k);
    }
  }

  lemma OneFound(fs: seq<S.Field>, infos: seq<Info>, tag: bv32)
    requires SameTags(fs, infos) && D.FindField(fs, tag as nat).Some?
    ensures infos[D.FindField(fs, tag as nat).value].tag == tag
  {
    var k := D.FindField(fs, tag as nat).value;
    assert TagIs(fs, infos, k);
    SameNumber(infos[k].tag, tag);
  }

  lemma DifferentTags(infos: seq<Info>, i: nat, j: nat)
    requires Sorted(infos) && i < |infos| && j < |infos| && i != j
    ensures infos[i].tag != infos[j].tag
  {
    if i < j { assert Rises(infos, i, j); } else { assert Rises(infos, j, i); }
  }

  /** `pb_field_iter_find` from any field gives what the decoder's lookup gives: the same verdict, and
      the same position. */
  method Lookup(iter: Iter, fs: seq<S.Field>, tag: bv32) returns (found: bool)
    requires iter.Consistent() && SameTags(fs, iter.fields)
    modifies iter
    ensures iter.Consistent() && D.FindField(fs, tag as nat) == if found then Some(iter.index) else None
  {
    found := iter.Find(tag);
    SameAnswer(fs, iter.fields, tag, found, iter.index);
  }

  lemma SameAnswer(fs: seq<S.Field>, infos: seq<Info>, tag: bv32, found: bool, index: nat)
    requires SameTags(fs, infos) && Sorted(infos) && index < |infos|
    requires found <==> !Misses(infos, tag, 0, |infos|)
    requires found ==> infos[index].tag == tag
    ensures D.FindField(fs, tag as nat) == if found then Some(index) else None
  {
    var r := D.FindField(fs, tag as nat);
    if r.Some? {
      OneFound(fs, infos, tag);
      if index != r.value { DifferentTags(infos, index, r.value); }
    } else {
      NoneFound(fs, infos, tag);
    }
  }
}
