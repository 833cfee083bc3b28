/** The field iterator: four indices and a cached entry, advanced in place over packed descriptors.

    The descriptor is the packed form of a list of fields. The iterator only sees the words; the list
    is what the contracts talk about. */
module FieldIterator {
  import opened Basics
  import opened FieldInfo

  // ----- constants of the type byte -----

  const LTYPE_MASK: bv32 := 0x0F
  const LTYPE_SUBMESSAGE: bv32 := 0x08
  const LTYPE_SUBMSG_W_CB: bv32 := 0x09
  const LTYPE_EXTENSION: bv32 := 0x0A
  const HTYPE_MASK: bv32 := 0x30
  const HTYPE_REQUIRED: bv32 := 0x00
  const HTYPE_REPEATED: bv32 := 0x20

  predicate IsSubmessage(t: bv32) { t & LTYPE_MASK == LTYPE_SUBMESSAGE || t & LTYPE_MASK == LTYPE_SUBMSG_W_CB }
  predicate IsRequired(t: bv32) { t & HTYPE_MASK == HTYPE_REQUIRED }
  predicate IsExtension(t: bv32) { t & LTYPE_MASK == LTYPE_EXTENSION }

  // ----- descriptors -----

  function Words(fields: seq<Info>): seq<bv32> {
    if fields == [] then [] else Pack(fields[0]) + Words(fields[1..])
  }

  /** The three running indices in front of field number k. */
  function WordsBefore(fields: seq<Info>, k: nat): nat
    requires k <= |fields|
  {
    if k == 0 then 0 else WordsBefore(fields, k - 1) + fields[k - 1].width.Words()
  }

  function RequiredBefore(fields: seq<Info>, k: nat): (n: nat)
    requires k <= |fields|
    ensures n <= k
  {
    if k == 0 then 0 else RequiredBefore(fields, k - 1) + Count(IsRequired(fields[k - 1].fieldType))
  }

  function SubmessagesBefore(fields: seq<Info>, k: nat): (n: nat)
    requires k <= |fields|
    ensures n <= k
  {
    if k == 0 then 0 else SubmessagesBefore(fields, k - 1) + Count(IsSubmessage(fields[k - 1].fieldType))
  }

  predicate Rises(fields: seq<Info>, i: nat, j: nat)
    requires i < j < |fields|
  {
    fields[i].tag as nat < fields[j].tag as nat
  }

  predicate Sorted(fields: seq<Info>) {
    forall i, j {:trigger Rises(fields, i, j)} :: 0 <= i < j < |fields| ==> Rises(fields, i, j)
  }

  predicate FitsAt(fields: seq<Info>, k: nat)
    requires k < |fields|
  {
    Fits(fields[k]) && !IsExtension(fields[k].fieldType)
  }

  /** What the generator guarantees: every entry fits, tags rise, and 16-bit indices suffice. */
  predicate ValidFields(fields: seq<Info>) {
    && (forall k {:trigger FitsAt(fields, k)} :: 0 <= k < |fields| ==> FitsAt(fields, k))
    && Sorted(fields)
    && |fields| < 0xFFFF && WordsBefore(fields, |fields|) < 0x1_0000
  }

  predicate TagAtMost(fields: seq<Info>, k: nat, largest: bv32)
    requires k < |fields|
  {
    fields[k].tag as nat <= largest as nat
  }

  /** `pb_msgdesc_t`; submessage descriptors are known by number. */
  datatype Descriptor = Descriptor(fieldInfo: seq<bv32>, submsgInfo: seq<nat>, fieldCount: nat, largestTag: bv32)

  predicate Describes(d: Descriptor, fields: seq<Info>) {
    && ValidFields(fields)
    && d.fieldInfo == Words(fields) && d.fieldCount == |fields|
    && |d.submsgInfo| == SubmessagesBefore(fields, |fields|)
    && (forall k {:trigger TagAtMost(fields, k, d.largestTag)} | 0 <= k < |fields| ::
          TagAtMost(fields, k, d.largestTag))
  }

  // ----- entries are where the indices say -----

  lemma WordsBeforeTail(fields: seq<Info>, k: nat)
    requires 0 < k <= |fields|
    ensures WordsBefore(fields, k) == fields[0].width.Words() + WordsBefore(fields[1..], k - 1)
  {
    if k <= 1 {
    } else {
      WordsBeforeTail(fields, k - 1);
    }
  }

  lemma {:induction false} EntryAt(fields: seq<Info>, k: nat)
    requires k < |fields|
    ensures WordsBefore(fields, k) <= |Words(fields)|
    ensures Words(fields)[WordsBefore(fields, k)..] == Pack(fields[k]) + Words(fields[k + 1..])
  {
    if k == 0 {
      assert Words(fields)[0..] == Words(fields);
    } else {
      EntryAt(fields[1..], k - 1);
      WordsBeforeTail(fields, k);
      DropBoth(Pack(fields[0]), Words(fields[1..]), WordsBefore(fields[1..], k - 1));
      assert fields[1..][k..] == fields[k + 1..];
    }
  }

  lemma DropBoth(a: seq<bv32>, b: seq<bv32>, n: nat)
    requires n <= |b|
    ensures (a + b)[|a| + n..] == b[n..]
  {
  }

  lemma BeforeIsMonotone(fields: seq<Info>, k: nat, n: nat)
    requires k <= n <= |fields|
    ensures WordsBefore(fields, k) <= WordsBefore(fields, n)
    ensures SubmessagesBefore(fields, k) <= SubmessagesBefore(fields, n)
    ensures RequiredBefore(fields, k) <= RequiredBefore(fields, n)
    decreases n - k
  {
    if k >= n {
    } else {
      BeforeIsMonotone(fields, k + 1, n);
    }
  }

  /** The entry of field k, read from its first word on. */
  lemma EntryUnpacks(fields: seq<Info>, k: nat)
    requires ValidFields(fields) && k < |fields|
    ensures var at, words := WordsBefore(fields, k), Words(fields);
      && at + fields[k].width.Words() <= |words|
      && WidthOf(words[at]) == fields[k].width && TypeOf(words[at]) == fields[k].fieldType
      && LowTag(words[at]) == fields[k].tag & 0x3F
      && Unpack(words[at..]) == Stored(fields[k])
      && !IsExtension(fields[k].fieldType)
  {
    assert FitsAt(fields, k);
    EntryAt(fields, k);
    HeadWord(fields[k]);
    UnpackUndoesPack(fields[k], Words(fields[k + 1..]));
    assert Words(fields)[WordsBefore(fields, k)] == Words(fields)[WordsBefore(fields, k)..][0];
  }

  /** The fast check of `pb_field_iter_find` never misses the tag that is looked for. */
  lemma FastCheck(fields: seq<Info>, k: nat, tag: bv32)
    requires ValidFields(fields) && k < |fields|
    ensures WordsBefore(fields, k) < |Words(fields)| && !IsExtension(fields[k].fieldType)
    ensures fields[k].tag == tag ==> LowTag(Words(fields)[WordsBefore(fields, k)]) == tag & 0x3F
  {
    EntryUnpacks(fields, k);
  }

  /** How the indices of the next field follow from the first word of this one. */
  lemma IndicesStep(fields: seq<Info>, k: nat)
    requires ValidFields(fields) && k < |fields|
    ensures WordsBefore(fields, k) < |Words(fields)|
    ensures var word := Words(fields)[WordsBefore(fields, k)];
      && WordsBefore(fields, k + 1) == WordsBefore(fields, k) + WidthOf(word).Words() < 0x1_0000
      && RequiredBefore(fields, k + 1) == RequiredBefore(fields, k) + Count(IsRequired(TypeOf(word)))
      && SubmessagesBefore(fields, k + 1) == SubmessagesBefore(fields, k) + Count(IsSubmessage(TypeOf(word)))
  {
    EntryUnpacks(fields, k);
    BeforeIsMonotone(fields, k + 1, |fields|);
  }

  /** A sum of two numbers below 2^16 that is kept in 16 bits. */
  function Wrap16(n: nat): nat { if n < 0x1_0000 then n else n - 0x1_0000 }

  /** None of the indices wraps. */
  lemma SmallIndices(fields: seq<Info>, k: nat, info: nat, required: nat, submessage: nat)
    requires ValidFields(fields) && k < |fields| && info == WordsBefore(fields, k)
    requires required == RequiredBefore(fields, k) && submessage == SubmessagesBefore(fields, k)
    ensures Wrap16(info) == info && Wrap16(required) == required && Wrap16(submessage) == submessage
  {
    BeforeIsMonotone(fields, k, |fields|);
  }

  function Count(b: bool): nat { if b then 1 else 0 }

  // ----- the iterator -----

  /** Where the size or has flag of a field is kept. */
  datatype SizePlace = NoSize | SizeAt(address: int) | OwnArraySize

  /** The values that are loaded for a field, given the address of the message, if there is one. */
  datatype Loaded = Loaded(tag: bv32, dataSize: bv32, arraySize: bv32, fieldType: bv32, place: Option<int>,
                           size: SizePlace, submsg: Option<nat>)

  function SignedByte(x: bv32): int { if x < 0x80 then x as int else (x as int) - 0x1_0000_0000 }

  function LoadedFrom(f: Info, message: Option<nat>, submsg: Option<nat>): Loaded {
    if message.None? then Loaded(f.tag, f.dataSize, f.arraySize, f.fieldType, None, NoSize, submsg)
    else
      var place: int := message.value + f.dataOffset as int;
      Loaded(f.tag, f.dataSize, f.arraySize, f.fieldType, Some(place),
             if f.sizeOffset != 0 then SizeAt(place - SignedByte(f.sizeOffset))
             else if f.fieldType & HTYPE_MASK == HTYPE_REPEATED then OwnArraySize else NoSize,
             submsg)
  }

  /** No field from number `from` up to `to` has this tag. */
  predicate Misses(fields: seq<Info>, tag: bv32, from: nat, to: nat) {
    forall k :: from <= k < to && k < |fields| ==> fields[k].tag != tag
  }

  lemma TooLarge(d: Descriptor, fields: seq<Info>, tag: bv32)
    requires Describes(d, fields) && tag as nat > d.largestTag as nat
    ensures Misses(fields, tag, 0, |fields|)
  {
    forall k | 0 <= k < |fields| ensures fields[k].tag != tag { assert TagAtMost(fields, k, d.largestTag); }
  }

  lemma RisingTags(fields: seq<Info>, tag: bv32, start: nat)
    requires Sorted(fields) && start < |fields| && tag as nat < fields[start].tag as nat
    ensures Misses(fields, tag, start, |fields| + 1)
  {
    forall k | start <= k < |fields| ensures fields[k].tag != tag {
      if start < k { assert Rises(fields, start, k); }
    }
  }

  class Iter {
    const descriptor: Descriptor
    const message: Option<nat>
    var index: nat
    var fieldInfoIndex: nat
    var requiredFieldIndex: nat
    var submessageIndex: nat
    var current: Loaded
    ghost const fields: seq<Info>

    ghost predicate Valid() { Describes(descriptor, fields) && |fields| > 0 }

    /** The four indices belong to field number `index`. */
    ghost predicate Standing()
      requires Valid()
      reads this
    {
      && index < |fields|
      && fieldInfoIndex == WordsBefore(fields, index)
      && requiredFieldIndex == RequiredBefore(fields, index)
      && submessageIndex == SubmessagesBefore(fields, index)
    }

    /** The submessage descriptor of field k, if it is a submessage. */
    ghost function SubmessageOf(k: nat): Option<nat>
      requires Valid() && k < |fields|
    {
      BeforeIsMonotone(fields, k + 1, |fields|);
      if IsSubmessage(fields[k].fieldType) then Some(descriptor.submsgInfo[SubmessagesBefore(fields, k)]) else None
    }

    /** What must be loaded for field k. */
    ghost function Values(k: nat): Loaded
      requires Valid() && k < |fields|
    {
      LoadedFrom(Stored(fields[k]), message, SubmessageOf(k))
    }

    ghost predicate Consistent()
      reads this
    {
      Valid() && Standing() && current == Values(index)
    }

    /** `pb_field_iter_begin` on a message that has fields. */
    constructor (d: Descriptor, message: Option<nat>, ghost fields: seq<Info>)
      requires Describes(d, fields) && fields != []
      ensures Consistent() && index == 0 && this.fields == fields && descriptor == d && this.message == message
    {
      descriptor, this.message, this.fields := d, message, fields;
      index, fieldInfoIndex, requiredFieldIndex, submessageIndex := 0, 0, 0, 0;
      current := Loaded(0, 0, 0, 0, None, NoSize, None);
      new;
      var ok := Load();
    }

    /** `load_descriptor_values` */
    method Load() returns (ok: bool)
      requires Valid() && (Standing() || index >= descriptor.fieldCount)
      modifies this`current
      ensures ok <==> index < descriptor.fieldCount
      ensures if ok then Consistent() else current == old(current)
    {
      if index >= descriptor.fieldCount { return false; }
      EntryUnpacks(fields, index);
      var f := Unpack(descriptor.fieldInfo[fieldInfoIndex..]);
      var submsg := FindSubmessage(f.fieldType);
      current := LoadedFrom(f, message, submsg);
      ok := true;
    }

    method FindSubmessage(fieldType: bv32) returns (submsg: Option<nat>)
      requires Valid() && Standing() && fieldType == fields[index].fieldType
      ensures submsg == SubmessageOf(index)
    {
      BeforeIsMonotone(fields, index + 1, |fields|);
      submsg := None;
      if IsSubmessage(fieldType) { submsg := Some(descriptor.submsgInfo[submessageIndex]); }
    }

    /** `advance_iterator`; all indices are 16-bit numbers. */
    method Advance()
      requires Valid() && (Standing() || index == descriptor.fieldCount)
      modifies this`index, this`fieldInfoIndex, this`requiredFieldIndex, this`submessageIndex
      ensures Standing() && index == if old(index) + 1 >= |fields| then 0 else old(index) + 1
    {
      index := Wrap16(index + 1);
      if index >= descriptor.fieldCount {
        index := 0;
        fieldInfoIndex := 0;
        submessageIndex := 0;
        requiredFieldIndex := 0;
      } else {
        StepOver();
      }
    }

    /** Move the three indices over the entry in front of field number `index`. */
    method StepOver()
      requires Valid() && 0 < index < |fields|
      requires fieldInfoIndex == WordsBefore(fields, index - 1)
      requires requiredFieldIndex == RequiredBefore(fields, index - 1)
          && submessageIndex == SubmessagesBefore(fields, index - 1)
      modifies this`fieldInfoIndex, this`requiredFieldIndex, this`submessageIndex
      ensures Standing()
    {
      IndicesStep(fields, index - 1);
      var previous := descriptor.fieldInfo[fieldInfoIndex];
      var info := fieldInfoIndex + WidthOf(previous).Words();
      var required := requiredFieldIndex + Count(IsRequired(TypeOf(previous)));
      var submessage := submessageIndex + Count(IsSubmessage(TypeOf(previous)));
      SmallIndices(fields, index, info, required, submessage);
      fieldInfoIndex, requiredFieldIndex, submessageIndex := Wrap16(info), Wrap16(required), Wrap16(submessage);
    }

    /** `pb_field_iter_next` */
    method Next() returns (more: bool)
      requires Consistent()
      modifies this
      ensures Consistent()
      ensures index == (if old(index) + 1 == |fields| then 0 else old(index) + 1) && (more <==> index != 0)
    {
      Advance();
      var ok := Load();
      more := index != 0;
    }

    /** The body of the search loop: a fast check of six bits of the tag, then a full one. */
    method Probe(tag: bv32) returns (hit: bool)
      requires Valid() && Standing()
      modifies this`current
      ensures hit <==> fields[index].tag == tag
      ensures hit ==> Consistent()
    {
      FastCheck(fields, index, tag);
      var word := descriptor.fieldInfo[fieldInfoIndex];
      hit := false;
      if LowTag(word) == tag & 0x3F {
        var ok := Load();
        hit := current.tag == tag && !IsExtension(current.fieldType);
      }
    }

    /** `pb_field_iter_find`: from any field it terminates, finds the field with this tag exactly when
        there is one, and otherwise comes back to where it started. */
    method Find(tag: bv32) returns (found: bool)
      requires Consistent()
      modifies this
      ensures Consistent()
      ensures found <==> !Misses(fields, tag, 0, |fields|)
      ensures if found then fields[index].tag == tag else index == old(index)
    {
      var here, start := current.tag, index;
      assert here == fields[start].tag;
      if here == tag { return true; }
      if tag as nat > descriptor.largestTag as nat {
        TooLarge(descriptor, fields, tag);
        return false;
      }
      if tag as nat < here as nat {
        RisingTags(fields, tag, start);
        index := descriptor.fieldCount;
      }
      found := Search(tag, start);
    }

    /** The search loop of `pb_field_iter_find`, which goes round at most once. */
    method Search(tag: bv32, start: nat) returns (found: bool)
      requires Valid() && start < |fields|
      requires (Standing() && index == start) || index == |fields|
      requires Misses(fields, tag, start, index + 1)
      modifies this
      ensures Consistent()
      ensures found <==> !Misses(fields, tag, 0, |fields|)
      ensures if found then fields[index].tag == tag else index == start
    {
      var done, wrapped := false, false;
      while !done
        invariant Standing() || (index == |fields| && !wrapped)
        invariant !wrapped ==> start <= index && !done && Misses(fields, tag, start, index + 1)
        invariant wrapped ==> index <= start && (done <==> index == start)
        invariant wrapped ==> Misses(fields, tag, 0, index + 1) && Misses(fields, tag, start, |fields|)
        decreases if wrapped then start - index else |fields| + 1 + start - index, !done
      {
        Advance();
        if index == 0 { wrapped := true; }
        var hit := Probe(tag);
        if hit { return true; }
        done := index == start;
      }
      var ok := Load();
      return false;
    }
  }
}
