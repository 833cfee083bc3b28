/** What pb_decode.c does with the bytes of a message, as functions on byte strings.

    Each reader answers with its result and the number of bytes taken, or `None` for an error.
    The recursion is on the bytes that are left, never on the descriptor. */
module Decoding {
  import opened Basics
  import opened Schema
  import E = Encoding
  import V = Base128

  /** PB_WT_PACKED: the marker for an element of a packed array. */
  const WT_PACKED: nat := 255

  // ----- scalars -----

  function ReadBytes(bs: seq<Byte>, n: nat): (r: Option<(seq<Byte>, nat)>)
    ensures r.Some? ==> r.value.1 == n <= |bs|
  {
    if n <= |bs| then Some((bs[..n], n)) else None
  }

  function FromLittleEndian(bs: seq<Byte>): nat {
    if bs == [] then 0 else bs[0] + 256 * FromLittleEndian(bs[1..])
  }

  /** A length prefix and the bytes it counts. */
  function ReadDelimited(bs: seq<Byte>): (r: Option<(seq<Byte>, nat)>)
    ensures r.Some? ==> |r.value.0| < r.value.1 <= |bs|
    ensures r.Some? ==> r.value.0 == bs[r.value.1 - |r.value.0|..r.value.1]
  {
    match V.Read32(bs)
    case None => None
    case Some((size, n)) => if |bs| - n < size then None else Some((bs[n..n + size], n + size))
  }

  function ToSigned32(u: int): int { if u >= TWO_TO_THE_31 then u - TWO_TO_THE_32 else u }

  /** The number of a varint field, or nothing when its storage would truncate it. */
  function Clamp(l: LType, value: nat): Option<Val> {
    match l
    case UVarint(size) => if InUnsigned(value, size) then Some(Num(value)) else None
    case SVarint(size) =>
      var s := V.UnZigZag(value);
      if InSigned(s, size) then Some(Num(s)) else None
    case Varint(size) =>
      var s := if size == 8 then V.ToSigned64(value) else ToSigned32(value % TWO_TO_THE_32);
      if InSigned(s, size) then Some(Num(s)) else None
    case _ => None
  }

  /** The value a delimited record stores in a bytes, string or fixed-length field. */
  function Store(l: LType, data: seq<Byte>): Option<Val> {
    match l
    case Bytes(capacity) =>
      if |data| > PB_SIZE_MAX || |data| > capacity then None else Some(Blob(data))
    case String(size) =>
      if |data| == TWO_TO_THE_32 - 1 || |data| + 1 > size then None else Some(Blob(data + [0]))
    case FixedBytes(size) =>
      if |data| > PB_SIZE_MAX then None
      else if data == [] then Some(Blob(seq(size, _ => 0)))
      else if |data| != size then None
      else Some(Blob(data))
    case _ => None
  }

  predicate AcceptsWireType(l: LType, wt: nat) {
    wt == E.WireType(l) || (wt == WT_PACKED && l.Packable())
  }

  /** `decode_basic_field` for everything but submessages. */
  function DecScalar(l: LType, wt: nat, bs: seq<Byte>): (r: Option<(Val, nat)>)
    ensures r.Some? ==> 1 <= r.value.1 <= |bs|
  {
    if !AcceptsWireType(l, wt) then None
    else
      match l
      case Bool =>
        (match V.Read32(bs)
         case None => None
         case Some((v, n)) => Some((Num(if v != 0 then 1 else 0), n)))
      case Varint(_) | UVarint(_) | SVarint(_) =>
        (match V.Read64(bs, 0)
         case None => None
         case Some((v, n)) =>
           match Clamp(l, v)
           case None => None
           case Some(x) => Some((x, n)))
      case Fixed32 =>
        (match ReadBytes(bs, 4)
         case None => None
         case Some((b, n)) => Some((Num(FromLittleEndian(b)), n)))
      case Fixed64 =>
        (match ReadBytes(bs, 8)
         case None => None
         case Some((b, n)) => Some((Num(FromLittleEndian(b)), n)))
      case Bytes(_) | String(_) | FixedBytes(_) =>
        (match ReadDelimited(bs)
         case None => None
         case Some((data, n)) =>
           match Store(l, data)
           case None => None
           case Some(x) => Some((x, n)))
      case SubMessage(_) => None
  }

  /** The elements of a packed record; `None` also when some do not fit in the array. */
  function DecPacked(l: LType, bs: seq<Byte>, max: nat, items: seq<Val>): Option<seq<Val>> {
    if bs == [] then Some(items)
    else if |items| >= max then None
    else
      match DecScalar(l, WT_PACKED, bs)
      case None => None
      case Some((v, n)) => DecPacked(l, bs[n..], max, items + [v])
  }

  // ----- tags and unknown fields -----

  /** `pb_decode_tag`: tag, wire type and length. */
  function DecTag(bs: seq<Byte>): (r: Option<(nat, nat, nat)>)
    ensures r.Some? ==> 1 <= r.value.2 <= |bs|
  {
    match V.Read32(bs)
    case None => None
    case Some((v, n)) => Some((v / 8, v % 8, n))
  }

  function SkipVarint(bs: seq<Byte>): (r: Option<nat>)
    ensures r.Some? ==> 1 <= r.value <= |bs|
  {
    if bs == [] then None
    else if bs[0] < 128 then Some(1)
    else
      match SkipVarint(bs[1..])
      case None => None
      case Some(n) => Some(n + 1)
  }

  /** `pb_skip_field` */
  function SkipField(wt: nat, bs: seq<Byte>): (r: Option<nat>)
    ensures r.Some? ==> r.value <= |bs|
  {
    if wt == E.WT_VARINT then SkipVarint(bs)
    else if wt == E.WT_64BIT then if |bs| >= 8 then Some(8) else None
    else if wt == E.WT_STRING then
      match ReadDelimited(bs)
      case None => None
      case Some((_, n)) => Some(n)
    else if wt == E.WT_32BIT then if |bs| >= 4 then Some(4) else None
    else None
  }

  /** The field with a tag. Module FieldLookup shows that `pb_field_iter_find` computes this. */
  function FindField(fs: seq<Field>, tag: nat): (r: Option<nat>)
    ensures r.Some? ==> r.value < |fs| && fs[r.value].tag == tag
    ensures r.None? ==> forall i :: 0 <= i < |fs| ==> fs[i].tag != tag
  {
    if fs == [] then None
    else if fs[|fs| - 1].tag == tag then Some(|fs| - 1)
    else FindField(fs[..|fs| - 1], tag)
  }

  // ----- required fields -----

  /** PB_MAX_REQUIRED_FIELDS: later required fields are not tracked. */
  const MAX_REQUIRED_FIELDS: nat := 64

  /** `required_field_index`: how many required fields come before position `i`. */
  function RequiredIndex(fs: seq<Field>, i: nat): nat
    requires i <= |fs|
  {
    if i == 0 then 0 else RequiredIndex(fs, i - 1) + (if fs[i - 1].h.Required? then 1 else 0)
  }

  predicate Tracked(fs: seq<Field>, i: nat)
    requires i < |fs|
  {
    fs[i].h.Required? && RequiredIndex(fs, i) < MAX_REQUIRED_FIELDS
  }

  function Mark(fs: seq<Field>, i: nat, seen: set<nat>): set<nat>
    requires i < |fs|
  {
    if Tracked(fs, i) then seen + {i} else seen
  }

  predicate AllSeen(fs: seq<Field>, seen: set<nat>) {
    forall i :: 0 <= i < |fs| && Tracked(fs, i) ==> i in seen
  }

  // ----- messages -----

  /** `decode_basic_field`; a submessage is merged into the value already there. */
  function DecBasic(l: LType, wt: nat, bs: seq<Byte>, cur: Val): (r: Option<(Val, nat)>)
    ensures r.Some? ==> 1 <= r.value.1 <= |bs|
    decreases |bs|, 0
  {
    if !l.SubMessage? then DecScalar(l, wt, bs)
    else if wt != E.WT_STRING || !cur.Sub? then None
    else
      match ReadDelimited(bs)
      case None => None
      case Some((payload, n)) =>
        match Dec(l.desc, payload, cur.msg)
        case None => None
        case Some(m) => Some((Sub(m), n))
  }

  /** `decode_static_field`: the new contents of a field. `active` says that the field is the
      current member of its oneof; a submessage that is not starts from its defaults. */
  function DecFieldVal(f: Field, wt: nat, bs: seq<Byte>, prev: Val, active: bool): (r: Option<(Val, nat)>)
    ensures r.Some? ==> 1 <= r.value.1 <= |bs|
    decreases |bs|, 1
  {
    match f.h
    case Required | Singular => DecBasic(f.l, wt, bs, prev)
    case OneOf(_) => DecBasic(f.l, wt, bs, if f.l.SubMessage? && !active then DefaultVal(f.l) else prev)
    case Optional =>
      if !prev.Opt? then None else
        (match DecBasic(f.l, wt, bs, prev.v)
         case None => None
         case Some((v, n)) => Some((Opt(true, v), n)))
    case Repeated(max) =>
      if !prev.Rep? then None
      else if wt == E.WT_STRING && f.l.Packable() then
        (match ReadDelimited(bs)
         case None => None
         case Some((payload, n)) =>
           match DecPacked(f.l, payload, max, prev.items)
           case None => None
           case Some(items) => Some((Rep(items), n)))
      else if |prev.items| >= max then None
      else
        (match DecBasic(f.l, wt, bs, DefaultVal(f.l))
         case None => None
         case Some((v, n)) => Some((Rep(prev.items + [v]), n)))
  }

  predicate IsActive(f: Field, m: Msg) { f.h.OneOf? && Which(m.which, f.h.group) == f.tag }

  /** The message after its field at position `i` has been stored. */
  function Write(f: Field, i: nat, m: Msg, v: Val): Msg
    requires i < |m.vals|
  {
    Msg(m.vals[i := v], if f.h.OneOf? then m.which[f.h.group := f.tag] else m.which)
  }

  function DecField(f: Field, i: nat, wt: nat, bs: seq<Byte>, m: Msg): (r: Option<(Msg, nat)>)
    requires i < |m.vals|
    ensures r.Some? ==> 1 <= r.value.1 <= |bs|
    ensures r.Some? ==> |r.value.0.vals| == |m.vals|
    decreases |bs|, 2
  {
    match DecFieldVal(f, wt, bs, m.vals[i], IsActive(f, m))
    case None => None
    case Some((v, n)) => Some((Write(f, i, m, v), n))
  }

  /** One record: a tag and its field, or an unknown field to skip. */
  function DecRecord(d: Desc, bs: seq<Byte>, m: Msg, seen: set<nat>): (r: Option<(Msg, set<nat>, nat)>)
    requires |m.vals| == |d.fields|
    ensures r.Some? ==> 1 <= r.value.2 <= |bs|
    ensures r.Some? ==> |r.value.0.vals| == |d.fields|
    decreases |bs|, 3
  {
    match DecTag(bs)
    case None => None
    case Some((tag, wt, n)) =>
      if tag == 0 then None
      else
        match FindField(d.fields, tag)
        case None =>
          (match SkipField(wt, bs[n..])
           case None => None
           case Some(k) => Some((m, seen, n + k)))
        case Some(i) =>
          match DecField(d.fields[i], i, wt, bs[n..], m)
          case None => None
          case Some((m', k)) => Some((m', Mark(d.fields, i, seen), n + k))
  }

  /** The loop of `pb_decode_inner`. */
  function Loop(d: Desc, bs: seq<Byte>, m: Msg, seen: set<nat>): (r: Option<(Msg, set<nat>)>)
    requires |m.vals| == |d.fields|
    ensures r.Some? ==> |r.value.0.vals| == |d.fields|
    decreases |bs|, 4
  {
    if bs == [] then Some((m, seen))
    else
      match DecRecord(d, bs, m, seen)
      case None => None
      case Some((m', seen', n)) => Loop(d, bs[n..], m', seen')
  }

  /** `pb_decode_inner` into an initialised message. */
  function Dec(d: Desc, bs: seq<Byte>, m: Msg): (r: Option<Msg>)
    decreases |bs|, 5
  {
    if |m.vals| != |d.fields| then None
    else
      match Loop(d, bs, m, {})
      case None => None
      case Some((m', seen)) => if AllSeen(d.fields, seen) then Some(m') else None
  }

  /** `pb_decode` */
  function Decode(d: Desc, bs: seq<Byte>): Option<Msg> { Dec(d, bs, DefaultMsg(d)) }
}
