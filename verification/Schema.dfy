/** Message descriptors with statically allocated fields, and the messages they describe.

    A C structure cannot contain itself, so a descriptor is a finite tree. A message keeps one
    value per field and, for each oneof group, the tag stored in its `which_` variable. */
module Schema {
  import opened Basics

  /** PB_LTYPE_*: the scalar type of a field, with the size of its storage. */
  datatype LType =
    | Bool
    | Varint(size: nat)            // int32, int64, enum: `size` bytes of signed storage
    | UVarint(size: nat)           // uint32, uint64, unsigned enum
    | SVarint(size: nat)           // sint32, sint64
    | Fixed32
    | Fixed64
    | Bytes(capacity: nat)         // pb_bytes_array_t with room for `capacity` bytes
    | String(size: nat)            // char[size], terminator included
    | FixedBytes(size: nat)        // pb_byte_t[size]
    | SubMessage(desc: Desc)
  {
    /** PB_LTYPE(type) <= PB_LTYPE_LAST_PACKABLE */
    predicate Packable() {
      Bool? || Varint? || UVarint? || SVarint? || Fixed32? || Fixed64?
    }
  }

  /** PB_HTYPE_*: the repetition rule. SINGULAR is OPTIONAL without a has_ flag. */
  datatype HType = Required | Optional | Singular | Repeated(max: nat) | OneOf(group: nat)

  datatype Field = Field(tag: nat, h: HType, l: LType)

  datatype Desc = Desc(fields: seq<Field>)

  /** What the structure holds for one field. For strings `data` is the character buffer. */
  datatype Val =
    | Num(n: int)
    | Blob(data: seq<Byte>)
    | Sub(msg: Msg)
    | Opt(has: bool, v: Val)
    | Rep(items: seq<Val>)

  datatype Msg = Msg(vals: seq<Val>, which: map<nat, nat>)

  /** `which_` variables are never uninitialised: a group not written yet holds 0. */
  function Which(which: map<nat, nat>, g: nat): nat {
    if g in which then which[g] else 0
  }

  // ----- descriptors the generator can produce -----

  const PB_SIZE_MAX: int := 0xFFFF

  predicate ValidSize(n: nat) { n == 1 || n == 2 || n == 4 || n == 8 }

  predicate ValidLType(l: LType)
    decreases l
  {
    match l
    case Varint(n) => ValidSize(n)
    case UVarint(n) => ValidSize(n)
    case SVarint(n) => ValidSize(n)
    case Bytes(n) => n + 2 <= PB_SIZE_MAX
    case String(n) => 1 <= n <= PB_SIZE_MAX
    case FixedBytes(n) => 1 <= n <= PB_SIZE_MAX
    case SubMessage(d) => ValidDesc(d)
    case _ => true
  }

  predicate ValidDesc(d: Desc)
    decreases d
  {
    && (forall i :: 0 <= i < |d.fields| ==> 1 <= d.fields[i].tag <= PB_SIZE_MAX)
    && (forall i, j :: 0 <= i < j < |d.fields| ==> d.fields[i].tag < d.fields[j].tag)
    && (forall i :: 0 <= i < |d.fields| ==> ValidLType(d.fields[i].l))
  }

  // ----- default values: what pb_message_set_to_defaults leaves behind -----

  function DefaultVal(l: LType): Val
    decreases l
  {
    match l
    case Bytes(_) => Blob([])
    case String(_) => Blob([0])
    case FixedBytes(n) => Blob(seq(n, _ => 0))
    case SubMessage(d) => Sub(DefaultMsg(d))
    case _ => Num(0)
  }

  function DefaultField(f: Field): Val
    decreases f
  {
    match f.h
    case Optional => Opt(false, DefaultVal(f.l))
    case Repeated(_) => Rep([])
    case _ => DefaultVal(f.l)
  }

  function DefaultFields(fs: seq<Field>): (vs: seq<Val>)
    ensures |vs| == |fs|
    ensures forall i :: 0 <= i < |fs| ==> vs[i] == DefaultField(fs[i])
    decreases fs
  {
    if fs == [] then [] else [DefaultField(fs[0])] + DefaultFields(fs[1..])
  }

  function DefaultMsg(d: Desc): Msg
    decreases d
  {
    Msg(DefaultFields(d.fields), map[])
  }

  // ----- messages in range -----

  function Pow256(n: nat): (p: nat)
    ensures p >= 1
  {
    if n == 0 then 1 else 256 * Pow256(n - 1)
  }

  predicate InUnsigned(n: int, size: nat) { 0 <= n < Pow256(size) }

  predicate InSigned(n: int, size: nat) { 0 - Pow256(size) <= 2 * n < Pow256(size) }

  /** The string up to its terminator. */
  function CString(buf: seq<Byte>): (s: seq<Byte>)
    ensures |s| <= |buf| && s == buf[..|s|]
    ensures 0 !in s && (|s| < |buf| ==> buf[|s|] == 0)
  {
    if buf == [] || buf[0] == 0 then [] else [buf[0]] + CString(buf[1..])
  }

  /** A value that its declared storage can hold and the encoder accepts. */
  predicate FitsVal(l: LType, v: Val)
    decreases l
  {
    match l
    case Bool => v.Num? && 0 <= v.n < 256   // any byte; all but 0 are true
    case Varint(size) => v.Num? && InSigned(v.n, size)
    case UVarint(size) => v.Num? && InUnsigned(v.n, size)
    case SVarint(size) => v.Num? && InSigned(v.n, size)
    case Fixed32 => v.Num? && InUnsigned(v.n, 4)
    case Fixed64 => v.Num? && InUnsigned(v.n, 8)
    case Bytes(capacity) => v.Blob? && |v.data| <= capacity
    case String(size) => v.Blob? && |v.data| <= size && 0 in v.data
    case FixedBytes(size) => v.Blob? && |v.data| == size
    case SubMessage(d) => v.Sub? && FitsMsg(d, v.msg)
  }

  /** Only what the encoder reads must be in range: not the value of an absent optional, nor that of
      an inactive member of a oneof. */
  predicate FitsField(f: Field, v: Val, which: map<nat, nat>)
    decreases f
  {
    match f.h
    case Optional => v.Opt? && (v.has ==> FitsVal(f.l, v.v))
    case OneOf(g) => Which(which, g) == f.tag ==> FitsVal(f.l, v)
    case Repeated(max) => v.Rep? && |v.items| <= max && forall i :: 0 <= i < |v.items| ==> FitsVal(f.l, v.items[i])
    case _ => FitsVal(f.l, v)
  }

  /** A `which_` variable is 0 or the tag of a field of its group. */
  predicate FitsWhich(fs: seq<Field>, which: map<nat, nat>) {
    forall g :: g in which && which[g] != 0 ==>
      exists i :: 0 <= i < |fs| && fs[i].h == OneOf(g) && fs[i].tag == which[g]
  }

  predicate FitsMsg(d: Desc, m: Msg)
    decreases d
  {
    && |m.vals| == |d.fields|
    && (forall i :: 0 <= i < |d.fields| ==> FitsField(d.fields[i], m.vals[i], m.which))
    && FitsWhich(d.fields, m.which)
  }

  // ----- the part of a message that carries meaning -----

  /** Bytes after a terminator, values of absent optionals and of inactive oneof members mean
      nothing; `Canon` sets them to their defaults, and true booleans to 1. Two messages are equal when
      their canons are. */
  function CanonVal(l: LType, v: Val): Val
    decreases l, 0
  {
    match l
    case Bool => if v.Num? then Num(if v.n == 0 then 0 else 1) else v
    case String(_) => if v.Blob? then Blob(CString(v.data) + [0]) else v
    case SubMessage(d) => if v.Sub? then Sub(CanonMsg(d, v.msg)) else v
    case _ => v
  }

  function CanonItems(l: LType, vs: seq<Val>): (cs: seq<Val>)
    ensures |cs| == |vs|
    ensures forall i :: 0 <= i < |vs| ==> cs[i] == CanonVal(l, vs[i])
    decreases l, 1, |vs|
  {
    if vs == [] then [] else [CanonVal(l, vs[0])] + CanonItems(l, vs[1..])
  }

  function CanonField(f: Field, v: Val, which: map<nat, nat>): Val
    decreases f
  {
    match f.h
    case Optional => if v.Opt? && v.has then Opt(true, CanonVal(f.l, v.v)) else DefaultField(f)
    case Repeated(_) => if v.Rep? then Rep(CanonItems(f.l, v.items)) else v
    case OneOf(g) => if Which(which, g) == f.tag then CanonVal(f.l, v) else DefaultVal(f.l)
    case _ => CanonVal(f.l, v)
  }

  function CanonFields(fs: seq<Field>, vs: seq<Val>, which: map<nat, nat>): (cs: seq<Val>)
    requires |fs| == |vs|
    ensures |cs| == |fs|
    ensures forall i :: 0 <= i < |fs| ==> cs[i] == CanonField(fs[i], vs[i], which)
    decreases fs
  {
    if fs == [] then [] else [CanonField(fs[0], vs[0], which)] + CanonFields(fs[1..], vs[1..], which)
  }

  /** The `which_` variables with the unset ones left out. */
  function CanonWhich(which: map<nat, nat>): map<nat, nat> {
    map g | g in which && which[g] != 0 :: which[g]
  }

  function CanonMsg(d: Desc, m: Msg): Msg
    decreases d
  {
    if |m.vals| == |d.fields| then Msg(CanonFields(d.fields, m.vals, m.which), CanonWhich(m.which)) else m
  }
}
