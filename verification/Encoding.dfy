/** The bytes of a message: what pb_encode.c writes, as functions. `None` is an encoding error. */
module Encoding {
  import opened Basics
  import opened Schema
  import V = Base128

  // ----- wire types and tags -----

  const WT_VARINT: nat := 0
  const WT_64BIT: nat := 1
  const WT_STRING: nat := 2
  const WT_32BIT: nat := 5

  function WireType(l: LType): nat {
    match l
    case Bool | Varint(_) | UVarint(_) | SVarint(_) => WT_VARINT
    case Fixed32 => WT_32BIT
    case Fixed64 => WT_64BIT
    case _ => WT_STRING
  }

  function TagBytes(tag: nat, wt: nat): seq<Byte> { V.Varint(8 * tag + wt) }

  /** The low `n` bytes of a word, least significant first. */
  function LittleEndian(v: nat, n: nat): (e: seq<Byte>)
    ensures |e| == n
  {
    if n == 0 then [] else [v % 256] + LittleEndian(v / 256, n - 1)
  }

  /** A length prefix and the bytes it counts. */
  function Delimited(data: seq<Byte>): seq<Byte> { V.Varint(|data|) + data }

  // ----- the default test of proto3 singular fields -----

  predicate IsDefaultVal(l: LType, v: Val)
    decreases l, 0
  {
    match v
    case Num(n) => n == 0
    case Blob(data) => if l.Bytes? then data == [] else if l.String? then CString(data) == [] else false
    case Sub(m) => l.SubMessage? && IsDefaultFields(l.desc.fields, m.vals, m.which)
    case _ => false
  }

  predicate IsDefaultField(f: Field, v: Val, which: map<nat, nat>)
    decreases f, 1
  {
    match f.h
    case Required => false
    case Repeated(_) => v.Rep? && v.items == []
    case OneOf(g) => Which(which, g) == 0
    case Optional => v.Opt? && !v.has
    case Singular => IsDefaultVal(f.l, v)
  }

  predicate IsDefaultFields(fs: seq<Field>, vs: seq<Val>, which: map<nat, nat>)
    decreases fs, 2
  {
    if fs == [] || vs == [] then true
    else IsDefaultField(fs[0], vs[0], which) && IsDefaultFields(fs[1..], vs[1..], which)
  }

  // ----- values, fields and messages -----

  /** What follows the tag of a single value. */
  function Payload(l: LType, v: Val): Option<seq<Byte>>
    decreases l, 0
  {
    match v
    case Num(n) =>
      (match l
       case Bool => Some(V.Varint(if n == 0 then 0 else 1))
       case UVarint(_) => if n >= 0 then Some(V.Varint(n)) else None
       case Varint(_) => var u := V.ToUnsigned64(n); if u >= 0 then Some(V.Varint(u)) else None
       case SVarint(_) => var z := V.ZigZag(n); if z >= 0 then Some(V.Varint(z)) else None
       case Fixed32 => if n >= 0 then Some(LittleEndian(n, 4)) else None
       case Fixed64 => if n >= 0 then Some(LittleEndian(n, 8)) else None
       case _ => None)
    case Blob(data) =>
      (match l
       case Bytes(capacity) => if |data| > capacity then None else Some(Delimited(data))
       case String(size) => if CString(data) == data || |CString(data)| >= size then None
           else Some(Delimited(CString(data)))
       case FixedBytes(size) => if |data| == size then Some(Delimited(data)) else None
       case _ => None)
    case Sub(m) =>
      if l.SubMessage? then
        match Enc(l.desc, m)
        case None => None
        case Some(e) => Some(Delimited(e))
      else None
    case _ => None
  }

  /** A tagged value: `encode_basic_field`. */
  function EncBasic(l: LType, tag: nat, v: Val): Option<seq<Byte>>
    decreases l, 1
  {
    Join(Some(TagBytes(tag, WireType(l))), Payload(l, v))
  }

  /** A byte read as a signed char. */
  function SignedByte(n: int): int { if n < 128 then n else n - 256 }

  /** An element of a packed array. `encode_array` hands every integer type to `pb_enc_varint`, bool
      included, so the byte of a bool is not written as 0 or 1 but as a signed 8-bit integer. */
  function PackedItem(l: LType, v: Val): Option<seq<Byte>>
    decreases l, 1
  {
    if l.Bool? && v.Num? then
      var u := V.ToUnsigned64(SignedByte(v.n)); if u >= 0 then Some(V.Varint(u)) else None
    else Payload(l, v)
  }

  function PackedItems(l: LType, vs: seq<Val>): Option<seq<Byte>>
    decreases l, 2, |vs|
  {
    if vs == [] then Some([]) else Join(PackedItem(l, vs[0]), PackedItems(l, vs[1..]))
  }

  function UnpackedItems(l: LType, tag: nat, vs: seq<Val>): Option<seq<Byte>>
    decreases l, 2, |vs|
  {
    if vs == [] then Some([]) else Join(EncBasic(l, tag, vs[0]), UnpackedItems(l, tag, vs[1..]))
  }

  /** `encode_array`: nothing when empty, one packed record when the type allows it. */
  function EncArray(l: LType, tag: nat, max: nat, vs: seq<Val>): Option<seq<Byte>>
    decreases l, 3
  {
    if vs == [] then Some([])
    else if |vs| > max then None
    else if l.Packable() then
      match PackedItems(l, vs)
      case None => None
      case Some(p) => Some(TagBytes(tag, WT_STRING) + Delimited(p))
    else UnpackedItems(l, tag, vs)
  }

  /** `encode_field` */
  function EncField(f: Field, v: Val, which: map<nat, nat>): Option<seq<Byte>>
    decreases f
  {
    match f.h
    case Required => EncBasic(f.l, f.tag, v)
    case Optional => if !v.Opt? then None else if !v.has then Some([]) else EncBasic(f.l, f.tag, v.v)
    case Singular => if IsDefaultVal(f.l, v) then Some([]) else EncBasic(f.l, f.tag, v)
    case OneOf(g) => if Which(which, g) != f.tag then Some([]) else EncBasic(f.l, f.tag, v)
    case Repeated(max) => if !v.Rep? then None else EncArray(f.l, f.tag, max, v.items)
  }

  function EncFields(fs: seq<Field>, vs: seq<Val>, which: map<nat, nat>): Option<seq<Byte>>
    decreases fs
  {
    if fs == [] then Some([])
    else if vs == [] then None
    else Join(EncField(fs[0], vs[0], which), EncFields(fs[1..], vs[1..], which))
  }

  /** `pb_encode` */
  function Enc(d: Desc, m: Msg): Option<seq<Byte>>
    decreases d
  {
    EncFields(d.fields, m.vals, m.which)
  }
}
