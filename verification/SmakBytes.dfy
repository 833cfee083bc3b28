/** The bytes of the board's messages, with the tag bytes written out. */
module SmakBytes {
  import opened Basics
  import opened Schema
  import opened Encoding
  import opened SmakMessages
  import RT = RoundTrip
  import V = Base128

  /** A number behind its tag byte, and nothing when it is zero. */
  function NumberRecord(tagByte: Byte, n: nat): seq<Byte> { if n == 0 then [] else [tagByte] + V.Varint(n) }

  /** Bytes behind their tag byte and their length, and nothing when there are none. */
  function BytesRecord(tagByte: Byte, data: seq<Byte>): seq<Byte>
    requires |data| < 128
  {
    if data == [] then [] else [tagByte, |data|] + data
  }

  // ----- one field -----

  lemma ShortTag(tag: nat, wt: nat)
    requires tag <= 15 && wt <= 7
    ensures TagBytes(tag, wt) == [8 * tag + wt]
  {
  }

  lemma Record(l: LType, tag: nat, v: Val, t: seq<Byte>, p: seq<Byte>)
    requires TagBytes(tag, WireType(l)) == t && Payload(l, v) == Some(p)
    ensures EncBasic(l, tag, v) == Some(t + p)
  {
  }

  lemma NumberFieldBytes(tag: nat, size: nat, n: nat, which: map<nat, nat>)
    requires 1 <= tag <= 15
    ensures EncField(Field(tag, Singular, UVarint(size)), Num(n), which) == Some(NumberRecord(8 * tag, n))
  {
    ShortTag(tag, 0);
    Record(UVarint(size), tag, Num(n), [8 * tag], V.Varint(n));
  }

  lemma BytesFieldBytes(tag: nat, capacity: nat, data: seq<Byte>, which: map<nat, nat>)
    requires 1 <= tag <= 15 && |data| <= capacity && |data| < 128
    ensures EncField(Field(tag, Singular, Bytes(capacity)), Blob(data), which) == Some(BytesRecord(8 * tag + 2, data))
  {
    ShortTag(tag, 2);
    Record(Bytes(capacity), tag, Blob(data), [8 * tag + 2], Delimited(data));
    assert V.Varint(|data|) == [|data|];
    assert [8 * tag + 2] + ([|data|] + data) == [8 * tag + 2, |data|] + data;
  }

  lemma BoolFieldBytes(tag: nat, n: nat, which: map<nat, nat>)
    requires 1 <= tag <= 15
    ensures EncField(Field(tag, Singular, Bool), Num(n), which) == Some(if n == 0 then [] else [8 * tag, 1])
  {
    ShortTag(tag, 0);
    assert [8 * tag] + [1] == [8 * tag, 1];
  }

  // ----- fields in a row -----

  lemma OneMoreField(fs: seq<Field>, vs: seq<Val>, which: map<nat, nat>, i: nat, e: seq<Byte>, rest: seq<Byte>)
    requires |fs| == |vs| && i < |fs| && EncField(fs[i], vs[i], which) == Some(e)
    requires EncFields(fs[i + 1..], vs[i + 1..], which) == Some(rest)
    ensures EncFields(fs[i..], vs[i..], which) == Some(e + rest)
  {
    assert fs[i..][1..] == fs[i + 1..] && vs[i..][1..] == vs[i + 1..];
  }

  lemma NoMoreFields(fs: seq<Field>, vs: seq<Val>, which: map<nat, nat>)
    requires |fs| == |vs|
    ensures EncFields(fs[|fs|..], vs[|vs|..], which) == Some([])
  {
  }

  // ----- the messages -----

  /** A chess move: id, ply, from, to, piece, captured piece and move type, in fields 1 to 7. */
  function ChessMoveRecords(id: nat, ply: nat, from: nat, to: nat, piece: seq<Byte>, captured: seq<Byte>, moveType: nat)
    : seq<Byte>
    requires |piece| < 128 && |captured| < 128
  {
    NumberRecord(0x08, id) + (NumberRecord(0x10, ply) + (NumberRecord(0x18, from) + (NumberRecord(0x20, to) +
    (BytesRecord(0x2A, piece) + (BytesRecord(0x32, captured) + (NumberRecord(0x38, moveType) + []))))))
  }

  /** The bytes of every chess move. */
  lemma ChessMoveBytes(m: Msg)
    requires FitsMsg(CHESS_MOVE, m)
    ensures m.vals[0].Num? && m.vals[1].Num? && m.vals[2].Num? && m.vals[3].Num? && m.vals[6].Num?
    ensures m.vals[0].n >= 0 && m.vals[1].n >= 0 && m.vals[2].n >= 0 && m.vals[3].n >= 0 && m.vals[6].n >= 0
    ensures m.vals[4].Blob? && |m.vals[4].data| < 128 && m.vals[5].Blob? && |m.vals[5].data| < 128
    ensures Enc(CHESS_MOVE, m) == Some(ChessMoveRecords(m.vals[0].n, m.vals[1].n, m.vals[2].n, m.vals[3].n,
                                                        m.vals[4].data, m.vals[5].data, m.vals[6].n))
  {
    var fs, vs, w := CHESS_MOVE.fields, m.vals, m.which;
    ChessMoveShape(m);
    NumberFieldBytes(1, 8, vs[0].n, w);
    NumberFieldBytes(2, 4, vs[1].n, w);
    NumberFieldBytes(3, 4, vs[2].n, w);
    NumberFieldBytes(4, 4, vs[3].n, w);
    BytesFieldBytes(5, 1, vs[4].data, w);
    BytesFieldBytes(6, 1, vs[5].data, w);
    NumberFieldBytes(7, 4, vs[6].n, w);
    SevenFields(fs, vs, w, NumberRecord(0x08, vs[0].n), NumberRecord(0x10, vs[1].n), NumberRecord(0x18, vs[2].n),
                NumberRecord(0x20, vs[3].n), BytesRecord(0x2A, vs[4].data), BytesRecord(0x32, vs[5].data),
                NumberRecord(0x38, vs[6].n));
  }

  lemma ChessMoveShape(m: Msg)
    requires FitsMsg(CHESS_MOVE, m)
    ensures |m.vals| == 7
    ensures m.vals[0].Num? && m.vals[1].Num? && m.vals[2].Num? && m.vals[3].Num? && m.vals[6].Num?
    ensures m.vals[0].n >= 0 && m.vals[1].n >= 0 && m.vals[2].n >= 0 && m.vals[3].n >= 0 && m.vals[6].n >= 0
    ensures m.vals[4].Blob? && |m.vals[4].data| <= 1 && m.vals[5].Blob? && |m.vals[5].data| <= 1
  {
    var fs, vs, w := CHESS_MOVE.fields, m.vals, m.which;
    assert FitsField(fs[0], vs[0], w) && FitsField(fs[1], vs[1], w) && FitsField(fs[2], vs[2], w);
    assert FitsField(fs[3], vs[3], w) && FitsField(fs[4], vs[4], w) && FitsField(fs[5], vs[5], w);
    assert FitsField(fs[6], vs[6], w);
  }

  /** The records of seven fields stand one after the other. */
  lemma SevenFields(fs: seq<Field>, vs: seq<Val>, w: map<nat, nat>, e0: seq<Byte>, e1: seq<Byte>, e2: seq<Byte>,
                    e3: seq<Byte>, e4: seq<Byte>, e5: seq<Byte>, e6: seq<Byte>)
    requires |fs| == |vs| == 7
    requires EncField(fs[0], vs[0], w) == Some(e0) && EncField(fs[1], vs[1], w) == Some(e1)
    requires EncField(fs[2], vs[2], w) == Some(e2) && EncField(fs[3], vs[3], w) == Some(e3)
    requires EncField(fs[4], vs[4], w) == Some(e4) && EncField(fs[5], vs[5], w) == Some(e5)
    requires EncField(fs[6], vs[6], w) == Some(e6)
    ensures EncFields(fs, vs, w) == Some(e0 + (e1 + (e2 + (e3 + (e4 + (e5 + (e6 + [])))))))
  {
    NoMoreFields(fs, vs, w);
    OneMoreField(fs, vs, w, 6, e6, []);
    OneMoreField(fs, vs, w, 5, e5, e6 + []);
    OneMoreField(fs, vs, w, 4, e4, e5 + (e6 + []));
    OneMoreField(fs, vs, w, 3, e3, e4 + (e5 + (e6 + [])));
    OneMoreField(fs, vs, w, 2, e2, e3 + (e4 + (e5 + (e6 + []))));
    OneMoreField(fs, vs, w, 1, e1, e2 + (e3 + (e4 + (e5 + (e6 + [])))));
    OneMoreField(fs, vs, w, 0, e0, e1 + (e2 + (e3 + (e4 + (e5 + (e6 + []))))));
    assert fs[0..] == fs && vs[0..] == vs;
  }

  /** A new game is one flag. */
  lemma NewGameBytes(m: Msg)
    requires FitsMsg(NEW_GAME, m)
    ensures m.vals[0].Num? && Enc(NEW_GAME, m) == Some(if m.vals[0].n == 0 then [] else [0x08, 1])
  {
    var fs, vs, w := NEW_GAME.fields, m.vals, m.which;
    assert FitsField(fs[0], vs[0], w);
    BoolFieldBytes(1, vs[0].n, w);
    NoMoreFields(fs, vs, w);
    var e := EncField(fs[0], vs[0], w).value;
    OneMoreField(fs, vs, w, 0, e, []);
    assert fs[0..] == fs && vs[0..] == vs && e + [] == e;
  }

  /** The wrapper: 0A, the length and a chess move, or 12, the length and a new game. */
  lemma MessageBytes(m: Msg)
    requires IsMessage(m)
    ensures Which(m.which, BOARD_MSG) == 1 ==>
      && m.vals[0].Sub? && Enc(CHESS_MOVE, m.vals[0].msg).Some?
      && var e := Enc(CHESS_MOVE, m.vals[0].msg).value; |e| <= 37 && Enc(MESSAGE, m) == Some([0x0A, |e|] + e)
    ensures Which(m.which, BOARD_MSG) == 2 ==>
      && m.vals[1].Sub? && Enc(NEW_GAME, m.vals[1].msg).Some?
      && var e := Enc(NEW_GAME, m.vals[1].msg).value; |e| <= 2 && Enc(MESSAGE, m) == Some([0x12, |e|] + e)
    ensures Which(m.which, BOARD_MSG) == 0 ==> Enc(MESSAGE, m) == Some([])
  {
    assert FitsField(MESSAGE.fields[0], m.vals[0], m.which) && FitsField(MESSAGE.fields[1], m.vals[1], m.which);
    OneMemberBytes(m.vals, m.which);
    if Which(m.which, BOARD_MSG) == 1 { ChessMoveSize(m.vals[0].msg); }
    if Which(m.which, BOARD_MSG) == 2 { NewGameSize(m.vals[1].msg); }
  }

  /** Only the active member is written. */
  lemma OneMemberBytes(vs: seq<Val>, w: map<nat, nat>)
    requires |vs| == 2
    ensures Which(w, BOARD_MSG) == 1 && vs[0].Sub? ==> MemberOnly(vs, w, 1, CHESS_MOVE, vs[0].msg)
    ensures Which(w, BOARD_MSG) == 2 && vs[1].Sub? ==> MemberOnly(vs, w, 2, NEW_GAME, vs[1].msg)
    ensures Which(w, BOARD_MSG) == 0 ==> EncFields(MESSAGE.fields, vs, w) == Some([])
  {
    if Which(w, BOARD_MSG) == 1 { MoveOnly(vs, w); }
    if Which(w, BOARD_MSG) == 2 { NewGameOnly(vs, w); }
    if Which(w, BOARD_MSG) == 0 { TwoFields(MESSAGE.fields, vs, w, [], []); }
  }

  lemma IdleMember(tag: nat, d: Desc, v: Val, w: map<nat, nat>)
    requires Which(w, BOARD_MSG) != tag
    ensures EncField(Field(tag, OneOf(BOARD_MSG), SubMessage(d)), v, w) == Some([])
  {
  }

  lemma MoveOnly(vs: seq<Val>, w: map<nat, nat>)
    requires |vs| == 2 && Which(w, BOARD_MSG) == 1
    ensures vs[0].Sub? ==> MemberOnly(vs, w, 1, CHESS_MOVE, vs[0].msg)
  {
    if vs[0].Sub? && Short(CHESS_MOVE, vs[0].msg) {
      var e := Enc(CHESS_MOVE, vs[0].msg).value;
      MemberBytes(1, CHESS_MOVE, vs[0].msg, w);
      IdleMember(2, NEW_GAME, vs[1], w);
      TwoFields(MESSAGE.fields, vs, w, [10, |e|] + e, []);
    }
  }

  lemma NewGameOnly(vs: seq<Val>, w: map<nat, nat>)
    requires |vs| == 2 && Which(w, BOARD_MSG) == 2
    ensures vs[1].Sub? ==> MemberOnly(vs, w, 2, NEW_GAME, vs[1].msg)
  {
    if vs[1].Sub? && Short(NEW_GAME, vs[1].msg) {
      var e := Enc(NEW_GAME, vs[1].msg).value;
      MemberBytes(2, NEW_GAME, vs[1].msg, w);
      IdleMember(1, CHESS_MOVE, vs[0], w);
      TwoFields(MESSAGE.fields, vs, w, [], [18, |e|] + e);
    }
  }

  predicate Short(d: Desc, m: Msg) { Enc(d, m).Some? && |Enc(d, m).value| < 128 }

  predicate MemberOnly(vs: seq<Val>, w: map<nat, nat>, tag: nat, d: Desc, m: Msg)
    requires tag == 1 || tag == 2
  {
    Short(d, m) ==> EncFields(MESSAGE.fields, vs, w) == Some([8 * tag + 2, |Enc(d, m).value|] + Enc(d, m).value)
  }

  lemma TwoFields(fs: seq<Field>, vs: seq<Val>, w: map<nat, nat>, e0: seq<Byte>, e1: seq<Byte>)
    requires |fs| == |vs| == 2 && EncField(fs[0], vs[0], w) == Some(e0) && EncField(fs[1], vs[1], w) == Some(e1)
    ensures EncFields(fs, vs, w) == Some(e0 + e1)
    ensures e1 == [] ==> e0 + e1 == e0
    ensures e0 == [] ==> e0 + e1 == e1
  {
    NoMoreFields(fs, vs, w);
    OneMoreField(fs, vs, w, 1, e1, []);
    OneMoreField(fs, vs, w, 0, e0, e1 + []);
    assert fs[0..] == fs && vs[0..] == vs && e0 + (e1 + []) == e0 + e1;
  }

  lemma MemberBytes(tag: nat, d: Desc, m: Msg, which: map<nat, nat>)
    requires 1 <= tag <= 15 && Which(which, BOARD_MSG) == tag && Enc(d, m).Some? && |Enc(d, m).value| < 128
    ensures EncField(Field(tag, OneOf(BOARD_MSG), SubMessage(d)), Sub(m), which)
         == Some([8 * tag + 2, |Enc(d, m).value|] + Enc(d, m).value)
  {
    var e := Enc(d, m).value;
    ShortTag(tag, 2);
    Record(SubMessage(d), tag, Sub(m), [8 * tag + 2], Delimited(e));
    assert V.Varint(|e|) == [|e|];
    assert [8 * tag + 2] + ([|e|] + e) == [8 * tag + 2, |e|] + e;
  }

  /** The pin number of a board move may be negative, and is then sent as 64 bits. */
  lemma BoardMoveBytes(m: Msg)
    requires FitsMsg(BOARD_MOVE, m)
    ensures m.vals[0].Num? && m.vals[1].Num? && m.vals[0].n + 0x1_0000_0000_0000_0000 >= 0
    ensures var pin := if m.vals[0].n < 0 then m.vals[0].n + 0x1_0000_0000_0000_0000 else m.vals[0].n;
      Enc(BOARD_MOVE, m) == Some(NumberRecord(0x08, pin) + if m.vals[1].n == 0 then [] else [0x10, 1])
  {
    var fs, vs, w := BOARD_MOVE.fields, m.vals, m.which;
    assert FitsField(fs[0], vs[0], w) && FitsField(fs[1], vs[1], w);
    PinFieldBytes(vs[0].n, w);
    BoolFieldBytes(2, vs[1].n, w);
    TwoFields(fs, vs, w, EncField(fs[0], vs[0], w).value, EncField(fs[1], vs[1], w).value);
  }

  lemma PinFieldBytes(n: int, which: map<nat, nat>)
    requires InSigned(n, 4)
    ensures n + 0x1_0000_0000_0000_0000 >= 0
    ensures var pin := if n < 0 then n + 0x1_0000_0000_0000_0000 else n;
      EncField(Field(1, Singular, Varint(4)), Num(n), which) == Some(NumberRecord(0x08, pin))
  {
    RT.Powers();
    ShortTag(1, 0);
    Record(Varint(4), 1, Num(n), [0x08], V.Varint(V.ToUnsigned64(n)));
  }

  // ----- one move -----

  /** A white pawn from e2 (52) to e4 (36) in ply 1, nothing captured; the id is 0 and left out. */
  lemma PawnMoveBytes()
    ensures ChessMoveRecords(0, 1, 52, 36, [80], [90], 3)
         == [0x10, 1, 0x18, 0x34, 0x20, 0x24, 0x2A, 1, 0x50, 0x32, 1, 0x5A, 0x38, 3]
  {
    assert NumberRecord(0x10, 1) == [0x10, 1] && NumberRecord(0x18, 52) == [0x18, 0x34];
    assert NumberRecord(0x20, 36) == [0x20, 0x24] && NumberRecord(0x38, 3) == [0x38, 3];
    assert BytesRecord(0x2A, [80]) == [0x2A, 1, 0x50] && BytesRecord(0x32, [90]) == [0x32, 1, 0x5A];
    var tail := [0x2A, 1, 0x50, 0x32, 1, 0x5A, 0x38, 3];
    assert [0x2A, 1, 0x50] + ([0x32, 1, 0x5A] + ([0x38, 3] + [])) == tail;
    assert [0x18, 0x34] + ([0x20, 0x24] + tail) == [0x18, 0x34, 0x20, 0x24] + tail;
  }

  /** The declared maximum size of a chess move is reached. */
  lemma ChessMoveSizeIsReached()
    ensures |ChessMoveRecords(0xFFFF_FFFF_FFFF_FFFF, 0xFFFF_FFFF, 0xFFFF_FFFF, 0xFFFF_FFFF, [80], [90], 3)| == 37
  {
    V.LongVarint(0xFFFF_FFFF_FFFF_FFFF);
    FiveBytes();
  }

  lemma FiveBytes()
    ensures |V.Varint(0xFFFF_FFFF)| == 5
  {
    assert |V.Varint(0xF)| == 1 && |V.Varint(0x7FF)| == 2 && |V.Varint(0x3_FFFF)| == 3 && |V.Varint(0x1FF_FFFF)| == 4;
  }
}
