/** The concrete messages of smak.pb.h and their declared maximum sizes. */
module SmakMessages {
  import opened Basics
  import opened Schema
  import opened Encoding
  import RT = RoundTrip
  import V = Base128

  const CHESS_MOVE: Desc := Desc([
    Field(1, Singular, UVarint(8)),    // id
    Field(2, Singular, UVarint(4)),    // ply
    Field(3, Singular, UVarint(4)),    // from
    Field(4, Singular, UVarint(4)),    // to
    Field(5, Singular, Bytes(1)),      // piece
    Field(6, Singular, Bytes(1)),      // captured
    Field(7, Singular, UVarint(4))])   // move_type

  const NEW_GAME: Desc := Desc([Field(1, Singular, Bool)])

  const BOARD_MOVE: Desc := Desc([Field(1, Singular, Varint(4)), Field(2, Singular, Bool)])

  const BOARD_MSG: nat := 0   // the only oneof group

  const MESSAGE: Desc := Desc([
    Field(1, OneOf(BOARD_MSG), SubMessage(CHESS_MOVE)),
    Field(2, OneOf(BOARD_MSG), SubMessage(NEW_GAME))])

  const CHESS_MOVE_SIZE: nat := 37
  const NEW_GAME_SIZE: nat := 2
  const BOARD_MOVE_SIZE: nat := 13
  const MESSAGE_SIZE: nat := 39
  const MOVE_TYPE_MAX: int := 3

  /** A chess move whose enum holds one of the declared constants. */
  predicate IsChessMove(m: Msg) { FitsMsg(CHESS_MOVE, m) && m.vals[6].n <= MOVE_TYPE_MAX }

  predicate IsMessage(m: Msg) {
    FitsMsg(MESSAGE, m) && (Which(m.which, BOARD_MSG) == 1 ==> m.vals[0].Sub? && IsChessMove(m.vals[0].msg))
  }

  lemma SmallMessagesValid()
    ensures ValidDesc(CHESS_MOVE) && ValidDesc(NEW_GAME) && ValidDesc(BOARD_MOVE)
  {
    ChessMoveValid();
  }

  lemma ChessMoveValid()
    ensures ValidDesc(CHESS_MOVE)
  {
    var f := CHESS_MOVE.fields;
    assert |f| == 7 && forall i :: 0 <= i < 7 ==> f[i].tag == i + 1;
    assert forall i :: 0 <= i < 7 ==> f[i].l == UVarint(8) || f[i].l == UVarint(4) || f[i].l == Bytes(1);
    assert forall i :: 0 <= i < 7 ==> ValidLType(f[i].l);
  }

  lemma MessageValid()
    ensures ValidDesc(MESSAGE)
  {
    SmallMessagesValid();
    var f := MESSAGE.fields;
    assert ValidLType(f[0].l) && ValidLType(f[1].l);
    assert forall i :: 0 <= i < 2 ==> ValidLType(f[i].l);
  }

  // ----- lengths -----

  lemma {:induction false} VarintLength(v: nat, k: nat)
    requires k >= 1 && v < V.Pow128(k)
    ensures |V.Varint(v)| <= k
    decreases k
  {
    if v < 128 {
    } else {
      assert V.Pow128(1) == 128 * V.Pow128(0);
      VarintLength(v / 128, k - 1);
    }
  }

  /** Upper bounds for the payloads the messages use. */
  function MaxPayload(l: LType): nat {
    match l
    case Bool => 1
    case UVarint(size) => if size == 4 then 5 else 10
    case Bytes(capacity) => 1 + capacity
    case _ => 10
  }

  lemma PayloadLength(l: LType, v: Val)
    requires l == Bool || l == UVarint(4) || l == UVarint(8) || l == Varint(4) || l == Bytes(1)
    requires FitsVal(l, v)
    ensures Payload(l, v).Some? && |Payload(l, v).value| <= MaxPayload(l)
  {
    RT.Powers();
    if l == UVarint(4) {
      V.Pow128Of4();
      assert V.Pow128(5) == 128 * V.Pow128(4);
      VarintLength(v.n, 5);
    } else if l == UVarint(8) {
      V.VarintRoundTrip(v.n, []);
    } else if l == Varint(4) {
      V.VarintRoundTrip(V.ToUnsigned64(v.n), []);
    }
  }

  function Sum(bounds: seq<nat>): nat { if bounds == [] then 0 else bounds[0] + Sum(bounds[1..]) }

  lemma {:induction false} EncFieldsLength(fs: seq<Field>, vs: seq<Val>, which: map<nat, nat>, bounds: seq<nat>)
    requires |fs| == |vs| == |bounds|
    requires forall i :: 0 <= i < |fs| ==>
      EncField(fs[i], vs[i], which).Some? && |EncField(fs[i], vs[i], which).value| <= bounds[i]
    ensures EncFields(fs, vs, which).Some? && |EncFields(fs, vs, which).value| <= Sum(bounds)
  {
    if fs == [] {
    } else {
      EncFieldsLength(fs[1..], vs[1..], which, bounds[1..]);
    }
  }

  lemma SumOf(b: nat, bounds: seq<nat>)
    ensures Sum([b] + bounds) == b + Sum(bounds)
  {
    assert ([b] + bounds)[1..] == bounds;
  }

  /** Every chess move takes at most 37 bytes. */
  lemma ChessMoveSize(m: Msg)
    requires IsChessMove(m)
    ensures Enc(CHESS_MOVE, m).Some? && |Enc(CHESS_MOVE, m).value| <= CHESS_MOVE_SIZE
  {
    var bounds := [11] + ([6] + ([6] + ([6] + ([3] + ([3] + ([2] + []))))));
    forall i | 0 <= i < 7
      ensures EncField(CHESS_MOVE.fields[i], m.vals[i], m.which).Some?
      ensures |EncField(CHESS_MOVE.fields[i], m.vals[i], m.which).value| <= bounds[i]
    {
      PayloadLength(CHESS_MOVE.fields[i].l, m.vals[i]);
    }
    EncFieldsLength(CHESS_MOVE.fields, m.vals, m.which, bounds);
    SumOf(2, []); SumOf(3, [2] + []); SumOf(3, [3] + ([2] + [])); SumOf(6, [3] + ([3] + ([2] + [])));
    SumOf(6, [6] + ([3] + ([3] + ([2] + [])))); SumOf(6, [6] + ([6] + ([3] + ([3] + ([2] + [])))));
    SumOf(11, [6] + ([6] + ([6] + ([3] + ([3] + ([2] + []))))));
  }

  lemma NewGameSize(m: Msg)
    requires FitsMsg(NEW_GAME, m)
    ensures Enc(NEW_GAME, m).Some? && |Enc(NEW_GAME, m).value| <= NEW_GAME_SIZE
  {
    PayloadLength(Bool, m.vals[0]);
    EncFieldsLength(NEW_GAME.fields, m.vals, m.which, [2] + []);
    SumOf(2, []);
  }

  lemma BoardMoveSize(m: Msg)
    requires FitsMsg(BOARD_MOVE, m)
    ensures Enc(BOARD_MOVE, m).Some? && |Enc(BOARD_MOVE, m).value| <= BOARD_MOVE_SIZE
  {
    var f := BOARD_MOVE.fields;
    assert FitsField(f[0], m.vals[0], m.which) && FitsField(f[1], m.vals[1], m.which);
    PayloadLength(Varint(4), m.vals[0]);
    PayloadLength(Bool, m.vals[1]);
    EncFieldsLength(f, m.vals, m.which, [11] + ([2] + []));
    SumOf(2, []); SumOf(11, [2] + []);
  }

  /** A small member of the oneof takes a tag byte, a length byte and its own bytes. */
  lemma MemberLength(tag: nat, d: Desc, m: Msg, size: nat, which: map<nat, nat>)
    requires 1 <= tag < 16 && size < 128 && Enc(d, m).Some? && |Enc(d, m).value| <= size
        && Which(which, BOARD_MSG) == tag
    ensures var e := EncField(Field(tag, OneOf(BOARD_MSG), SubMessage(d)), Sub(m), which);
            e.Some? && |e.value| <= size + 2
  {
    var data := Enc(d, m).value;
    assert Payload(SubMessage(d), Sub(m)) == Some(Delimited(data));
    assert |V.Varint(|data|)| == 1 && |TagBytes(tag, 2)| == 1;
    assert EncBasic(SubMessage(d), tag, Sub(m)) == Some(TagBytes(tag, 2) + Delimited(data));
  }

  /** Every wrapper message takes at most 39 bytes. */
  lemma MessageSize(m: Msg)
    requires IsMessage(m)
    ensures Enc(MESSAGE, m).Some? && |Enc(MESSAGE, m).value| <= MESSAGE_SIZE
  {
    var f, w := MESSAGE.fields, Which(m.which, BOARD_MSG);
    var b0, b1 := if w == 1 then 39 else 0, if w == 2 then 4 else 0;
    assert FitsField(f[0], m.vals[0], m.which) && FitsField(f[1], m.vals[1], m.which);
    if w == 1 { ChessMoveSize(m.vals[0].msg); MemberLength(1, CHESS_MOVE, m.vals[0].msg, CHESS_MOVE_SIZE, m.which); }
    if w == 2 { NewGameSize(m.vals[1].msg); MemberLength(2, NEW_GAME, m.vals[1].msg, NEW_GAME_SIZE, m.which); }
    EncFieldsLength(f, m.vals, m.which, [b0] + ([b1] + []));
    SumOf(b1, []); SumOf(b0, [b1] + []);
  }
}
