/** model.c: how the board firmware turns moves and new games into messages. */
module SmakModel {
  import opened Basics
  import opened Schema
  import opened Encoding
  import opened Decoding
  import opened OutputStream
  import opened Encoder
  import opened SmakMessages
  import opened SmakBytes
  import opened MessageEquality
  import RT = RoundTrip
  import V = Base128

  /** `struct smak_json_obj` */
  datatype MoveObj = MoveObj(id: nat, ply: nat, from: nat, to: nat, piece: Byte, captured: Byte, moveType: nat)

  predicate InRange(o: MoveObj) {
    o.id < TWO_TO_THE_64 && o.ply < TWO_TO_THE_32 && o.from < 0x1_0000 && o.to < 0x1_0000 && o.moveType <= MOVE_TYPE_MAX
  }

  const BLANK: Byte := 32   // ' '
  const LETTER_Z: Byte := 90

  /** The chess move message of an object; no captured piece is sent as the letter Z. */
  function ChessMove(o: MoveObj): Msg {
    Msg([Num(o.id), Num(o.ply), Num(o.from), Num(o.to), Blob([o.piece]),
         Blob([if o.captured == BLANK then LETTER_Z else o.captured]), Num(o.moveType)], map[])
  }

  const MOVE_TAG: nat := 1
  const NEW_GAME_TAG: nat := 2

  /** The wrapper around a move, with nothing in the other member of the oneof. */
  function MoveMessage(mv: Msg): Msg { Wrapped(mv, DefaultMsg(NEW_GAME), MOVE_TAG) }

  function NewGameMessage(value: bool): Msg {
    Wrapped(DefaultMsg(CHESS_MOVE), Msg([Num(if value then 1 else 0)], map[]), NEW_GAME_TAG)
  }

  /** The bytes in front are a message that decodes to `m`, and nothing after them was touched. */
  ghost predicate Holds(before: seq<Byte>, after: seq<Byte>, n: nat, d: Desc, m: Msg) {
    && 0 < n <= |after| == |before| && Decode(d, after[..n]) == Some(m)
    && after[n..] == before[n..]
  }

  /** `pb_encode` into the front of a buffer, or 0 when there is too little room. */
  method EncodeToBuffer(buf: array<Byte>, size: nat, d: Desc, m: Msg) returns (n: nat)
    requires size <= buf.Length && size < TWO_TO_THE_32
    requires ValidDesc(d) && FitsMsg(d, m) && HoldsMsg(d, m) && Enc(d, m).Some? && Enc(d, m).value != []
    modifies buf
    ensures if |Enc(d, m).value| <= size
            then Holds(old(buf[..]), buf[..], n, d, CanonMsg(d, m)) && buf[..n] == Enc(d, m).value
            else n == 0
  {
    var stream := new OStream.FromBuffer(buf, 0, size);
    var res := Encode(stream, d, m);
    RT.DecodeUndoesEncode(d, m);
    if !res { return 0; }
    n := stream.written;
    assert buf[..n] == Enc(d, m).value;
  }

  // ----- the messages are what the encoder wants -----

  predicate PlainField(f: Field) { f.h == Singular && (f.l.UVarint? || f.l == Bytes(1) || f.l.Bool?) }

  lemma PlainFieldHolds(f: Field, v: Val, which: map<nat, nat>)
    requires PlainField(f) && FitsField(f, v, which)
    ensures HoldsField(f, v, which)
    ensures (f.l.Bool? ==> v.Num? && v.n <= 1) ==> CanonField(f, v, which) == v
  {
    assert FitsVal(f.l, v) && CanonField(f, v, which) == CanonVal(f.l, v);
  }

  lemma PlainFieldsHold(d: Desc, m: Msg)
    requires FitsMsg(d, m) && forall i :: 0 <= i < |d.fields| ==> PlainField(d.fields[i])
    ensures HoldsMsg(d, m)
    ensures (forall i :: 0 <= i < |d.fields| ==> !d.fields[i].l.Bool?)
        ==> CanonMsg(d, m) == Msg(m.vals, CanonWhich(m.which))
  {
    var fs := d.fields;
    forall i | 0 <= i < |fs|
      ensures HoldsField(fs[i], m.vals[i], m.which)
      ensures !fs[i].l.Bool? ==> CanonField(fs[i], m.vals[i], m.which) == m.vals[i]
    {
      assert PlainField(fs[i]) && FitsField(fs[i], m.vals[i], m.which);
      PlainFieldHolds(fs[i], m.vals[i], m.which);
    }
  }

  lemma SmallMessagesPlain()
    ensures forall i | 0 <= i < |CHESS_MOVE.fields| ::
            PlainField(CHESS_MOVE.fields[i]) && !CHESS_MOVE.fields[i].l.Bool?
    ensures forall i :: 0 <= i < |NEW_GAME.fields| ==> PlainField(NEW_GAME.fields[i])
  {
  }

  /** A chess move keeps all its values, up to `which_` variables that it does not have. */
  lemma ChessMoveHolds(mv: Msg)
    requires FitsMsg(CHESS_MOVE, mv)
    ensures HoldsMsg(CHESS_MOVE, mv) && CanonMsg(CHESS_MOVE, mv) == Msg(mv.vals, CanonWhich(mv.which))
  {
    SmallMessagesPlain();
    PlainFieldsHold(CHESS_MOVE, mv);
  }

  /** So does a new game whose flag is 0 or 1. */
  lemma NewGameHolds(m: Msg)
    requires FitsMsg(NEW_GAME, m)
    ensures HoldsMsg(NEW_GAME, m)
    ensures m.vals[0].n <= 1 ==> CanonMsg(NEW_GAME, m) == Msg(m.vals, CanonWhich(m.which))
  {
    SmallMessagesPlain();
    var f := NEW_GAME.fields[0];
    assert FitsField(f, m.vals[0], m.which);
    PlainFieldHolds(f, m.vals[0], m.which);
    if m.vals[0].n <= 1 { assert CanonFields(NEW_GAME.fields, m.vals, m.which) == m.vals; }
  }

  lemma ChessMoveFits(o: MoveObj)
    requires InRange(o)
    ensures IsChessMove(ChessMove(o))
  {
    RT.Powers();
    var f, v := CHESS_MOVE.fields, ChessMove(o).vals;
    assert FitsVal(f[0].l, v[0]) && FitsVal(f[1].l, v[1]) && FitsVal(f[2].l, v[2]) && FitsVal(f[3].l, v[3]);
    assert FitsVal(f[4].l, v[4]) && FitsVal(f[5].l, v[5]) && FitsVal(f[6].l, v[6]);
    SmallMessagesPlain();
  }

  lemma SomethingWritten(fs: seq<Field>, vs: seq<Val>, which: map<nat, nat>, i: nat)
    requires |fs| == |vs| && i < |fs| && EncFields(fs, vs, which).Some?
    requires EncField(fs[i], vs[i], which).Some? ==> EncField(fs[i], vs[i], which).value != []
    ensures EncFields(fs, vs, which).value != []
  {
    if i <= 0 {
    } else {
      SomethingWritten(fs[1..], vs[1..], which, i - 1);
    }
  }

  lemma VarintIsNotEmpty(v: nat)
    ensures |V.Varint(v)| > 0
  {
  }

  /** The piece is always sent, so a chess move is never empty. */
  lemma ChessMoveNotEmpty(o: MoveObj)
    requires InRange(o) && Enc(CHESS_MOVE, ChessMove(o)).Some?
    ensures Enc(CHESS_MOVE, ChessMove(o)).value != []
  {
    var m := ChessMove(o);
    VarintIsNotEmpty(8 * 5 + 2);
    SomethingWritten(CHESS_MOVE.fields, m.vals, m.which, 4);
  }

  // ----- a oneof of two submessages -----

  function TwoMembers(da: Desc, db: Desc): Desc {
    Desc([Field(MOVE_TAG, OneOf(BOARD_MSG), SubMessage(da)), Field(NEW_GAME_TAG, OneOf(BOARD_MSG), SubMessage(db))])
  }

  function Wrapped(a: Msg, b: Msg, tag: nat): Msg { Msg([Sub(a), Sub(b)], map[BOARD_MSG := tag]) }

  /** Its encoding is short enough to be counted. */
  predicate Sendable(d: Desc, m: Msg) {
    FitsMsg(d, m) && HoldsMsg(d, m) && Enc(d, m).Some? && |Enc(d, m).value| < TWO_TO_THE_32
  }

  lemma WrappedHolds(da: Desc, db: Desc, a: Msg, b: Msg, tag: nat)
    requires Sendable(da, a) && Sendable(db, b) && (tag == MOVE_TAG || tag == NEW_GAME_TAG)
    ensures FitsMsg(TwoMembers(da, db), Wrapped(a, b, tag)) && HoldsMsg(TwoMembers(da, db), Wrapped(a, b, tag))
  {
    var f, m := TwoMembers(da, db).fields, Wrapped(a, b, tag);
    assert FitsField(f[0], m.vals[0], m.which) && FitsField(f[1], m.vals[1], m.which);
    assert f[tag - 1].h == OneOf(BOARD_MSG) && f[tag - 1].tag == tag;
    assert FitsWhich(f, m.which);
    assert HoldsField(f[0], m.vals[0], m.which) && HoldsField(f[1], m.vals[1], m.which);
  }

  lemma WrappedNotEmpty(da: Desc, db: Desc, a: Msg, b: Msg, tag: nat)
    requires (tag == MOVE_TAG || tag == NEW_GAME_TAG) && Enc(TwoMembers(da, db), Wrapped(a, b, tag)).Some?
    ensures Enc(TwoMembers(da, db), Wrapped(a, b, tag)).value != []
  {
    VarintIsNotEmpty(8 * tag + 2);
    SomethingWritten(TwoMembers(da, db).fields, Wrapped(a, b, tag).vals, Wrapped(a, b, tag).which, tag - 1);
  }

  /** With the idle member at its default, the wrapper of a canonical message is canonical. */
  lemma WrappedCanon(da: Desc, db: Desc, a: Msg, b: Msg, tag: nat)
    requires if tag == MOVE_TAG then CanonMsg(da, a) == a && b == DefaultMsg(db)
             else tag == NEW_GAME_TAG && CanonMsg(db, b) == b && a == DefaultMsg(da)
    ensures CanonMsg(TwoMembers(da, db), Wrapped(a, b, tag)) == Wrapped(a, b, tag)
  {
    var m, f := Wrapped(a, b, tag), TwoMembers(da, db).fields;
    var c := CanonFields(f, m.vals, m.which);
    assert c[0] == CanonField(f[0], Sub(a), m.which) && c[1] == CanonField(f[1], Sub(b), m.which);
    assert DefaultVal(f[0].l) == Sub(DefaultMsg(da)) && DefaultVal(f[1].l) == Sub(DefaultMsg(db));
    assert CanonVal(f[0].l, Sub(a)) == Sub(CanonMsg(da, a)) && CanonVal(f[1].l, Sub(b)) == Sub(CanonMsg(db, b));
    assert c == m.vals && CanonWhich(m.which) == m.which;
  }

  /** A chess move and a new game can be sent inside the wrapper. */
  lemma MembersSendable(a: Msg, b: Msg)
    requires IsChessMove(a) && FitsMsg(NEW_GAME, b)
    ensures Sendable(CHESS_MOVE, a) && Sendable(NEW_GAME, b)
  {
    ChessMoveHolds(a);
    ChessMoveSize(a);
    NewGameHolds(b);
    NewGameSize(b);
  }

  /** A message that the encoder takes, that fits the declared size and that is its own canonical form. */
  predicate Ready(m: Msg) {
    && ValidDesc(MESSAGE) && FitsMsg(MESSAGE, m) && HoldsMsg(MESSAGE, m) && CanonMsg(MESSAGE, m) == m
    && Enc(MESSAGE, m).Some? && 0 < |Enc(MESSAGE, m).value| <= MESSAGE_SIZE
  }

  lemma WrappedReady(a: Msg, b: Msg, tag: nat)
    requires IsChessMove(a) && FitsMsg(NEW_GAME, b)
    requires if tag == MOVE_TAG then CanonMsg(CHESS_MOVE, a) == a && b == DefaultMsg(NEW_GAME)
             else tag == NEW_GAME_TAG && CanonMsg(NEW_GAME, b) == b && a == DefaultMsg(CHESS_MOVE)
    ensures Ready(Wrapped(a, b, tag))
  {
    assert MESSAGE == TwoMembers(CHESS_MOVE, NEW_GAME);
    MembersSendable(a, b);
    WrappedHolds(CHESS_MOVE, NEW_GAME, a, b, tag);
    MessageSize(Wrapped(a, b, tag));
    WrappedNotEmpty(CHESS_MOVE, NEW_GAME, a, b, tag);
    WrappedCanon(CHESS_MOVE, NEW_GAME, a, b, tag);
    MessageValid();
  }

  lemma MoveMessageReady(mv: Msg)
    requires IsChessMove(mv) && mv.which == map[]
    ensures Ready(MoveMessage(mv))
  {
    ChessMoveHolds(mv);
    SmallMessagesValid();
    DefaultMsgFits(NEW_GAME);
    FullMsgFits(NEW_GAME, DefaultMsg(NEW_GAME));
    WrappedReady(mv, DefaultMsg(NEW_GAME), MOVE_TAG);
  }

  lemma NoMoveFits()
    ensures IsChessMove(DefaultMsg(CHESS_MOVE))
  {
    SmallMessagesValid();
    DefaultMsgFits(CHESS_MOVE);
    FullMsgFits(CHESS_MOVE, DefaultMsg(CHESS_MOVE));
    assert DefaultMsg(CHESS_MOVE).vals[6] == DefaultField(CHESS_MOVE.fields[6]);
  }

  lemma FlagFits(value: bool)
    ensures var m := Msg([Num(if value then 1 else 0)], map[]); FitsMsg(NEW_GAME, m) && CanonMsg(NEW_GAME, m) == m
  {
    var m := Msg([Num(if value then 1 else 0)], map[]);
    SmallMessagesPlain();
    assert FitsVal(NEW_GAME.fields[0].l, m.vals[0]);
    NewGameHolds(m);
  }

  lemma NewGameMessageReady(value: bool)
    ensures Ready(NewGameMessage(value))
  {
    NoMoveFits();
    FlagFits(value);
    WrappedReady(DefaultMsg(CHESS_MOVE), Msg([Num(if value then 1 else 0)], map[]), NEW_GAME_TAG);
  }

  lemma ChessMoveReady(obj: MoveObj)
    requires InRange(obj)
    ensures var m := ChessMove(obj);
      && ValidDesc(CHESS_MOVE) && FitsMsg(CHESS_MOVE, m) && HoldsMsg(CHESS_MOVE, m) && CanonMsg(CHESS_MOVE, m) == m
      && Enc(CHESS_MOVE, m).Some? && 0 < |Enc(CHESS_MOVE, m).value| <= CHESS_MOVE_SIZE
  {
    SmallMessagesValid();
    ChessMoveFits(obj);
    ChessMoveHolds(ChessMove(obj));
    ChessMoveSize(ChessMove(obj));
    ChessMoveNotEmpty(obj);
  }

  /** A tag byte, a length byte and so many bytes. */
  function Framed(tagByte: Byte, e: seq<Byte>): seq<int> { [tagByte, |e|] + e }

  lemma MoveMessageBytes(mv: Msg)
    requires IsChessMove(mv) && mv.which == map[]
    ensures Enc(CHESS_MOVE, mv).Some? && Enc(MESSAGE, MoveMessage(mv)) == Some(Framed(0x0A, Enc(CHESS_MOVE, mv).value))
  {
    MoveMessageReady(mv);
    MessageBytes(MoveMessage(mv));
  }

  lemma NewGameMessageBytes(value: bool)
    ensures Enc(MESSAGE, NewGameMessage(value)) == Some(if value then [0x12, 2, 0x08, 1] else [0x12, 0])
  {
    var m := Msg([Num(if value then 1 else 0)], map[]);
    FlagFits(value);
    NewGameBytes(m);
    WrappedNewGame(m);
    assert [0x12, 2] + [0x08, 1] == [0x12, 2, 0x08, 1];
    assert [0x12, 0] + [] == [0x12, 0];
  }

  lemma WrappedNewGame(m: Msg)
    requires FitsMsg(NEW_GAME, m)
    ensures var w := Wrapped(DefaultMsg(CHESS_MOVE), m, NEW_GAME_TAG);
      Enc(NEW_GAME, m).Some? && Enc(MESSAGE, w) == Some(Framed(0x12, Enc(NEW_GAME, m).value))
  {
    var w := Wrapped(DefaultMsg(CHESS_MOVE), m, NEW_GAME_TAG);
    NewGameSize(m);
    NewGameOnly(w.vals, w.which);
  }

  // ----- model.c -----

  /** `smak_move_to_pb`: 37 bytes are always enough, and the bytes decode to the same move. */
  method SmakMoveToPb(obj: MoveObj, buf: array<Byte>) returns (n: nat)
    requires InRange(obj) && buf.Length >= CHESS_MOVE_SIZE
    modifies buf
    ensures n <= CHESS_MOVE_SIZE && Holds(old(buf[..]), buf[..], n, CHESS_MOVE, ChessMove(obj))
    ensures buf[..n] == ChessMoveRecords(obj.id, obj.ply, obj.from, obj.to, [obj.piece],
                                         [if obj.captured == 0x20 then 0x5A else obj.captured], obj.moveType)
  {
    var mv := Msg([Num(obj.id), Num(obj.ply), Num(obj.from), Num(obj.to), Blob([obj.piece]),
                   Blob([if obj.captured == BLANK then LETTER_Z else obj.captured]), Num(obj.moveType)], map[]);
    ChessMoveReady(obj);
    ChessMoveBytes(mv);
    n := EncodeToBuffer(buf, CHESS_MOVE_SIZE, CHESS_MOVE, mv);
  }

  /** `pb_encode` of a wrapper into a buffer of at least the declared size. */
  method EncodeReady(buf: array<Byte>, bufSize: nat, m: Msg) returns (n: nat)
    requires MESSAGE_SIZE <= bufSize <= buf.Length && bufSize < TWO_TO_THE_32 && Ready(m)
    modifies buf
    ensures n <= MESSAGE_SIZE && Holds(old(buf[..]), buf[..], n, MESSAGE, m) && buf[..n] == Enc(MESSAGE, m).value
  {
    n := EncodeToBuffer(buf, bufSize, MESSAGE, m);
  }

  /** `smak_chess_move_msg_create`: 0 and nothing written when the buffer is below the maximum size,
      and otherwise a message that decodes to a wrapper around the move. */
  method ChessMoveMsgCreate(buf: array<Byte>, bufSize: nat, mv: Msg) returns (n: nat)
    requires bufSize <= buf.Length && bufSize < TWO_TO_THE_32 && IsChessMove(mv) && mv.which == map[]
    modifies buf
    ensures bufSize < MESSAGE_SIZE ==> n == 0 && buf[..] == old(buf[..])
    ensures bufSize >= MESSAGE_SIZE ==> n <= MESSAGE_SIZE && Holds(old(buf[..]), buf[..], n, MESSAGE, MoveMessage(mv))
    ensures bufSize >= MESSAGE_SIZE ==> Enc(CHESS_MOVE, mv).Some? && buf[..n] == Framed(0x0A, Enc(CHESS_MOVE, mv).value)
  {
    if bufSize < MESSAGE_SIZE { return 0; }
    MoveMessageBytes(mv);
    MoveMessageReady(mv);
    n := EncodeReady(buf, bufSize, MoveMessage(mv));
  }

  /** `smak_new_game_msg_create` */
  method NewGameMsgCreate(buf: array<Byte>, bufSize: nat, value: bool) returns (n: nat)
    requires bufSize <= buf.Length && bufSize < TWO_TO_THE_32
    modifies buf
    ensures bufSize < MESSAGE_SIZE ==> n == 0 && buf[..] == old(buf[..])
    ensures bufSize >= MESSAGE_SIZE ==>
            n <= MESSAGE_SIZE && Holds(old(buf[..]), buf[..], n, MESSAGE, NewGameMessage(value))
    ensures bufSize >= MESSAGE_SIZE ==> buf[..n] == if value then [0x12, 2, 0x08, 1] else [0x12, 0]
  {
    if bufSize < MESSAGE_SIZE { return 0; }
    NewGameMessageBytes(value);
    NewGameMessageReady(value);
    n := EncodeReady(buf, bufSize, NewGameMessage(value));
  }
}
