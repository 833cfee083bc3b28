# A verified model of the smart chessboard

This project models the parts of the smart chessboard repository whose behaviour is hardest to see
from the code alone, and proves what they promise.

* **The nanopb protobuf codec** (modules `Base128`, `Schema`, `Encoding`, `Decoding`,
  `OutputStream`, `Encoder`, `InputStream`, `FieldsSeen`, `Decoder`, `RoundTrip`, `WireOrder`,
  `MessageEquality`, `PackedBools`, `EndToEnd`, `Defaults`, `Rejections`, `WireFormat`). A schema is
  a finite tree of statically allocated fields: required, optional, singular, repeated, oneof,
  nested. `Encoding` and `Decoding` say as functions which bytes belong to a message and what bytes
  mean. `Encoder` and `Decoder` are the stream code: buffers written in place, a counting pass
  before each submessage, substreams with their own budget, the bitmap of required fields. Every
  method is tied to those functions, and the theorems about the functions say that decoding undoes
  encoding, when two messages have the same bytes, what is left out and what is refused, that
  unknown and reordered records do not matter, and that everything accepted fits its storage.
  `WireFormat` says in numbers what the bytes are.
* **The messages of the board** (`SmakMessages`, `SmakBytes`, `SmakModel`): the concrete schema, its
  declared maximum sizes, the bytes of every message, and the three functions of `model.c` that fill
  buffers with it.
* **The field iterator** (`FieldInfo`, `FieldIterator`, `FieldLookup`): packed descriptors as 32-bit
  words and the iterator that walks round them.
* **The UTF-8 validator** (`Utf8`) and the **float and double conversion** (`FloatDouble`).
* **The chessboard state machine** (`ChessModel`, `ChessFsm`, `ChessCastling`, `ChessOccupancy`,
  `ChessStaleFlag`, `ChessMirror`, `ChessMirrorRuns`, `ChessRecords`, `ChessCounters`,
  `ChessRights`, `ChessPieces`, `ChessMaterial`, `ChessGeometry`, `ChessMoves`). `ChessFsm` has the
  27 run functions on one mutable structure, as in the C code. `ChessModel` defines the same machine
  once for both colours and wings; `PinChange` is proved to refine it. The other modules are
  theorems about all runs.
* **The event queue** between sensors and state machine (`EventQueue`): producers, listener, FIFO,
  mutex and semaphore as a transition system over atomic steps, for any machine, and for the chess
  machine at the end.
* **Positions in the web interface** (`Board`, `FenStrings`, `Fen`, `FenStart`, `Animations`): the
  FEN parser and printer, and the differ that animates one position into another.

## Where the code is not what one expects

These are facts of the code. They are in the model as they are, and the theorems say what follows.

* The en passant flag is only changed by pawn moves, captures and castling, so it outlives moves of
  other pieces. A later capture that lands on the remembered square while a piece stands there is
  taken for an en passant capture, and the capturing piece disappears from the board in memory.
  `ChessStaleFlag.KnightVanishes` is such a game, of legal moves only. `ChessOccupancy.CaptureExact`
  gives the exact condition for one capture, and `ChessOccupancy.BoardMatchesTable` for a run. A lost
  piece can be lifted again unnoticed while a king is in the air (`ChessOccupancy.LostPieceLifted`).
* A capture that White starts and the machine rejects is recorded as an error, but the state machine
  goes on to Black's turn. For Black it ends in the error state. `ChessMirror.MirrorExactly` shows
  that this is the only asymmetry of a step, apart from the target square in castling records and a
  remembered en passant square that is not in use.
* A rook move keeps the right of the wing it leaves and drops the other. `ChessRights.RightsTellHistory`
  says what the rights therefore mean at any point of a game.
* Packed arrays of bools are written by the integer writer, so a true stored as another byte than 1 is
  written as that byte, and one from 128 on in ten bytes. The reader takes all of them for true, so the
  round trip holds, but equal messages may have different bytes (`PackedBools.TrueInThreeWays`).
  `PackedBools.SameBytesIffEqual` gives the exact condition.
* The sensors cannot tell two pieces in hand apart, so in a capture a player who puts the wrong piece
  goes unnoticed (`ChessPieces.WrongPieceGoesUnnoticed`).
* The record of a capture names no captured piece, and that of an en passant capture does not tell
  which square it clears, so a reader cannot replay it (`ChessRecords.RecordTellsBoard`).
* Castling leaves the counter of plies since the last irreversible move as it is.
* A NaN double whose payload has only low bits becomes infinity when it is read as a float
  (`FloatDouble.NarrowSpecials`).
* The static assertions for 4-word and 8-word field entries check the size offset after it has been
  cast to 8 bits, so an offset above 127 can pass and is then stored wrongly. 1-word entries accept
  array size 0 and read it back as 1 (`FieldInfo.UnpackExactly`).
* Two digits side by side make a valid FEN that is printed back differently (`Fen.PrintUndoesParse`).

## Reading the model

* Equality of messages is equality of canonical forms: bytes after a terminator, values of absent
  optionals and of inactive oneof members do not count, and every non-zero byte of a bool is true
  (`Schema.CanonMsg`). `Schema.FitsMsg` asks for range only of what the encoder reads.
* Bytes are integers below 256. Outside `FieldInfo` and `FieldIterator`, masks and shifts of unsigned
  words are written as remainders and quotients, and 8, 16, 32 and 64-bit limits are explicit.
* Streams: `Outcome` is the contract of every writer. It fixes success, the bytes, the position, and
  that nothing outside the stream's window changes, in both directions.
* `ChessMirror.Same` is equality up to the two harmless differences named above.

## Model

| member | source | states |
|---|---|---|
| `Base128.VarintRoundTrip` | smakfirmware/esp32s3/main/proto/pb_decode.c:243-263 | Every 64-bit value is written in 1 to 10 bytes, and the 64-bit reader on these bytes and any suffix returns the value and takes exactly these bytes |
| `Base128.VarintIsShortest` | smakfirmware/esp32s3/main/proto/pb_encode.c:573-623 | Of all byte strings the 64-bit reader takes as a value, the written one is the shortest |
| `Base128.Read64Fits` | smakfirmware/esp32s3/main/proto/pb_decode.c:243-263 | What the 64-bit reader accepts from its k-th byte on has at most 10 - k bytes; from the first on, at most 10, and is below 2^64 |
| `Base128.Read32ImpliesRead64` | smakfirmware/esp32s3/main/proto/pb_decode.c:171-263 | If the 32-bit reader accepts, the 64-bit reader accepts, takes the same bytes, and agrees modulo 2^32 |
| `Base128.Read32Fits` | smakfirmware/esp32s3/main/proto/pb_decode.c:171-235 | What the 32-bit reader accepts is below 2^32 |
| `Base128.Read32OfUint32` | smakfirmware/esp32s3/main/proto/pb_decode.c:171-235 | The 32-bit reader accepts the bytes of every unsigned 32-bit value and returns it |
| `Base128.Read32OfNegative` | smakfirmware/esp32s3/main/proto/pb_decode.c:171-235 | The 32-bit reader accepts the ten bytes of every sign-extended negative 32-bit value and returns it modulo 2^32 |
| `Base128.Read64Exactly` | smakfirmware/esp32s3/main/proto/pb_decode.c:243-263 | The 64-bit reader takes exactly the strings of 1 to 10 bytes whose last alone has its top bit clear, a tenth being 0 or 1, and reads seven bits a byte, the lowest first; overlong forms are among them |
| `Base128.Read32OfSmall` | smakfirmware/esp32s3/main/proto/pb_decode.c:171-241 | The 32-bit reader accepts every form, overlong or not, of a number below 2^32 that the 64-bit reader accepts, with the same number and length |
| `WireFormat.VarintDigits` | smakfirmware/esp32s3/main/proto/pb_encode.c:573-623 | Byte i of a varint holds bits 7i to 7i + 6 of the number, and its top bit is set exactly when another byte follows |
| `WireFormat.WordDigits` | smakfirmware/esp32s3/main/proto/pb_encode.c:637-673 | Byte i of a fixed-size word holds bits 8i to 8i + 7 of the number |
| `WireFormat.FirstByte` | smakfirmware/esp32s3/main/proto/pb_encode.c:675-714 | The first byte of a record of field number 1 to 15 is 8 times the number for integers and bools, plus 1 for 64-bit words, plus 2 for bytes, strings and messages, plus 5 for 32-bit words |
| `WireFormat.LongTag` | smakfirmware/esp32s3/main/proto/pb_encode.c:675-714 | From field number 16 on the tag takes two bytes or more, with the same wire types |
| `WireFormat.PackedFirstByte` | smakfirmware/esp32s3/main/proto/pb_encode.c:142-147 | The first byte of a packed array is 8 times its field number plus 2 |
| `WireFormat.NumberPayload` | smakfirmware/esp32s3/main/proto/pb_encode.c:776-820 | An unsigned or non-negative number is written as itself, a negative one plus 2^64, a zigzag number as twice itself or, when negative, twice its size less one, a bool as 0 or 1 |
| `WireFormat.NumberRead` | smakfirmware/esp32s3/main/proto/pb_decode.c:1425-1495 | 64-bit fields take every word, 32-bit signed fields the number congruent to it modulo 2^32, 8-bit ones that number if it fits, 32-bit unsigned ones the word if it fits |
| `WireFormat.BoolRead` | smakfirmware/esp32s3/main/proto/pb_decode.c:1346-1354 | A bool is read as true exactly when its number is not zero |
| `WireFormat.Skipped` | smakfirmware/esp32s3/main/proto/pb_decode.c:308-318 | Skipping takes 8 bytes for wire type 1, 4 for type 5, the length and so many bytes for type 2, and fails for 3, 4, 6 and 7 |
| `WireFormat.SkippedVarint` | smakfirmware/esp32s3/main/proto/pb_decode.c:266-275 | Skipping wire type 0 takes the bytes up to the first below 128 |
| `Base128.ZigZagInverse` | smakfirmware/esp32s3/main/proto/pb_encode.c:625-635 | Zigzag numbers of 64-bit values are 64-bit values, and reading them gives the value back |
| `Base128.UnZigZagInverse` | smakfirmware/esp32s3/main/proto/pb_decode.c:1356-1368 | The other direction: every 64-bit code is the zigzag number of what is read from it |
| `OutputStream.OStream.Write` | smakfirmware/esp32s3/main/proto/pb_encode.c:84-105 | Succeeds exactly when there is room, then the bytes stand at the old position; otherwise nothing has changed; bytes outside the window never change |
| `OutputStream.OStream.EncodeVarint32` | smakfirmware/esp32s3/main/proto/pb_encode.c:573-605 | The two-halves writer emits exactly the varint of low + 2^32 * high |
| `OutputStream.OStream.EncodeVarint` | smakfirmware/esp32s3/main/proto/pb_encode.c:607-623 | Emits exactly the varint of the value, or fails for lack of room |
| `OutputStream.OStream.EncodeString` | smakfirmware/esp32s3/main/proto/pb_encode.c:716-722 | Emits the length and the bytes, or fails for lack of room |
| `OutputStream.SplitIntoGroups` | smakfirmware/esp32s3/main/proto/pb_encode.c:573-604 | The loops over the 32-bit halves fill at most 10 bytes with the varint of the whole value |
| `OutputStream.InSequence` | smakfirmware/esp32s3/main/proto/pb_encode.c:84-105 | Two writers in sequence write the concatenation, and fail exactly when it does not fit |
| `Encoder.EncodeFixed` | smakfirmware/esp32s3/main/proto/pb_encode.c:637-673 | Writes the little-endian bytes of a word |
| `Encoder.EncodeNumber` | smakfirmware/esp32s3/main/proto/pb_encode.c:776-853 | A number in its declared storage, any byte for a bool, is written as the payload of a tagged value |
| `Encoder.EncodeItem` | smakfirmware/esp32s3/main/proto/pb_encode.c:183-196 | An element of a packed array; the byte of a bool goes out as a signed 8-bit integer, in one to ten bytes |
| `Encoder.StringLength` | smakfirmware/esp32s3/main/proto/pb_encode.c:884-911 | The loop finds the terminator, or the end of the buffer |
| `Encoder.EncodeBlob` | smakfirmware/esp32s3/main/proto/pb_encode.c:856-952 | Bytes, strings and fixed-length bytes: length-delimited, with the failures for an overlong or unterminated value |
| `Encoder.CheckDefaultVal` | smakfirmware/esp32s3/main/proto/pb_encode.c:244-358 | Decides whether a value is the proto3 default of its type |
| `Encoder.CheckDefaultMsg` | smakfirmware/esp32s3/main/proto/pb_encode.c:244-358 | A submessage is default exactly when all its fields are |
| `Defaults.LeftOutIffZero` | smakfirmware/esp32s3/main/proto/pb_encode.c:283-310 | A singular number or bool is left out exactly when it is 0, bytes exactly when there are none, a string exactly when it begins with its terminator |
| `Defaults.LeftOutIffDefault` | smakfirmware/esp32s3/main/proto/pb_encode.c:244-358 | A singular field, a nested message included, is left out if and only if it is equal to its default value |
| `Defaults.LeftOutIffNothing` | smakfirmware/esp32s3/main/proto/pb_encode.c:418-469 | An optional is left out exactly when absent, an array when empty, a oneof member when inactive; required fields and singular byte arrays of fixed length are never left out |
| `Defaults.NoBytesIffDefault` | smakfirmware/esp32s3/main/proto/pb_encode.c:512-534 | A message has no bytes if and only if its schema has nothing that is always written and it is equal to the default message |
| `Encoder.EncodeSubMessage` | smakfirmware/esp32s3/main/proto/pb_encode.c:724-772 | Writes length and message, with a counting pass first; the second pass always writes the counted size |
| `Encoder.EncodeBasic` | smakfirmware/esp32s3/main/proto/pb_encode.c:362-403 | Tag and payload of one value |
| `Encoder.PackedSize` | smakfirmware/esp32s3/main/proto/pb_encode.c:150-185 | The size computed for a packed array is the length of its elements, also of bools stored as other bytes than 0 and 1 |
| `Encoder.EncodePacked` | smakfirmware/esp32s3/main/proto/pb_encode.c:146-199 | A packed array is one record holding all elements |
| `Encoder.EncodeUnpacked` | smakfirmware/esp32s3/main/proto/pb_encode.c:200-238 | An unpacked array is one record for each element |
| `Encoder.EncodeArray` | smakfirmware/esp32s3/main/proto/pb_encode.c:128-242 | An empty array writes nothing, one above its maximum fails, and the others are written packed or unpacked by type |
| `Encoder.EncodeField` | smakfirmware/esp32s3/main/proto/pb_encode.c:418-469 | One field by its repetition rule: default, absent and inactive values write nothing |
| `Encoder.Encode` | smakfirmware/esp32s3/main/proto/pb_encode.c:512-534 | Succeeds exactly when the message has an encoding and it fits; a counting stream gets its length, a buffer its bytes, and nothing outside the window is written |
| `Encoder.EncodeEx` | smakfirmware/esp32s3/main/proto/pb_encode.c:536-555 | The delimited and the NUL-terminated form |
| `Encoder.GetEncodedSize` | smakfirmware/esp32s3/main/proto/pb_encode.c:557-566 | Returns the exact length of the encoding |
| `EndToEnd.CountAndWrite` | smakfirmware/esp32s3/main/proto/pb_encode.c:557-566 | A counting pass and then a writing pass into n bytes: writing succeeds exactly when counting does with at most n, and writes that many; bytes behind the n stay |
| `EndToEnd.WriteAndRead` | smakfirmware/esp32s3/main/proto/pb_decode.c:1182-1197 | Counting, writing into a buffer of the counted size and decoding give back an equal message, for every schema and every message in range |
| `EndToEnd.FitsHoldsMsg` | smakfirmware/esp32s3/main/proto/pb_encode.c:512-534 | A message in range with an encoding below 2^32 bytes meets every size condition of the encoder, at every depth |
| `EndToEnd.DelimitedComesBack` | smakfirmware/esp32s3/main/proto/pb_encode.c:536-555 | A delimited message can be cut off the front of whatever follows it, and decodes to an equal one |
| `EndToEnd.TerminatorIsNoField` | smakfirmware/esp32s3/main/proto/pb_encode.c:536-555 | The NUL-terminated form is the message and one byte more, which reads as field number 0 |
| `InputStream.IStream.Read` | smakfirmware/esp32s3/main/proto/pb_decode.c:82-123 | Succeeds exactly when enough bytes are left; position and bytes left move together |
| `InputStream.IStream.DecodeVarint` | smakfirmware/esp32s3/main/proto/pb_decode.c:243-263 | The loop computes the 64-bit reading of the rest of the stream |
| `InputStream.IStream.DecodeVarint32` | smakfirmware/esp32s3/main/proto/pb_decode.c:171-241 | The loop computes the 32-bit reading of the rest of the stream, with its overflow tests |
| `InputStream.IStream.SkipVarintBytes` | smakfirmware/esp32s3/main/proto/pb_decode.c:266-275 | Skips to behind the first byte below 128 |
| `InputStream.IStream.DecodeVarint32Eof` | smakfirmware/esp32s3/main/proto/pb_decode.c:171-235 | The same, and the end of the stream is reported exactly when there was no first byte |
| `InputStream.IStream.DecodeTag` | smakfirmware/esp32s3/main/proto/pb_decode.c:291-306 | Splits a varint into field number and wire type, and reports the end of the stream exactly when no byte was left |
| `InputStream.IStream.MakeSubstream` | smakfirmware/esp32s3/main/proto/pb_decode.c:362-375 | The substream holds exactly the counted bytes, which leave the budget of the stream; the common end does not move |
| `InputStream.IStream.CloseSubstream` | smakfirmware/esp32s3/main/proto/pb_decode.c:377-390 | The stream continues where the substream ends |
| `InputStream.IStream.SkipFieldBytes` | smakfirmware/esp32s3/main/proto/pb_decode.c:308-318 | Skips the value of any wire type, or fails |
| `Decoder.DecodeNumber` | smakfirmware/esp32s3/main/proto/pb_decode.c:1346-1495 | Scalars: value and storage range checks as the specification says |
| `Decoder.DecodeBlob` | smakfirmware/esp32s3/main/proto/pb_decode.c:1497-1661 | Length-delimited scalars: the size is checked against the storage before copying |
| `Decoder.DecodePacked` | smakfirmware/esp32s3/main/proto/pb_decode.c:483-520 | Elements of a packed record are appended to the array, up to its maximum |
| `Decoder.DecodeBasic` | smakfirmware/esp32s3/main/proto/pb_decode.c:396-462 | One value of any type; submessages through a substream that is used up |
| `Decoder.DecodeStaticField` | smakfirmware/esp32s3/main/proto/pb_decode.c:467-555 | One record of a known field by its repetition rule |
| `Decoder.DecodeRepeated` | smakfirmware/esp32s3/main/proto/pb_decode.c:479-513 | A record of an array field: one element, or the elements of a packed record, behind those already there |
| `FieldsSeen.MarkBitAdds` | smakfirmware/esp32s3/main/proto/pb_decode.c:1101-1106 | Setting the bit of a required field in its 32-bit word adds its number to the set that the two words stand for |
| `FieldsSeen.NumberCounts` | smakfirmware/esp32s3/main/proto/pb_common.c:142-153 | The number of a required field is how many required fields come before it, and the first 64 are tracked |
| `FieldsSeen.CheckRequired` | smakfirmware/esp32s3/main/proto/pb_decode.c:1119-1147 | Comparing whole words with all ones and the last one with the remaining ones succeeds exactly when every one of the first 64 required fields was seen |
| `Decoder.DecodeRecord` | smakfirmware/esp32s3/main/proto/pb_decode.c:1016-1112 | One turn of the loop: known fields are stored, unknown ones skipped, tag 0 fails |
| `Decoder.DecodeRecords` | smakfirmware/esp32s3/main/proto/pb_decode.c:1016-1112 | The loop uses the stream up; it terminates since the bytes left fall with every record |
| `Decoder.DecodeInner` | smakfirmware/esp32s3/main/proto/pb_decode.c:990-1152 | Decoding into an initialised message; recursion is bounded by the bytes left |
| `Decoder.PbDecode` | smakfirmware/esp32s3/main/proto/pb_decode.c:1182-1197 | Success means that exactly the whole message was consumed, and the result is a function of its bytes |
| `RoundTrip.DecodeUndoesEncode` | smakfirmware/esp32s3/main/proto/pb_decode.c:990-1152 | For every schema and every message whose present parts are in range: it encodes, and decoding the bytes gives an equal message |
| `RoundTrip.RoundTripInner` | smakfirmware/esp32s3/main/proto/pb_encode.c:512-534 | The same for messages nested in messages |
| `RoundTrip.FieldRoundTrip` | smakfirmware/esp32s3/main/proto/pb_encode.c:418-469 | Decoding the bytes of one field takes the decoder from the state before the field to the state after it |
| `RoundTrip.ArrayRoundTrip` | smakfirmware/esp32s3/main/proto/pb_encode.c:128-242 | Packed and unpacked arrays come back whole and in order |
| `RoundTrip.UnpackedRoundTrip` | smakfirmware/esp32s3/main/proto/pb_decode.c:513-524 | Elements sent one by one are appended one by one to what is in the array, also those of types that are packed as a rule |
| `RoundTrip.BoolItemRoundTrip` | smakfirmware/esp32s3/main/proto/pb_decode.c:1420-1423 | Whatever byte a bool in an array holds, its packed form is read back as whether the byte is not zero |
| `RoundTrip.DefaultIsCanon` | smakfirmware/esp32s3/main/proto/pb_encode.c:244-358 | A value that is left out as a default is the value the decoder starts from |
| `RoundTrip.TagRoundTrip` | smakfirmware/esp32s3/main/proto/pb_encode.c:675-679 | Field number and wire type come back |
| `MessageEquality.DecodedMessageFits` | smakfirmware/esp32s3/main/proto/pb_decode.c:396-560 | Whatever bytes arrive, an accepted message respects every declared size, in its absent and inactive parts too |
| `Rejections.WrongWireType` | smakfirmware/esp32s3/main/proto/pb_decode.c:396-462 | An integer or bool takes wire type 0 only, a 64-bit word 1, a 32-bit word 5, everything with a length 2; elements of a packed array carry the marker 255 |
| `Rejections.ZeroTagFails` | smakfirmware/esp32s3/main/proto/pb_decode.c:1030-1040 | A message with field number 0 in front is refused |
| `Rejections.MissingRequiredFails` | smakfirmware/esp32s3/main/proto/pb_decode.c:1119-1147 | A message is accepted only when each of the first 64 required fields occurs in it |
| `Rejections.MemberStartsFresh` | smakfirmware/esp32s3/main/proto/pb_decode.c:524-550 | A member of a oneof that becomes the active one does not depend on what stood there |
| `PackedBools.SameBytesIffEqual` | smakfirmware/esp32s3/main/proto/pb_encode.c:512-534 | Two messages in range have the same bytes if and only if they are equal and their arrays of bools hold the same bytes, at every depth as far as it is written |
| `PackedBools.TrueInThreeWays` | smakfirmware/esp32s3/main/proto/pb_encode.c:155-196 | An array with one true stored as 1, 2 or 255 is one and the same message and is written as 0A 01 01, as 0A 01 02, and in 12 bytes |
| `PackedBools.WithoutBoolArrays` | smakfirmware/esp32s3/main/proto/pb_encode.c:512-534 | Under a schema without arrays of bools two messages have the same bytes exactly when they are equal |
| `PackedBools.SignedBytes` | smakfirmware/esp32s3/main/proto/pb_encode.c:128-242 | A message has the bytes that it has under the schema with 8-bit integers for its arrays of bools |
| `WireOrder.DecodeConcat` | smakfirmware/esp32s3/main/proto/pb_decode.c:1016-1112 | Decoding a concatenation is decoding the first part and merging the second into the result |
| `WireOrder.DecodeTakesWhatSkipTakes` | smakfirmware/esp32s3/main/proto/pb_decode.c:308-318 | A known field of a well-formed record takes exactly the bytes that skipping it would take |
| `WireOrder.UnknownFieldsAreIgnored` | smakfirmware/esp32s3/main/proto/pb_decode.c:1037-1056 | Records of unknown non-zero tags, anywhere between the others, change nothing |
| `WireOrder.RecordsCommute` | smakfirmware/esp32s3/main/proto/pb_decode.c:467-555 | Two neighbouring records that write different places can be swapped, also when one of them fails |
| `WireOrder.OnlySelectionsMatter` | smakfirmware/esp32s3/main/proto/pb_decode.c:1016-1112 | The result depends only on the order of records within each field or oneof |
| `WireOrder.PermutedRecordsDecodeAlike` | smakfirmware/esp32s3/main/proto/pb_decode.c:1016-1112 | Permuting the records of distinct singular fields changes nothing |
| `SmakMessages.ChessMoveSize` | smakfirmware/esp32s3/main/proto/smak.pb.h:136 | Every chess move takes at most 37 bytes |
| `SmakMessages.NewGameSize` | smakfirmware/esp32s3/main/proto/smak.pb.h:138 | Every new game takes at most 2 bytes |
| `SmakMessages.BoardMoveSize` | smakfirmware/esp32s3/main/proto/smak.pb.h:134 | Every board move takes at most 13 bytes |
| `SmakMessages.MessageSize` | smakfirmware/esp32s3/main/proto/smak.pb.h:137 | Every wrapper message takes at most 39 bytes |
| `SmakBytes.ChessMoveBytes` | smakfirmware/esp32s3/main/proto/smak.pb.h:92-99 | The bytes of every chess move: the non-zero numbers behind 08, 10, 18, 20 and 38, piece and captured piece behind 2A and 32 and their lengths |
| `SmakBytes.PawnMoveBytes` | smakfirmware/stm32/src/model.c:175-195 | A pawn from e2 to e4 in ply 1 is 10 01 18 34 20 24 2A 01 50 32 01 5A 38 03 |
| `SmakBytes.MessageBytes` | smakfirmware/esp32s3/main/proto/smak.pb.h:114-116 | A wrapper is 0A, the length and the chess move, or 12, the length and the new game, or nothing |
| `SmakBytes.NewGameBytes` | smakfirmware/esp32s3/main/proto/smak.pb.h:109-110 | A new game is 08 01, or nothing when the flag is off |
| `SmakBytes.BoardMoveBytes` | smakfirmware/esp32s3/main/proto/smak.pb.h:103-105 | A board move is the pin behind 08, a negative one plus 2^64, and 10 01 when the piece is up |
| `SmakBytes.ChessMoveSizeIsReached` | smakfirmware/esp32s3/main/proto/smak.pb.h:136 | A chess move of 37 bytes exists |
| `SmakMessages.SmallMessagesValid` | smakfirmware/esp32s3/main/proto/smak.pb.h:92-112 | The three flat schemas are schemas the codec theorems apply to |
| `SmakMessages.MessageValid` | smakfirmware/esp32s3/main/proto/smak.pb.h:114-120 | So is the wrapper |
| `SmakModel.SmakMoveToPb` | smakfirmware/stm32/src/model.c:175-195 | 37 bytes always suffice, the bytes are the seven records in order, and they decode to the same move, with a blank captured piece sent as Z |
| `SmakModel.ChessMoveMsgCreate` | smakfirmware/stm32/src/model.c:152-173 | A buffer below 39 bytes gives 0 and stays untouched; otherwise the bytes are 0A, the length and the bytes of the move, and decode to a wrapper around it |
| `SmakModel.NewGameMsgCreate` | smakfirmware/stm32/src/model.c:128-150 | The same for a new game: 12 02 08 01 or 12 00 |
| `FieldInfo.UnpackUndoesPack` | smakfirmware/esp32s3/main/proto/pb.h:761-782 | An entry packed in 1, 2, 4 or 8 words unpacks to what was packed, whatever follows it |
| `FieldInfo.UnpackExactly` | smakfirmware/esp32s3/main/proto/pb.h:761-801 | It is the very same entry exactly when a 1-word entry has array size 1 and the size offset of a long entry is at most 127 |
| `FieldInfo.HeadWord` | smakfirmware/esp32s3/main/proto/pb.h:733-760 | The first word of all four formats holds length, type and six bits of the tag in the same places |
| `FieldInfo.Layouts` | smakfirmware/esp32s3/main/proto/pb.h:733-782 | One entry of each of the four formats, word by word in numbers |
| `FieldIterator.EntryUnpacks` | smakfirmware/esp32s3/main/proto/pb_common.c:8-76 | At the word index of a field stands that field |
| `FieldIterator.IndicesStep` | smakfirmware/esp32s3/main/proto/pb_common.c:142-153 | The three running indices of the next field follow from the first word of this one and stay below 2^16 |
| `FieldIterator.FastCheck` | smakfirmware/esp32s3/main/proto/pb_common.c:224-227 | The six-bit check never misses the tag that is looked for |
| `FieldIterator.Iter.constructor` | smakfirmware/esp32s3/main/proto/pb_common.c:156-164 | A fresh iterator stands consistently on the first field |
| `FieldIterator.Iter.Load` | smakfirmware/esp32s3/main/proto/pb_common.c:8-120 | Loads the values of the field the indices belong to, or fails at the end |
| `FieldIterator.Iter.Advance` | smakfirmware/esp32s3/main/proto/pb_common.c:122-154 | Moves all four indices to the next field, or back to the first |
| `FieldIterator.Iter.Next` | smakfirmware/esp32s3/main/proto/pb_common.c:188-193 | Goes to the next field in the ring and tells whether it has wrapped |
| `FieldIterator.Iter.Find` | smakfirmware/esp32s3/main/proto/pb_common.c:195-244 | From any field: terminates, finds the tag exactly when some field has it, and otherwise comes back to the field it stood on |
| `FieldIterator.Iter.Search` | smakfirmware/esp32s3/main/proto/pb_common.c:221-242 | The search loop goes round at most once |
| `FieldLookup.Lookup` | smakfirmware/esp32s3/main/proto/pb_common.c:195-244 | From any field, the iterator finds what the lookup of the decoder model finds: the same verdict and the same position |
| `Utf8.ValidateUtf8` | smakfirmware/esp32s3/main/proto/pb_common.c:334-385 | Accepts exactly the texts of the grammar in section 4 of RFC 3629 without the two noncharacters, and reads no byte after the NUL |
| `Utf8.TextsAreEncodings` | smakfirmware/esp32s3/main/proto/pb_common.c:334-385 | These texts are exactly the encodings (section 3 of RFC 3629) of sequences of scalar values other than U+0000, U+FFFE and U+FFFF |
| `Utf8.CharsAreEncodings` | smakfirmware/esp32s3/main/proto/pb_common.c:340-377 | A byte string obeys the grammar of one character exactly when it is the encoding of a scalar value |
| `Utf8.CheckTwo` | smakfirmware/esp32s3/main/proto/pb_common.c:345-354 | The tests of the two-byte branch |
| `Utf8.CheckThree` | smakfirmware/esp32s3/main/proto/pb_common.c:355-367 | The tests of the three-byte branch |
| `Utf8.CheckFour` | smakfirmware/esp32s3/main/proto/pb_common.c:368-378 | The tests of the four-byte branch |
| `FloatDouble.WidenIsExact` | smakfirmware/esp32s3/main/proto/pb_encode.c:955-1000 | Every finite float widens to the double of the same sign and magnitude |
| `FloatDouble.NarrowIsNearest` | smakfirmware/esp32s3/main/proto/pb_decode.c:1663-1727 | Every finite double narrows to the nearest float, ties away from zero, overflow to infinity |
| `FloatDouble.NarrowUndoesWiden` | smakfirmware/esp32s3/main/proto/pb_decode.c:1663-1727 | Float to double to float gives back every pattern, subnormals, infinities and NaN payloads included |
| `FloatDouble.NarrowSpecials` | smakfirmware/esp32s3/main/proto/pb_decode.c:1681-1686 | Infinity stays infinity; a NaN stays a NaN exactly when some bit of the upper 23 of its payload is set |
| `FloatDouble.KnownPatterns` | smakfirmware/esp32s3/main/proto/pb_encode.c:955-1000 | The patterns of 1.5, -2 and the smallest float in both formats |
| `FloatDouble.KnownNarrowings` | smakfirmware/esp32s3/main/proto/pb_decode.c:1663-1727 | The same for 1.5 and -2 the other way |
| `FloatDouble.ScaledRises` | smakfirmware/esp32s3/main/proto/pb_decode.c:1721-1723 | Larger patterns are larger magnitudes, up to infinity |
| `FloatDouble.EncodeFloatAsDouble` | smakfirmware/esp32s3/main/proto/pb_encode.c:955-1000 | The C steps, with the shifting loop for subnormals, compute the widened pattern |
| `FloatDouble.DecodeDoubleAsFloat` | smakfirmware/esp32s3/main/proto/pb_decode.c:1663-1727 | The C steps compute the nearest float with the sign of the double |
| `FloatDouble.RoundOff` | smakfirmware/esp32s3/main/proto/pb_decode.c:1709-1718 | Rounding off the last bit carries into the exponent |
| `ChessFsm.ChessState.constructor` | smakfirmware/stm32/src/fsm.c:1012-1046 | The state after a reset |
| `ChessFsm.ChessState.CheckCastling` | smakfirmware/stm32/src/fsm.c:238-265 | A king move drops both rights; a rook move keeps only the right of the wing it leaves |
| `ChessFsm.ChessState.HandlePromotion` | smakfirmware/stm32/src/fsm.c:267-290 | A pawn on its last rank becomes a queen |
| `ChessFsm.ChessState.WhiteRun` | smakfirmware/stm32/src/fsm.c:342-371 | What a lift does at the start of White's turn |
| `ChessFsm.ChessState.WhiteMoveRun` | smakfirmware/stm32/src/fsm.c:373-407 | Landing, undoing, or turning into a capture |
| `ChessFsm.ChessState.WhiteCaptureRun` | smakfirmware/stm32/src/fsm.c:409-438 | A capture lands or is rejected; rejected, the machine goes on to Black's turn with an error noted |
| `ChessFsm.ChessState.WhiteEnemyCaptureRun` | smakfirmware/stm32/src/fsm.c:440-462 | An enemy piece was lifted first |
| `ChessFsm.ChessState.WhiteCastlingRun` | smakfirmware/stm32/src/fsm.c:582-627 | The king is in the air; a put on an ordinary square is delivered again as a move |
| `ChessFsm.ChessState.BlackRun` | smakfirmware/stm32/src/fsm.c:464-492 | The same for Black |
| `ChessFsm.ChessState.BlackMoveRun` | smakfirmware/stm32/src/fsm.c:494-526 | The same for Black |
| `ChessFsm.ChessState.BlackCaptureRun` | smakfirmware/stm32/src/fsm.c:528-557 | The same for Black, but a rejected capture ends in the error state |
| `ChessFsm.ChessState.BlackEnemyCaptureRun` | smakfirmware/stm32/src/fsm.c:559-580 | The same for Black |
| `ChessFsm.ChessState.BlackCastlingRun` | smakfirmware/stm32/src/fsm.c:813-858 | The same for Black |
| `ChessFsm.ChessState.EndCastlingKingsideWhite` | smakfirmware/stm32/src/fsm.c:660-668 | The four squares, the rights, the ply and the flag after castling |
| `ChessFsm.ChessState.EndCastlingQueensideWhite` | smakfirmware/stm32/src/fsm.c:670-678 | The four squares, the rights, the ply and the flag after castling |
| `ChessFsm.ChessState.EndCastlingKingsideBlack` | smakfirmware/stm32/src/fsm.c:793-801 | The four squares, the rights, the ply and the flag after castling |
| `ChessFsm.ChessState.EndCastlingQueensideBlack` | smakfirmware/stm32/src/fsm.c:803-811 | The four squares, the rights, the ply and the flag after castling |
| `ChessFsm.ChessState.RunCurrentState` | smakfirmware/stm32/src/fsm.c:117-185 | The run function of the current state, and nothing after termination |
| `ChessFsm.ChessState.LoadEvent` | smakfirmware/stm32/src/fsm.c:1059-1075 | Classifying the touched square |
| `ChessFsm.ChessState.PinChange` | smakfirmware/stm32/src/fsm.c:1059-1084 | One sensor event refines one step of the colour-symmetric model, through the re-entrant delivery too |
| `ChessCastling.RightsMeanKingAtHome` | smakfirmware/stm32/src/fsm.c:238-265 | Over every event sequence, legal or not: while a side holds a castling right, every king of that colour is on its home square |
| `ChessCastling.StepKeepsInv` | smakfirmware/stm32/src/fsm.c:342-1003 | One event keeps that invariant |
| `ChessCastling.StartsInInv` | smakfirmware/stm32/src/fsm.c:1012-1046 | The starting position has it |
| `ChessCastling.LiftAndReturn` | smakfirmware/stm32/src/fsm.c:342-462 | From any reachable turn, the first of a game and the one after a rejected capture included, lifting an occupied square and putting it straight back restores turn, board, rights, counters and en passant data |
| `ChessCastling.CastlingConfluence` | smakfirmware/stm32/src/fsm.c:582-791 | The three accepted orders of lifting and putting king and rook end in the same state, record included |
| `ChessCastling.CastledPosition` | smakfirmware/stm32/src/fsm.c:660-678 | That state is the castled position: king and rook have jumped, every other square and the pieces are as before, the rights are gone |
| `ChessGeometry.CastlesByNumbers` | smakfirmware/stm32/src/fsm.c:582-791 | The four castlings by square numbers (60, 63 to 62, 61; 60, 56 to 58, 59; 4, 7 to 6, 5; 4, 0 to 2, 3): from a turn with the right and the target squares empty, each of the three orders ends with king and rook there, nothing else moved, the enemy to move, both rights gone and one ply counted |
| `ChessGeometry.CastlingGeometry` | smakfirmware/stm32/src/model.h:72-88 | King and rooks start on the home rank, on the e-file and in the corners, where the start position has them; the king goes two squares towards the rook and the rook to the square between |
| `ChessGeometry.PawnDirections` | smakfirmware/stm32/src/fsm.c:204-290 | A pawn moves eight squares a rank towards the other side, and is promoted on its home rank |
| `ChessGeometry.StartLetters` | smakfirmware/stm32/src/model.c:47-56 | King, queen, rook and pawn letters of both sides, and the 64 squares of the start position |
| `ChessGeometry.PieceColours` | smakfirmware/stm32/src/fsm.c:1059-1075 | The letter tests hold of exactly the pieces of the colour: capital letters for White, small ones for Black, none for an empty square |
| `ChessMoves.MoveIsAccepted` | smakfirmware/stm32/src/fsm.c:342-407 | From every reachable turn, lifting an own piece and putting it on an empty square is accepted, unless a king is put where it may castle: the piece, or a queen, stands there, and turn, ply, counter, en passant data, rights and record are those of that move, in letters and numbers |
| `ChessMoves.CaptureConfluence` | smakfirmware/stm32/src/fsm.c:373-462 | From every reachable turn, lifting the own piece and then the enemy piece, or the enemy piece and then the own, and landing on its square or en passant are both accepted, by any piece, a king with rights included; they lead to one and the same state, which is the capture |
| `ChessMoves.NothingAfterError` | smakfirmware/stm32/src/fsm.c:1005-1010 | In the error state no event changes board, rights, counters or record any more |
| `ChessOccupancy.BoardMatchesTable` | smakfirmware/stm32/src/fsm.c:342-1003 | After every run of physically possible events without an error, whenever it is a side's turn, pieces stand on the squares that the board shows and on those where a mistaken en passant capture has landed and that were not lifted since; so both agree if and only if there are none |
| `ChessOccupancy.CleanRunsCoherent` | smakfirmware/stm32/src/fsm.c:342-1003 | The invariant behind it, for every state in the middle of a move |
| `ChessOccupancy.NoMistakeNoLoss` | smakfirmware/stm32/src/fsm.c:409-438 | A run without a mistaken en passant capture loses no piece |
| `ChessOccupancy.LostPieceLifted` | smakfirmware/stm32/src/fsm.c:582-627 | With a king in the air, lifting a lost piece leaves the machine as it is, and settles the loss |
| `ChessOccupancy.CaptureExact` | smakfirmware/stm32/src/fsm.c:409-438 | A capture keeps board and table in agreement if and only if it does not land on the en passant square while the board shows a piece there |
| `ChessOccupancy.StepCoherent` | smakfirmware/stm32/src/fsm.c:342-1003 | One possible event keeps the board coherent with the table, lost pieces counted, or ends in an error |
| `ChessStaleFlag.KnightVanishes` | smakfirmware/stm32/src/fsm.c:204-225 | A legal game after which they disagree: the flag of a double pawn step outlives moves of other pieces |
| `ChessMirror.MirrorExactly` | smakfirmware/stm32/src/fsm.c:342-1003 | Flipping ranks and swapping colours commutes with one event if and only if it is not a rejected capture |
| `ChessMirror.StepMirror` | smakfirmware/stm32/src/fsm.c:342-1003 | The positive half, for all states |
| `ChessMirror.RejectedCaptureMirror` | smakfirmware/stm32/src/fsm.c:433-436 | The negative half: White's rejected capture is treated differently |
| `ChessMirrorRuns.RejectionIsReachable` | smakfirmware/stm32/src/fsm.c:409-438 | A rejected capture happens in a game: after a reset, lifting e2 and e7 and putting a piece on e4 |
| `ChessMirrorRuns.RunMirror` | smakfirmware/stm32/src/fsm.c:342-1003 | Over runs of any length without a rejected capture, the mirrored game stays the mirror image of the game |
| `ChessMirrorRuns.StepRespectsSame` | smakfirmware/stm32/src/fsm.c:342-1003 | A dead en passant square and the last castling record never influence the machine |
| `ChessRecords.RecordTellsBoard` | smakfirmware/stm32/src/fsm.c:75-113 | Whenever a move is completed, its record, replayed on the board before, gives the board after, if and only if it is not a capture that lands away from the captured piece |
| `ChessRecords.CastlingRecordTells` | smakfirmware/stm32/src/fsm.c:87-113 | Though the colours fill in the target square differently, a castling record tells colour and wing, and two records are equal only if both are |
| `ChessCounters.CountersCount` | smakfirmware/stm32/src/fsm.c:204-236 | Over every run from a reset, legal or not: the ply number is the number of completed moves modulo 256, the other counter that of piece moves since the last pawn move or capture, and the en passant flag is set exactly while the last pawn jump has been followed by such moves only, with the square jumped over |
| `ChessCounters.StepFollows` | smakfirmware/stm32/src/fsm.c:342-1003 | One event changes the counters, the flag and the square as the move it completes demands, judged by turn and record alone |
| `ChessRights.RightsTellHistory` | smakfirmware/stm32/src/fsm.c:238-265 | Over every run from a reset, legal or not: a side holds the right of a wing if and only if no record so far is of its castling or a move of its king, or of a rook of its that left from elsewhere than the corner of that wing |
| `ChessRights.StepRights` | smakfirmware/stm32/src/fsm.c:342-1003 | One event takes exactly the rights that the move it completes forfeits |
| `ChessPieces.BoardShowsPieces` | smakfirmware/stm32/src/fsm.c:342-1003 | After every game of possible acts without mistake or error, in which of two pieces in hand the one the state expects is put, whenever it is a side's turn each square of the table holds the piece that the board in memory shows, or the pawn that memory has made a queen |
| `ChessPieces.WrongPieceGoesUnnoticed` | smakfirmware/stm32/src/fsm.c:373-438 | Without that condition memory can be wrong: lifting e2 and e7 and putting the black pawn back is taken for a capture on e7 |
| `ChessMaterial.PiecesBalance` | smakfirmware/stm32/src/fsm.c:342-1003 | Over every run of possible events without mistake or error, the multiset of pieces in memory changes by the captured pieces and the pawns exchanged for queens, and by nothing else |
| `ChessMaterial.StepBalances` | smakfirmware/stm32/src/fsm.c:342-1003 | The same for one event |
| `ChessRecords.PlyTellsTurn` | smakfirmware/stm32/src/fsm.c:342-1003 | Over every event sequence without a rejected capture, the parity of the ply number tells whose turn it is |
| `ChessRecords.RunStatePly` | smakfirmware/stm32/src/fsm.c:409-438 | One event keeps that if and only if it is not a rejected capture by White |
| `ChessRecords.PawnsAlwaysPromote` | smakfirmware/stm32/src/fsm.c:267-290 | Over every event sequence, legal or not, no pawn stands on the far rank of its colour |
| `EventQueue.EveryRunKeepsInv` | smakfirmware/stm32/src/fsm.c:1133-1192 | In every interleaving of any number of producers with the listener: order, one outcome for each event, mutual exclusion, no lost wake-up |
| `EventQueue.ProcessedInOrder` | smakfirmware/stm32/src/fsm.c:1156-1176 | Processed events are a prefix of the queued ones, and the list holds the resulting state of each, in order |
| `EventQueue.ListenerNotBlocked` | smakfirmware/stm32/src/fsm.c:1159-1160 | With an item queued and every put followed by its give, the listener can always take its next step |
| `EventQueue.ListenerDrainsQueue` | smakfirmware/stm32/src/fsm.c:1156-1176 | Then the listener by itself processes everything that was queued |
| `EventQueue.ProducerQueues` | smakfirmware/stm32/src/fsm.c:1181-1192 | With the mutex free, a producer at rest can take all its steps, whatever the listener does; then its event is last in the queue, there is a token, and the mutex is free |
| `EventQueue.ListIsCounted` | smakfirmware/stm32/src/fsm.c:1170-1174 | In every run the semaphore of the list counts the appended nodes, up to 64 |
| `EventQueue.EveryQueuedEventIsProcessed` | smakfirmware/stm32/src/fsm.c:1156-1192 | The same from any run |
| `EventQueue.ChessOutcomes` | smakfirmware/stm32/src/fsm.c:1162-1176 | With the chess machine, entry number i of the list is the state after the run of the first i + 1 events |
| `Fen.ValidFen` | newnewWebinterface/wwwroot/js/chessboardjs/js/chessboard-1.0.0.js:225-248 | Accepts exactly the strings whose placement, expanded, is eight rows of eight squares |
| `Fen.FenToObj` | newnewWebinterface/wwwroot/js/chessboardjs/js/chessboard-1.0.0.js:331-364 | Returns the position that the expanded rows show, or fails for an invalid FEN |
| `Fen.ObjToFen` | newnewWebinterface/wwwroot/js/chessboardjs/js/chessboard-1.0.0.js:368-398 | Returns the squeezed text of the eight rows, or fails for an invalid position |
| `Fen.ParseUndoesPrint` | newnewWebinterface/wwwroot/js/chessboardjs/js/chessboard-1.0.0.js:331-398 | Parsing a printed position gives back the position, for every valid position |
| `Fen.PrintOfParse` | newnewWebinterface/wwwroot/js/chessboardjs/js/chessboard-1.0.0.js:331-398 | Printing a parsed FEN gives the squeezed form of its expanded placement, for every valid FEN |
| `Fen.PrintUndoesParse` | newnewWebinterface/wwwroot/js/chessboardjs/js/chessboard-1.0.0.js:331-398 | It gives back the FEN itself if and only if that has no trailing fields and no two digits side by side but behind an 8 |
| `Fen.LetterCodes` | newnewWebinterface/wwwroot/js/chessboardjs/js/chessboard-1.0.0.js:306-327 | Letters and piece codes are inverse |
| `FenStart.TwelveLetters` | newnewWebinterface/wwwroot/js/chessboardjs/js/chessboard-1.0.0.js:225-248 | The letters of a FEN are pnbrqk and PNBRQK, and the kinds of pieces PNBRQK |
| `FenStart.LetterColours` | newnewWebinterface/wwwroot/js/chessboardjs/js/chessboard-1.0.0.js:306-314 | A letter is a white piece exactly when it is a capital letter, and the kind is the capital letter |
| `FenStart.PrintedLetters` | newnewWebinterface/wwwroot/js/chessboardjs/js/chessboard-1.0.0.js:317-327 | White pieces are printed in capital letters, black ones in small letters |
| `FenStart.SquareOfFen` | newnewWebinterface/wwwroot/js/chessboardjs/js/chessboard-1.0.0.js:331-364 | The first row of a FEN is rank 8 and the first square of a row is on the a-file; capital letters are White |
| `FenStart.StartPosition` | newnewWebinterface/wwwroot/js/chessboardjs/js/chessboard-1.0.0.js:331-364 | rnbqkbnr/pppppppp/8/8/8/8/PPPPPPPP/RNBQKBNR is the start position: black officers on rank 8, black pawns on 7, white pawns on 2, white officers on 1, the kings on the e-file |
| `FenStrings.ExpandSpells` | newnewWebinterface/wwwroot/js/chessboardjs/js/chessboard-1.0.0.js:416-424 | The chain of replacements writes each digit as that many ones |
| `FenStrings.SqueezeIsSqueezed` | newnewWebinterface/wwwroot/js/chessboardjs/js/chessboard-1.0.0.js:406-414 | The chain of replacements writes each run of ones as digits, in eights as long as possible |
| `FenStrings.ExpandSqueeze` | newnewWebinterface/wwwroot/js/chessboardjs/js/chessboard-1.0.0.js:406-424 | Expanding undoes squeezing |
| `FenStrings.SqueezeExpand` | newnewWebinterface/wwwroot/js/chessboardjs/js/chessboard-1.0.0.js:406-424 | Squeezing undoes expanding exactly on the strings without two digits side by side but behind an 8 |
| `Animations.CreateRadius` | newnewWebinterface/wwwroot/js/chessboardjs/js/chessboard-1.0.0.js:462-492 | All other 63 squares, once each, the nearest first |
| `Animations.DistanceIsReach` | newnewWebinterface/wwwroot/js/chessboardjs/js/chessboard-1.0.0.js:427-442 | Two squares are at most n apart exactly when their files and their ranks are at most n apart |
| `Animations.FindClosestPiece` | newnewWebinterface/wwwroot/js/chessboardjs/js/chessboard-1.0.0.js:445-459 | A nearest square with the piece, exactly when there is one elsewhere |
| `Animations.CalculateAnimations` | newnewWebinterface/wwwroot/js/chessboardjs/js/chessboard-1.0.0.js:1036-1104 | The animations turn the first position into the second; sources and destinations are distinct, each move carries the piece on its source, squares that agree are left alone, and of each kind as many pieces move as both leftovers allow |
| `Animations.FindMoves` | newnewWebinterface/wwwroot/js/chessboardjs/js/chessboard-1.0.0.js:1058-1075 | The pairing loop: afterwards no kind of piece is both left over and still wanted |
| `Animations.ApplyGives` | newnewWebinterface/wwwroot/js/chessboardjs/js/chessboard-1.0.0.js:1036-1104 | Lifting all that differs and placing all that is wanted gives the second position |
| `Animations.MovesAreMinimum` | newnewWebinterface/wwwroot/js/chessboardjs/js/chessboard-1.0.0.js:1058-1075 | The number of moves of a kind is the smaller of the two leftover counts |

## Left out

- `Encoder.Encode`: sizes are natural numbers; a message must be countable in 64 bits, so the wrap-around test of `pb_write` never fires.
- `RoundTrip.DecodeUndoesEncode`: the encoding must be shorter than 2^32 bytes, since lengths are read as 32-bit numbers.
- `Decoder.DecodeInner`: descriptors are finite trees, as static C structures force them to be; self-referential schemas need pointer or callback fields. Recursion is bounded by the bytes left and not by the schema.
- `Decoder.DecodeStaticField`: the destination is a value, so aliasing between fields of a structure and bytes past the end of a string are not modelled; the input buffer does not change while it is read.
- `SmakMessages.ChessMoveSize`: piece and captured piece hold one byte, as declared; their C structures are padded to 4 bytes, so the size checks of the C code would also let two bytes pass.
- `FieldIterator.Iter.Find`: descriptors have no extension fields, fewer than 65535 fields and fewer than 65536 words, which the generator's output satisfies; at 65535 fields the 16-bit index of `advance_iterator` would wrap.
- `FieldIterator.Iter.Load`: pointer fields are left out, and addresses are integers.
- `Utf8.ValidateUtf8`: the string is given up to and including its NUL, so that reading further would be an index error.
- `FloatDouble.DecodeDoubleAsFloat`: starts from the 64-bit pattern; reading its eight bytes is the Fixed64 case of the codec.
- `ChessFsm.ChessState.PinChange`: sensor numbers are below 64. From 65 on the C code would set its error flag after reading outside the board.
- `ChessCastling.CastlingConfluence`: the king's landing square and the rook's must be empty, as they are when the squares between king and rook are; legality is not checked by the code.
- `ChessPieces.BoardShowsPieces`: a captured piece is put aside when the turn ends and does not come back; a pawn that memory has made a queen stays on the table as it is.
- `EventQueue.EveryRunKeepsInv`: memory allocation succeeds, the reader of the list, `reset_fsm` and `clean_state` do not run, and the unused work handler `do_work_with_fifo` is no consumer.
- `Animations.CreateRadius`: the library sort is an insertion sort; only its being sorted by distance and complete is used.
- `Animations.CalculateAnimations`: squares are on the board, as `validPositionObject` ensures for callers.
- `Fen.FenToObj`: arguments are strings and position objects; other JavaScript values are not modelled.
- `pb_decode_ex` with flags: the delimited, NUL-terminated and no-initialisation forms of decoding.
- nanopb callbacks, extensions, pointer fields, heap allocation, fixed-count arrays, proto2 default values, error messages and 32-bit-only builds.
- Strings and bytes with no storage (`char[0]`), and values of the wrong shape, which C types exclude.
- Zephyr's own code, logging, the shell, UART and JSON output; `pin` and the state names.
- Chess legality, move generation, FEN castling and clock fields, and the engine.
- HTTP, OAuth, OTA, USB and Wi-Fi code, the database services, drawing and drag handling.
