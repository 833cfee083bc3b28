/** The packed field descriptors: 1, 2, 4 or 8 words a field, and what unpacking them gives back.

    Words are 32-bit vectors, so shifts and masks are the C code's own. The 16-bit size type is used. */
module FieldInfo {

  datatype Width = One | Two | Four | Eight {
    function Words(): nat { match this case One => 1 case Two => 2 case Four => 4 case Eight => 8 }
  }

  /** The arguments of the packing macros. The size offset is a signed number in two's complement. */
  datatype Info = Info(width: Width, tag: bv32, fieldType: bv32, dataOffset: bv32, dataSize: bv32, sizeOffset: bv32,
                       arraySize: bv32)

  /** The cast to `int_least8_t` and back to 32 bits. */
  function Int8(x: bv32): bv32 {
    if x & 0x80 == 0 then x & 0xFF else x | 0xFFFF_FF00
  }

  /** The static assertions beside the macros, and an 8-bit type. */
  predicate Fits(f: Info) {
    && f.fieldType < 0x100
    && match f.width
       case One =>
         f.tag < 0x40 && f.dataOffset < 0x100 && f.sizeOffset < 0x10 && f.dataSize < 0x10 && f.arraySize < 2
       case Two =>
         f.tag < 0x400 && f.dataOffset < 0x1_0000 && f.sizeOffset < 0x10 && f.dataSize < 0x1000 && f.arraySize < 0x1000
       case _ =>
         f.tag < 0x1_0000 && f.dataOffset < 0x1_0000 && Int8(f.sizeOffset) < 0x100 && f.dataSize < 0x1_0000
             && f.arraySize < 0x1_0000
  }

  function Head2(f: Info): bv32 {
    1 | ((f.tag << 2) & 0xFF) | (f.fieldType << 8) | ((f.arraySize & 0xFFF) << 16) | ((f.sizeOffset & 0x0F) << 28)
  }

  function Tail2(f: Info): bv32 {
    (f.dataOffset & 0xFFFF) | ((f.dataSize & 0xFFF) << 16) | ((f.tag & 0x3c0) << 22)
  }

  /** PB_FIELDINFO_1, _2, _4 and _8. */
  function Pack(f: Info): (words: seq<bv32>)
    ensures |words| == f.width.Words()
  {
    match f.width
    case One =>
      [0 | ((f.tag << 2) & 0xFF) | (f.fieldType << 8) | ((f.dataOffset & 0xFF) << 16)
         | ((f.sizeOffset & 0x0F) << 24) | ((f.dataSize & 0x0F) << 28)]
    case Two =>
      [Head2(f), Tail2(f)]
    case Four =>
      [2 | ((f.tag << 2) & 0xFF) | (f.fieldType << 8) | ((f.arraySize & 0xFFFF) << 16),
       Int8(f.sizeOffset) | ((f.tag << 2) & 0xFFFF_FF00),
       f.dataOffset, f.dataSize]
    case Eight =>
      [3 | ((f.tag << 2) & 0xFF) | (f.fieldType << 8),
       Int8(f.sizeOffset) | ((f.tag << 2) & 0xFFFF_FF00),
       f.dataOffset, f.dataSize, f.arraySize, 0, 0, 0]
  }

  // ----- reading -----

  function TypeOf(word0: bv32): bv32 { (word0 >> 8) & 0xFF }
  function LowTag(word0: bv32): bv32 { (word0 >> 2) & 0x3F }

  function WidthOf(word0: bv32): Width {
    if word0 & 3 == 0 then One else if word0 & 3 == 1 then Two else if word0 & 3 == 2 then Four else Eight
  }

  function Unpack1(word0: bv32): Info {
    Info(One, LowTag(word0), TypeOf(word0), (word0 >> 16) & 0xFF, (word0 >> 28) & 0x0F, Int8((word0 >> 24) & 0x0F), 1)
  }

  function Unpack2(word0: bv32, word1: bv32): Info {
    Info(Two, (LowTag(word0) | ((word1 >> 28) << 6)) & 0xFFFF, TypeOf(word0), word1 & 0xFFFF, (word1 >> 16) & 0x0FFF,
         Int8((word0 >> 28) & 0x0F), (word0 >> 16) & 0x0FFF)
  }

  function Unpack4(word0: bv32, word1: bv32, word2: bv32, word3: bv32): Info {
    Info(Four, (LowTag(word0) | ((word1 >> 8) << 6)) & 0xFFFF, TypeOf(word0), word2, word3 & 0xFFFF,
         Int8(word1 & 0xFF), (word0 >> 16) & 0xFFFF)
  }

  function Unpack8(word0: bv32, word1: bv32, word2: bv32, word3: bv32, word4: bv32): Info {
    Info(Eight, (LowTag(word0) | ((word1 >> 8) << 6)) & 0xFFFF, TypeOf(word0), word2, word3 & 0xFFFF,
         Int8(word1 & 0xFF), word4 & 0xFFFF)
  }

  /** The switch of `load_descriptor_values` on the words from the current one on. */
  function Unpack(words: seq<bv32>): (f: Info)
    requires |words| > 0 && |words| >= WidthOf(words[0]).Words()
  {
    match WidthOf(words[0])
    case One => Unpack1(words[0])
    case Two => Unpack2(words[0], words[1])
    case Four => Unpack4(words[0], words[1], words[2], words[3])
    case Eight => Unpack8(words[0], words[1], words[2], words[3], words[4])
  }

  /** What unpacking gives back: a 1-word entry forgets its array size, the long ones keep the low
      byte of the size offset. */
  function Stored(f: Info): Info {
    f.(sizeOffset := if f.width.Four? || f.width.Eight? then Int8(f.sizeOffset) else f.sizeOffset,
       arraySize := if f.width.One? then 1 else f.arraySize)
  }

  /** The first word of every format: its length, six bits of the tag, and the type. */
  lemma HeadWord(f: Info)
    requires Fits(f)
    ensures WidthOf(Pack(f)[0]) == f.width && TypeOf(Pack(f)[0]) == f.fieldType && LowTag(Pack(f)[0]) == f.tag & 0x3F
  {
  }

  lemma UnpackOne(f: Info)
    requires Fits(f) && f.width == One
    ensures Unpack(Pack(f)) == Stored(f)
  {
    HeadWord(f);
  }

  lemma UnpackHead2(f: Info)
    requires Fits(f) && f.width == Two
    ensures (Head2(f) >> 16) & 0x0FFF == f.arraySize && Int8((Head2(f) >> 28) & 0x0F) == f.sizeOffset
    ensures WidthOf(Head2(f)) == Two && TypeOf(Head2(f)) == f.fieldType && LowTag(Head2(f)) == f.tag & 0x3F
  {
  }

  lemma UnpackTail2(f: Info)
    requires Fits(f) && f.width == Two
    ensures Tail2(f) & 0xFFFF == f.dataOffset && (Tail2(f) >> 16) & 0x0FFF == f.dataSize && Tail2(f) >> 28 == f.tag >> 6
  {
  }

  lemma JoinTag(tag: bv32, low: bv32, high: bv32)
    requires tag < 0x400 && high == tag >> 6 && low == tag & 0x3F
    ensures (low | (high << 6)) & 0xFFFF == tag
  {
  }

  lemma UnpackTwoWords(f: Info, word0: bv32, word1: bv32)
    requires f.width == Two && f.tag < 0x400 && TypeOf(word0) == f.fieldType && LowTag(word0) == f.tag & 0x3F
    requires (word0 >> 16) & 0x0FFF == f.arraySize && Int8((word0 >> 28) & 0x0F) == f.sizeOffset
    requires word1 & 0xFFFF == f.dataOffset && (word1 >> 16) & 0x0FFF == f.dataSize && word1 >> 28 == f.tag >> 6
    ensures Unpack2(word0, word1) == f
  {
    JoinTag(f.tag, LowTag(word0), word1 >> 28);
  }

  lemma UnpackTwo(f: Info)
    requires Fits(f) && f.width == Two
    ensures WidthOf(Pack(f)[0]) == Two && Unpack(Pack(f)) == f
  {
    UnpackHead2(f);
    UnpackTail2(f);
    UnpackPair(f, Head2(f), Tail2(f), Pack(f));
  }

  lemma UnpackPair(f: Info, word0: bv32, word1: bv32, words: seq<bv32>)
    requires words == [word0, word1] && WidthOf(word0) == Two
    requires f.width == Two && f.tag < 0x400 && TypeOf(word0) == f.fieldType && LowTag(word0) == f.tag & 0x3F
    requires (word0 >> 16) & 0x0FFF == f.arraySize && Int8((word0 >> 28) & 0x0F) == f.sizeOffset
    requires word1 & 0xFFFF == f.dataOffset && (word1 >> 16) & 0x0FFF == f.dataSize && word1 >> 28 == f.tag >> 6
    ensures WidthOf(words[0]) == Two && Unpack(words) == f
  {
    UnpackTwoWords(f, word0, word1);
  }

  lemma UnpackFour(f: Info)
    requires Fits(f) && f.width == Four
    ensures Unpack(Pack(f)) == Stored(f)
  {
    HeadWord(f);
  }

  lemma UnpackEight(f: Info)
    requires Fits(f) && f.width == Eight
    ensures Unpack(Pack(f)) == Stored(f)
  {
    HeadWord(f);
  }

  /** Only the words of the entry itself are read. */
  lemma UnpackPrefix(words: seq<bv32>, rest: seq<bv32>)
    requires |words| > 0 && |words| >= WidthOf(words[0]).Words()
    ensures Unpack(words + rest) == Unpack(words)
  {
  }

  /** Under the static assertions an entry unpacks to what was packed. */
  lemma UnpackUndoesPack(f: Info, rest: seq<bv32>)
    requires Fits(f)
    ensures WidthOf((Pack(f) + rest)[0]) == f.width
    ensures Unpack(Pack(f) + rest) == Stored(f)
  {
    HeadWord(f);
    UnpackPrefix(Pack(f), rest);
    match f.width
    case One => UnpackOne(f);
    case Two => UnpackTwo(f);
    case Four => UnpackFour(f);
    case Eight => UnpackEight(f);
  }

  /** It is the very same entry exactly when a 1-word entry has array size 1 and the size offset of a
      long entry is at most 127; the assertions check the latter only after the cast. */
  lemma UnpackExactly(f: Info)
    requires Fits(f)
    ensures WidthOf(Pack(f)[0]) == f.width
    ensures Unpack(Pack(f)) == f <==>
            (f.width == One ==> f.arraySize == 1) && (f.width.Four? || f.width.Eight? ==> f.sizeOffset < 0x80)
  {
    HeadWord(f);
    UnpackUndoesPack(f, []);
    assert Pack(f) + [] == Pack(f);
  }

  /** One entry of each format, word by word: from the lowest bit up, the length code, six bits of the
      tag, the type, and the rest where the format has it. */
  lemma Layouts()
    ensures Pack(Info(One, 3, 0x22, 8, 4, 2, 1)) == [0x4208_220C]
    ensures Pack(Info(Two, 0x155, 0x26, 0x1234, 0x567, 3, 0x89A)) == [0x389A_2655, 0x5567_1234]
    ensures Pack(Info(Four, 0x1234, 0x38, 0x100, 0x200, 4, 7)) == [0x0007_38D2, 0x4804, 0x100, 0x200]
    ensures Pack(Info(Eight, 0x1234, 0x38, 0x100, 0x200, 4, 7)) == [0x38D3, 0x4804, 0x100, 0x200, 7, 0, 0, 0]
  {
  }
}
