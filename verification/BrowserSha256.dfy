/**
  The dashboard's SHA-256 fallback and its refinement of FIPS 180-4.

  The loop writes signed 32-bit numbers into a sparse array and adds them with
  `| 0`; the specification works on words below 2^32. The two meet through
  ToUint32: every variable of the loop, reduced modulo 2^32, is the word of the
  specification.
 */
module BrowserSha256 {
  import opened Bits
  import opened Fips180
  import opened JsInt32

  // ---- Packing the message into the sparse array ----

  function OrInto(words: JsArray, index: int, value: int): JsArray {
    words.Put(index, BitOr(words.Get(index), value))
  }

  /** The array after the loop has packed the first n bytes. */
  function PackBytes(message: seq<Byte>, n: nat): JsArray
    requires n <= |message|
  {
    if n == 0 then JsArray(map[], 0)
    else OrInto(PackBytes(message, n - 1), Sar(n - 1, 2), Shl(message[n - 1], 24 - (n - 1) % 4 * 8))
  }

  function MarkIndex(bits: nat): int {
    Sar(bits, 5)
  }

  function LengthIndex(bits: nat): int {
    Shl(Sar(bits + 64, 9), 4) + 15
  }

  /** The array once the 0x80 byte has been or-ed in. */
  function MarkedWords(message: seq<Byte>): JsArray {
    var bits := 8 * |message|;
    BitsOfBytes(|message|);
    OrInto(PackBytes(message, |message|), MarkIndex(bits), Shl(0x80, 24 - bits % 32))
  }

  lemma BitsOfBytes(length: nat)
    ensures 8 * length % 32 == length % 4 * 8
  {
    var k, r := length / 4, length % 4;
    assert 8 * length == 32 * k + 8 * r;
  }

  function PackedWords(message: seq<Byte>): JsArray {
    MarkedWords(message).Put(LengthIndex(8 * |message|), 8 * |message|)
  }

  function JsBlock(words: JsArray, n: nat): Block {
    Sixteen(j => ToUint32(words.Get(16 * n + j)))
  }

  /** The blocks the outer loop reads: holes count as zero. */
  function JsBlocks(words: JsArray): (r: seq<Block>)
    ensures |r| == (words.length + 15) / 16
  {
    seq((words.length + 15) / 16, n requires n >= 0 => JsBlock(words, n))
  }

  /** The longest message, plus one, whose padding fits the 32-bit shifts. */
  const LIMIT := 0x1000_0000 - 8

  lemma ShiftedByteIsAdded(high: nat, byte: Byte, n: nat)
    requires n == 0 || n == 8 || n == 16 || n == 24
    requires Double(high, n + 8) < TWO32
    ensures OrW(Double(high, n + 8), ShiftLeft(n, byte)) == Double(high, n + 8) + Double(byte, n)
  {
    hide Or, Double;
    DoubleValues(1);
    DoubleValues(byte);
    DisjointOrIsSum(high, Double(byte, n), n + 8);
  }

  /** Or-ing a byte into the word where it belongs appends it to the packed string. */
  lemma AppendByte(bytes: seq<Byte>, byte: Byte, q: nat)
    ensures WordAt(bytes + [byte], q) ==
            if q == |bytes| / 4 then OrW(WordAt(bytes, q), ShiftLeft(24 - |bytes| % 4 * 8, byte))
            else WordAt(bytes, q)
  {
    hide OrW, ShiftLeft, Double;
    if q == |bytes| / 4 {
      var a: nat, b: nat, c: nat := ByteAt(bytes, 4 * q), ByteAt(bytes, 4 * q + 1), ByteAt(bytes, 4 * q + 2);
      var r := |bytes| % 4;
      var high := if r == 0 then 0 else if r == 1 then a else if r == 2 then a * 0x100 + b
                  else a * 0x1_0000 + b * 0x100 + c;
      DoubleValues(high);
      DoubleValues(byte);
      ShiftedByteIsAdded(high, byte, 24 - r * 8);
    }
  }

  lemma PackStep(words: JsArray, bytes: seq<Byte>, byte: Byte, q: nat)
    requires ToUint32(words.Get(q)) == WordAt(bytes, q)
    ensures ToUint32(OrInto(words, |bytes| / 4, Shl(byte, 24 - |bytes| % 4 * 8)).Get(q)) == WordAt(bytes + [byte], q)
  {
    assert ToUint32(byte) == byte;
    AppendByte(bytes, byte, q);
    hide OrW, ShiftLeft, WordAt, ToUint32, Shl, BitOr;
  }

  lemma OrIntoLength(words: JsArray, index: int, value: int)
    ensures OrInto(words, index, value).length == if index >= words.length then index + 1 else words.length
  {
  }

  lemma {:induction false} PackBytesPacks(message: seq<Byte>, n: nat, q: nat)
    requires n <= |message| < 0x8000_0000
    ensures ToUint32(PackBytes(message, n).Get(q)) == WordAt(message[..n], q)
    ensures PackBytes(message, n).length == (n + 3) / 4
    decreases n
  {
    hide WordAt, ToUint32, Shl, BitOr, Sar, OrInto;
    WordIsItself(0);
    WordPastEnd(message[..0], q);
    if n > 0 {
      PackBytesPacks(message, n - 1, q);
      SarByFour(n - 1);
      PackStep(PackBytes(message, n - 1), message[..n - 1], message[n - 1], q);
      OrIntoLength(PackBytes(message, n - 1), (n - 1) / 4, Shl(message[n - 1], 24 - (n - 1) % 4 * 8));
      assert message[..n] == message[..n - 1] + [message[n - 1]];
    }
  }

  lemma SarByFour(i: nat)
    requires i < 0x8000_0000
    ensures Sar(i, 2) == i / 4
  {
    HalveValues(i);
  }

  lemma MarkIndexFits(length: nat)
    requires length < LIMIT
    ensures MarkIndex(8 * length) == length / 4
  {
    HalveValues(8 * length);
  }

  lemma SarByFiveTwelve(x: nat)
    requires x < 0x8000_0000
    ensures Sar(x, 9) == x / 512
  {
    HalveValues(x);
  }

  lemma ShlBySixteen(x: nat)
    requires x < 0x800_0000
    ensures Shl(x, 4) == 16 * x
  {
    DoubleValues(x);
    hide Double;
    assert ShiftLeft(4, ToUint32(x)) == 16 * x;
  }

  lemma LengthIndexFits(length: nat)
    requires length < LIMIT
    ensures LengthIndex(8 * length) == (length + 8) / 64 * 16 + 15
  {
    var s := (length + 8) / 64;
    SarByFiveTwelve(8 * length + 64);
    ShlBySixteen(s);
    hide Sar, Shl;
  }

  lemma PaddedLength(length: nat)
    ensures length + 1 + ZeroBytes(length) + 8 == 4 * ((length + 8) / 64 * 16 + 16)
  {
    var k, r := length / 64, length % 64;
    assert ZeroBytes(length) == if r <= 55 then 55 - r else 119 - r;
    assert (length + 8) / 64 == if r <= 55 then k else k + 1;
  }

  lemma WordPastEnd(bytes: seq<Byte>, q: nat)
    ensures 4 * q >= |bytes| ==> WordAt(bytes, q) == 0
  {
  }

  lemma MarkedWordsAppend0x80(message: seq<Byte>, q: nat)
    requires |message| < LIMIT
    ensures ToUint32(MarkedWords(message).Get(q)) == WordAt(message + [0x80], q)
    ensures MarkedWords(message).length == |message| / 4 + 1
  {
    PackBytesPacks(message, |message|, q);
    assert message[..|message|] == message;
    PackStep(PackBytes(message, |message|), message, 0x80, q);
    MarkIndexFits(|message|);
    BitsOfBytes(|message|);
    hide PackBytes, Shl, BitOr, WordAt, MarkIndex, ToUint32;
    assert 24 - 8 * |message| % 32 == 24 - |message| % 4 * 8;
  }

  lemma PackedWordIsPaddedWord(message: seq<Byte>, q: nat)
    requires |message| < LIMIT && 4 * q < |Pad(message)|
    ensures ToUint32(PackedWords(message).Get(q)) == WordAt(Pad(message), q)
    ensures 4 * PackedWords(message).length == |Pad(message)|
  {
    hide Pad, WordAt, MarkedWords, LengthIndex, ZeroBytes;
    MarkedWordsAppend0x80(message, q);
    LengthIndexFits(|message|);
    PaddedLength(|message|);
    PaddingAt(message, q);
    WordPastEnd(message + [0x80], q);
  }

  lemma PaddingTail(message: seq<Byte>)
    requires |message| < MAX_BYTES
    ensures var n := |Pad(message)|;
            Pad(message)[n - 8..n - 4] == BigEndianWord(8 * |message| / TWO32) &&
            Pad(message)[n - 4..n] == BigEndianWord(8 * |message| % TWO32)
  {
    hide ZeroBytes, Zeros, BigEndianWord;
    var p, n, bits := Pad(message), |Pad(message)|, 8 * |message|;
    assert p[n - 8..] == LengthField(bits);
    assert p[n - 8..n - 4] == p[n - 8..][..4] && p[n - 4..n] == p[n - 8..][4..];
  }

  lemma PaddingHead(message: seq<Byte>, i: nat)
    requires |message| < MAX_BYTES && i < |Pad(message)| - 8
    ensures ByteAt(Pad(message), i) == ByteAt(message + [0x80], i)
  {
    hide ZeroBytes, LengthField;
  }

  /** Where the specification's padding puts its words. */
  lemma PaddingAt(message: seq<Byte>, q: nat)
    requires |message| < MAX_BYTES && 4 * q < |Pad(message)|
    ensures 4 * q == |Pad(message)| - 4 ==> WordAt(Pad(message), q) == 8 * |message| % TWO32
    ensures 4 * q == |Pad(message)| - 8 ==> WordAt(Pad(message), q) == 8 * |message| / TWO32
    ensures 4 * q < |Pad(message)| - 8 ==> WordAt(Pad(message), q) == WordAt(message + [0x80], q)
  {
    hide Pad, ByteAt, ZeroBytes, BigEndianWord;
    var p, n := Pad(message), |Pad(message)|;
    PaddingTail(message);
    if 4 * q == n - 4 {
      BigEndianRoundTrip(8 * |message| % TWO32, p, q);
    } else if 4 * q == n - 8 {
      BigEndianRoundTrip(8 * |message| / TWO32, p, q);
    } else if 4 * q < n - 8 {
      PaddingHead(message, 4 * q);
      PaddingHead(message, 4 * q + 1);
      PaddingHead(message, 4 * q + 2);
      PaddingHead(message, 4 * q + 3);
    }
  }

  lemma BigEndianRoundTrip(x: Word, bytes: seq<Byte>, q: nat)
    requires 4 * q + 4 <= |bytes| && bytes[4 * q..4 * q + 4] == BigEndianWord(x)
    ensures WordAt(bytes, q) == x
  {
    var b := bytes[4 * q..4 * q + 4];
    assert bytes[4 * q] == b[0] && bytes[4 * q + 1] == b[1] && bytes[4 * q + 2] == b[2] && bytes[4 * q + 3] == b[3];
    BytesMakeWord(x);
  }

  lemma BytesMakeWord(x: nat)
    ensures x / 0x100_0000 * 0x100_0000 + x / 0x1_0000 % 0x100 * 0x1_0000 + x / 0x100 % 0x100 * 0x100 + x % 0x100 == x
  {
    var y, z := x / 0x100, x / 0x1_0000;
    assert y / 0x100 == z && z / 0x100 == x / 0x100_0000;
  }

  // ---- When packing is padding ----

  ghost predicate KeysUpTo(words: JsArray, last: int) {
    forall k | k in words.cells :: k <= last
  }

  lemma ToInt32IsNotLarger(x: nat)
    ensures ToInt32(x) <= x
    ensures 0x8000_0000 <= x ==> ToInt32(x) <= x - TWO32
  {
  }

  lemma SarIsNotLarger(x: nat)
    ensures Sar(x, 2) <= x / 4 && Sar(x, 5) <= x / 32
    ensures 0x8000_0000 <= x ==> Sar(x, 9) <= x / 512 - 0x80_0000
    ensures -0x40_0000 <= Sar(x, 9) < 0x40_0000
  {
    ToInt32IsNotLarger(x);
    HalveValues(ToInt32(x));
  }

  lemma {:induction false} PackedKeys(message: seq<Byte>, n: nat)
    requires n <= |message|
    ensures KeysUpTo(PackBytes(message, n), |message| / 4)
    decreases n
  {
    if n > 0 {
      PackedKeys(message, n - 1);
      SarIsNotLarger(n - 1);
      hide Sar, BitOr, Shl;
      assert (n - 1) / 4 <= |message| / 4;
    }
  }

  /** From LIMIT on, the shift wraps and the length lands below its place. */
  lemma LengthIndexWraps(length: nat)
    requires length >= LIMIT
    ensures LengthIndex(8 * length) < (length + 8) / 64 * 16
  {
    var x := 8 * length + 64;
    SarIsNotLarger(x);
    var s := Sar(x, 9);
    ShlSmall(s);
    hide Sar, Shl;
    assert x / 512 == (length + 8) / 64;
  }

  lemma ShlSmall(x: int)
    requires -0x40_0000 <= x < 0x40_0000
    ensures Shl(x, 4) == 16 * x
  {
    if x >= 0 {
      ShlBySixteen(x);
    } else {
      DoubleValues(x + TWO32);
      hide Double;
      assert ToUint32(x) == x + TWO32;
      assert 16 * (x + TWO32) == 15 * TWO32 + (16 * x + TWO32);
      assert ShiftLeft(4, x + TWO32) == 16 * x + TWO32;
    }
  }

  /** Past the limit, the two cells where the length belongs are holes. */
  lemma LengthCellsStayEmpty(message: seq<Byte>, q: nat)
    requires |message| >= LIMIT && q >= (|message| + 8) / 64 * 16 + 14
    ensures q !in PackedWords(message).cells
  {
    PackedKeys(message, |message|);
    LengthIndexWraps(|message|);
    SarIsNotLarger(8 * |message|);
    hide Sar, PackBytes, LengthIndex, BitOr, Shl;
    assert 8 * |message| / 32 == |message| / 4;
    assert |message| / 4 < q;
  }

  lemma ParsedWord(padded: seq<Byte>, n: nat, j: nat)
    requires |padded| % 64 == 0 && n < |padded| / 64 && j < 16
    ensures Parse(padded)[n][j] == WordAt(padded, 16 * n + j)
  {
    hide WordAt;
    assert Parse(padded)[n] == BlockAt(padded, n);
  }

  lemma JsWord(words: JsArray, n: nat, j: nat)
    requires n < |JsBlocks(words)| && j < 16
    ensures JsBlocks(words)[n][j] == ToUint32(words.Get(16 * n + j))
  {
    hide ToUint32;
    assert JsBlocks(words)[n] == JsBlock(words, n);
  }

  /** A short message is packed into exactly the blocks of its padding. */
  lemma ShortMessagesPackRight(message: seq<Byte>)
    requires |message| < LIMIT
    ensures JsBlocks(PackedWords(message)) == Parse(Pad(message))
  {
    hide Pad, WordAt, ToUint32, PackedWords, Parse, JsBlocks, ZeroBytes;
    var js, fips := JsBlocks(PackedWords(message)), Parse(Pad(message));
    PackedWordIsPaddedWord(message, 0);
    forall n: nat | n < |fips|
      ensures js[n] == fips[n]
    {
      forall j: nat | j < 16
        ensures js[n][j] == fips[n][j]
      {
        PackedWordIsPaddedWord(message, 16 * n + j);
        ParsedWord(Pad(message), n, j);
        JsWord(PackedWords(message), n, j);
      }
    }
  }

  /** A longer one is not: its length is missing from the last block. */
  lemma LongMessagesPackWrong(message: seq<Byte>)
    requires LIMIT <= |message| < MAX_BYTES
    ensures JsBlocks(PackedWords(message)) != Parse(Pad(message))
  {
    hide Pad, WordAt, PackedWords, Parse, JsBlocks, ZeroBytes;
    var js, fips := JsBlocks(PackedWords(message)), Parse(Pad(message));
    if js == fips {
      PaddedLength(|message|);
      var n := (|message| + 8) / 64;
      forall j | j == 14 || j == 15
        ensures js[n][j] == 0 && fips[n][j] == WordAt(Pad(message), 16 * n + j)
      {
        LengthCellsStayEmpty(message, 16 * n + j);
        JsWord(PackedWords(message), n, j);
        ParsedWord(Pad(message), n, j);
      }
      assert js[n][14] == 0 && js[n][15] == 0;
      PaddingAt(message, 16 * n + 14);
      PaddingAt(message, 16 * n + 15);
      assert false;
    }
  }

  /** The packing loop and the two writes after it lay out the padding of section 5.1.1 exactly below the limit. */
  lemma PackingIsPadding(message: seq<Byte>)
    requires |message| < MAX_BYTES
    ensures JsBlocks(PackedWords(message)) == Parse(Pad(message)) <==> |message| < LIMIT
  {
    hide *;
    if |message| < LIMIT {
      ShortMessagesPackRight(message);
    } else {
      LongMessagesPackWrong(message);
    }
  }

  // ---- The compression loop ----

  function Unsigned(a: int, b: int, c: int, d: int, e: int, f: int, g: int, h: int): Hash {
    Hash(ToUint32(a), ToUint32(b), ToUint32(c), ToUint32(d), ToUint32(e), ToUint32(f), ToUint32(g), ToUint32(h))
  }

  function UnsignedSum(values: seq<int>): int {
    if values == [] then 0 else UnsignedSum(values[..|values| - 1]) + ToUint32(values[|values| - 1])
  }

  lemma SumOfTwo(a: int, b: int)
    ensures UnsignedSum([a, b]) == ToUint32(a) + ToUint32(b)
  {
    hide ToUint32;
    assert [a][..0] == [] && [a, b][..1] == [a];
    assert UnsignedSum([a]) == ToUint32(a);
  }

  lemma AppendToSum(values: seq<int>, x: int)
    ensures UnsignedSum(values + [x]) == UnsignedSum(values) + ToUint32(x)
  {
    assert (values + [x])[..|values|] == values;
  }

  lemma SumOfFour(a: int, b: int, c: int, d: int)
    ensures UnsignedSum([a, b, c, d]) == ToUint32(a) + ToUint32(b) + ToUint32(c) + ToUint32(d)
  {
    hide *;
    SumOfTwo(a, b);
    AppendToSum([a, b], c);
    AppendToSum([a, b, c], d);
    assert [a, b] + [c] == [a, b, c] && [a, b, c] + [d] == [a, b, c, d];
  }

  lemma SumOfFive(a: int, b: int, c: int, d: int, e: int)
    ensures UnsignedSum([a, b, c, d, e]) ==
            ToUint32(a) + ToUint32(b) + ToUint32(c) + ToUint32(d) + ToUint32(e)
  {
    hide *;
    SumOfFour(a, b, c, d);
    AppendToSum([a, b, c, d], e);
    assert [a, b, c, d] + [e] == [a, b, c, d, e];
  }

  lemma OrZeroKeeps(x: int)
    ensures ToUint32(BitOr(x, 0)) == ToUint32(x)
  {
  }

  lemma SumsAgree(result: int, sum: int, value: int)
    requires ToUint32(result) == ToUint32(sum)
    ensures ToUint32(result + value) == ToUint32(sum + ToUint32(value))
  {
    var a, b := result / TWO32 - sum / TWO32, value / TWO32;
    assert result + value == sum + ToUint32(value) + (a + b) * TWO32;
  }

  lemma WrappedSum(result: int, sum: int, value: int)
    requires ToUint32(result) == ToUint32(sum)
    ensures ToUint32(BitOr(result + value, 0)) == ToUint32(sum + ToUint32(value))
  {
    hide *;
    OrZeroKeeps(result + value);
    SumsAgree(result, sum, value);
  }

  lemma WordIsItself(k: Word)
    ensures ToUint32(k) == k
  {
  }

  /** add32: a running sum that `| 0` wraps after every addition. */
  method Add32(values: seq<int>) returns (result: int)
    ensures ToUint32(result) == ToUint32(UnsignedSum(values))
  {
    hide BitOr, ToUint32;
    result := 0;
    WordIsItself(0);
    for i := 0 to |values|
      invariant ToUint32(result) == ToUint32(UnsignedSum(values[..i]))
    {
      assert values[..i + 1][..i] == values[..i];
      WrappedSum(result, UnsignedSum(values[..i]), values[i]);
      result := BitOr(result + values[i], 0);
    }
    assert values[..|values|] == values;
  }

  function JsRightRotate(value: int, bits: nat): (r: int)
    requires 0 < bits < 32
    ensures ToUint32(r) == RotateRight(bits, ToUint32(value))
  {
    BitOr(Shr(value, bits), Shl(value, 32 - bits))
  }

  /** One output word, most significant byte first. */
  lemma OutputBytes(word: int)
    ensures [BitAnd(Shr(word, 24), 0xff), BitAnd(Shr(word, 16), 0xff), BitAnd(Shr(word, 8), 0xff), BitAnd(word, 0xff)]
            == BigEndianWord(ToUint32(word))
  {
    hide *;
    MaskedByte(Shr(word, 24));
    MaskedByte(Shr(word, 16));
    MaskedByte(Shr(word, 8));
    MaskedByte(word);
    WordBytes(ToUint32(word));
  }

  lemma WordBytes(u: Word)
    ensures [ShiftRight(24, u) % 0x100, ShiftRight(16, u) % 0x100, ShiftRight(8, u) % 0x100, u % 0x100]
            == BigEndianWord(u)
  {
    HalveValues(u);
    hide Halve;
  }

  lemma MaskedByte(x: int)
    ensures BitAnd(x, 0xff) == ToUint32(x) % 0x100
  {
    LowByte(ToUint32(x));
    hide And;
  }

  function BigSigma0Js(a: int): int {
    BitXor(BitXor(JsRightRotate(a, 2), JsRightRotate(a, 13)), JsRightRotate(a, 22))
  }

  function BigSigma1Js(e: int): int {
    BitXor(BitXor(JsRightRotate(e, 6), JsRightRotate(e, 11)), JsRightRotate(e, 25))
  }

  function SmallSigma0Js(x: int): int {
    BitXor(BitXor(JsRightRotate(x, 7), JsRightRotate(x, 18)), Shr(x, 3))
  }

  function SmallSigma1Js(x: int): int {
    BitXor(BitXor(JsRightRotate(x, 17), JsRightRotate(x, 19)), Shr(x, 10))
  }

  function ChJs(e: int, f: int, g: int): int {
    BitXor(BitAnd(e, f), BitAnd(BitNot(e), g))
  }

  function MajJs(a: int, b: int, c: int): int {
    BitXor(BitXor(BitAnd(a, b), BitAnd(a, c)), BitAnd(b, c))
  }

  lemma InitialState()
    ensures Unsigned(0x6a09e667, 0xbb67ae85, 0x3c6ef372, 0xa54ff53a,
                     0x510e527f, 0x9b05688c, 0x1f83d9ab, 0x5be0cd19) == HashBlocks([])
  {
  }

  lemma StartRounds(start: Hash, block: Block)
    ensures Rounds(start, block, 0) == start
  {
  }

  lemma LoadedWord(words: JsArray, i: nat, j: nat, x: int)
    requires i % 16 == 0 && i / 16 < |JsBlocks(words)| && j < 16 && x == words.Get(i + j)
    ensures ToUint32(x) == Schedule(JsBlocks(words)[i / 16], j)
  {
    hide ToUint32, JsBlocks;
    JsWord(words, i / 16, j);
  }

  lemma ExtendedWord(block: Block, t: nat, x16: int, x15: int, x7: int, x2: int, x: int)
    requires t >= 16
    requires ToUint32(x16) == Schedule(block, t - 16) && ToUint32(x15) == Schedule(block, t - 15)
    requires ToUint32(x7) == Schedule(block, t - 7) && ToUint32(x2) == Schedule(block, t - 2)
    requires ToUint32(x) == ToUint32(UnsignedSum([x16, SmallSigma0Js(x15), x7, SmallSigma1Js(x2)]))
    ensures ToUint32(x) == Schedule(block, t)
  {
    assert Schedule(block, t) == Mod32(SmallSigma1(Schedule(block, t - 2)) + Schedule(block, t - 7)
      + SmallSigma0(Schedule(block, t - 15)) + Schedule(block, t - 16));
    hide ToUint32, Mod32, BitXor, XorW, JsRightRotate, RotateRight, Shr, ShiftRight, Schedule, UnsignedSum;
    SumOfFour(x16, SmallSigma0Js(x15), x7, SmallSigma1Js(x2));
  }

  lemma JsFunctions(a: int, b: int, c: int, e: int, f: int, g: int)
    ensures ToUint32(BigSigma0Js(a)) == BigSigma0(ToUint32(a)) && ToUint32(BigSigma1Js(e)) == BigSigma1(ToUint32(e))
    ensures ToUint32(ChJs(e, f, g)) == Ch(ToUint32(e), ToUint32(f), ToUint32(g))
    ensures ToUint32(MajJs(a, b, c)) == Maj(ToUint32(a), ToUint32(b), ToUint32(c))
  {
    hide ToUint32, BitXor, XorW, BitAnd, AndW, BitNot, NotW, JsRightRotate, RotateRight;
  }

  lemma FirstTemporary(e: int, f: int, g: int, h: int, k: Word, w: int, temp1: int)
    requires ToUint32(temp1) == ToUint32(UnsignedSum([h, BigSigma1Js(e), ChJs(e, f, g), k, w]))
    ensures ToUint32(temp1) ==
            Mod32(ToUint32(h) + BigSigma1(ToUint32(e)) + Ch(ToUint32(e), ToUint32(f), ToUint32(g)) + k + ToUint32(w))
  {
    hide *;
    WordIsItself(k);
    JsFunctions(0, 0, 0, e, f, g);
    SumOfFive(h, BigSigma1Js(e), ChJs(e, f, g), k, w);
    assert UnsignedSum([h, BigSigma1Js(e), ChJs(e, f, g), k, w]) ==
           ToUint32(h) + BigSigma1(ToUint32(e)) + Ch(ToUint32(e), ToUint32(f), ToUint32(g)) + k + ToUint32(w);
  }

  lemma SecondTemporary(a: int, b: int, c: int, temp2: int)
    requires ToUint32(temp2) == ToUint32(UnsignedSum([BigSigma0Js(a), MajJs(a, b, c)]))
    ensures ToUint32(temp2) == Mod32(BigSigma0(ToUint32(a)) + Maj(ToUint32(a), ToUint32(b), ToUint32(c)))
  {
    hide *;
    JsFunctions(a, b, c, 0, 0, 0);
    SumOfTwo(BigSigma0Js(a), MajJs(a, b, c));
  }

  /** One turn of the inner loop is one round of section 6.2.2. */
  lemma OneRound(a: int, b: int, c: int, d: int, e: int, f: int, g: int, h: int, k: Word, w: int, temp1: int,
                 temp2: int, newE: int, newA: int)
    requires ToUint32(temp1) == ToUint32(UnsignedSum([h, BigSigma1Js(e), ChJs(e, f, g), k, w]))
    requires ToUint32(temp2) == ToUint32(UnsignedSum([BigSigma0Js(a), MajJs(a, b, c)]))
    requires ToUint32(newE) == ToUint32(UnsignedSum([d, temp1]))
    requires ToUint32(newA) == ToUint32(UnsignedSum([temp1, temp2]))
    ensures Unsigned(newA, a, b, c, newE, e, f, g) == Round(Unsigned(a, b, c, d, e, f, g, h), k, ToUint32(w))
  {
    hide ToUint32, Mod32, UnsignedSum, BigSigma0Js, BigSigma1Js, ChJs, MajJs, BigSigma0, BigSigma1, Ch, Maj;
    FirstTemporary(e, f, g, h, k, w, temp1);
    SecondTemporary(a, b, c, temp2);
    SumOfTwo(d, temp1);
    SumOfTwo(temp1, temp2);
  }

  lemma NextRounds(start: Hash, block: Block, t: nat)
    requires t < 64
    ensures Rounds(start, block, t + 1) == Round(Rounds(start, block, t), K[t], Schedule(block, t))
  {
  }

  lemma NextBlock(blocks: seq<Block>, n: nat)
    requires n < |blocks|
    ensures HashBlocks(blocks[..n + 1]) ==
            AddHash(Rounds(HashBlocks(blocks[..n]), blocks[n], 64), HashBlocks(blocks[..n]))
  {
    assert blocks[..n + 1][..n] == blocks[..n];
    hide AddHash, Rounds;
  }

  lemma AddedPair(x: int, y: int, sum: int)
    requires ToUint32(sum) == ToUint32(UnsignedSum([x, y]))
    ensures ToUint32(sum) == Mod32(ToUint32(y) + ToUint32(x))
  {
    hide ToUint32, Mod32, UnsignedSum;
    SumOfTwo(x, y);
  }

  /** The packing loop of pow.ts and the two writes after it. */
  method Pack(message: seq<Byte>) returns (words: JsArray)
    ensures words == PackedWords(message)
  {
    hide Sar, Shl, BitOr, OrInto;
    words := JsArray(map[], 0);
    var bitLength := 8 * |message|;
    for i := 0 to |message|
      invariant words == PackBytes(message, i)
    {
      words := OrInto(words, Sar(i, 2), Shl(message[i], 24 - i % 4 * 8));
    }
    BitsOfBytes(|message|);
    words := OrInto(words, Sar(bitLength, 5), Shl(0x80, 24 - bitLength % 32));
    words := words.Put(Shl(Sar(bitLength + 64, 9), 4) + 15, bitLength);
  }

  /** Entry j of the message schedule, read from the words or extended in place. */
  method FillSchedule(words: JsArray, i: nat, j: nat, w: array<int>)
    requires i % 16 == 0 && i / 16 < |JsBlocks(words)| && j < w.Length == 64
    requires forall t | 0 <= t < j :: ToUint32(w[t]) == Schedule(JsBlocks(words)[i / 16], t)
    modifies w
    ensures forall t | 0 <= t <= j :: ToUint32(w[t]) == Schedule(JsBlocks(words)[i / 16], t)
  {
    hide *;
    var x;
    if j < 16 {
      x := words.Get(i + j);
      LoadedWord(words, i, j, x);
    } else {
      var s0, s1 := SmallSigma0Js(w[j - 15]), SmallSigma1Js(w[j - 2]);
      x := Add32([w[j - 16], s0, w[j - 7], s1]);
      ExtendedWord(JsBlocks(words)[i / 16], j, w[j - 16], w[j - 15], w[j - 7], w[j - 2], x);
    }
    w[j] := x;
  }

  /** One round; the eight results are the new a to h. */
  method DoRound(a: int, b: int, c: int, d: int, e: int, f: int, g: int, h: int, k: Word, w: int)
    returns (a': int, b': int, c': int, d': int, e': int, f': int, g': int, h': int)
    ensures Unsigned(a', b', c', d', e', f', g', h') == Round(Unsigned(a, b, c, d, e, f, g, h), k, ToUint32(w))
  {
    hide *;
    var temp1 := Add32([h, BigSigma1Js(e), ChJs(e, f, g), k, w]);
    var temp2 := Add32([BigSigma0Js(a), MajJs(a, b, c)]);
    h' := g;
    g' := f;
    f' := e;
    e' := Add32([d, temp1]);
    d' := c;
    c' := b;
    b' := a;
    a' := Add32([temp1, temp2]);
    OneRound(a, b, c, d, e, f, g, h, k, w, temp1, temp2, e', a');
  }

  /** Sixty-four rounds over a message schedule filled on the way. */
  method Compress(words: JsArray, i: nat, h0: int, h1: int, h2: int, h3: int, h4: int, h5: int, h6: int, h7: int,
                  w: array<int>)
    returns (a: int, b: int, c: int, d: int, e: int, f: int, g: int, h: int)
    requires i % 16 == 0 && i / 16 < |JsBlocks(words)| && w.Length == 64
    modifies w
    ensures Unsigned(a, b, c, d, e, f, g, h) ==
            Rounds(Unsigned(h0, h1, h2, h3, h4, h5, h6, h7), JsBlocks(words)[i / 16], 64)
  {
    assert |K| == 64;
    hide *;
    ghost var start, block := Unsigned(h0, h1, h2, h3, h4, h5, h6, h7), JsBlocks(words)[i / 16];
    a, b, c, d := h0, h1, h2, h3;
    e, f, g, h := h4, h5, h6, h7;
    StartRounds(start, block);
    for j := 0 to 64
      invariant forall t | 0 <= t < j :: ToUint32(w[t]) == Schedule(block, t)
      invariant Unsigned(a, b, c, d, e, f, g, h) == Rounds(start, block, j)
    {
      FillSchedule(words, i, j, w);
      a, b, c, d, e, f, g, h := DoRound(a, b, c, d, e, f, g, h, K[j], w[j]);
      NextRounds(start, block, j);
    }
  }

  /** The four output bytes of one word. */
  method WriteWord(output: array<int>, at: nat, word: int)
    requires at + 4 <= output.Length
    modifies output
    ensures output[..at + 4] == old(output[..at]) + BigEndianWord(ToUint32(word))
  {
    hide *;
    OutputBytes(word);
    output[at] := BitAnd(Shr(word, 24), 0xff);
    output[at + 1] := BitAnd(Shr(word, 16), 0xff);
    output[at + 2] := BitAnd(Shr(word, 8), 0xff);
    output[at + 3] := BitAnd(word, 0xff);
    assert output[..at] == old(output[..at]);
    assert output[..at + 4] == output[..at] + [output[at], output[at + 1], output[at + 2], output[at + 3]];
  }

  /** The output bytes of all words. */
  method WriteWords(words: seq<int>) returns (output: array<int>)
    ensures fresh(output)
    ensures output[..] == Concatenated(seq(|words|, i requires 0 <= i < |words| => ToUint32(words[i])))
  {
    ghost var unsigned: seq<Word> := seq(|words|, i requires 0 <= i < |words| => ToUint32(words[i]));
    hide *;
    output := new int[4 * |words|];
    for index := 0 to |words|
      invariant output[..4 * index] == Concatenated(unsigned[..index])
    {
      WriteWord(output, 4 * index, words[index]);
      NextConcatenated(unsigned, index);
    }
    assert unsigned[..|words|] == unsigned;
  }

  lemma NextConcatenated(words: seq<Word>, n: nat)
    requires n < |words|
    ensures Concatenated(words[..n + 1]) == Concatenated(words[..n]) + BigEndianWord(words[n])
  {
    assert words[..n + 1][..n] == words[..n];
  }

  /**
    The fallback digest. Below the limit it is SHA-256; above it, it is the
    compression of blocks that are not the padded message (PackingIsPadding).
   */
  method Sha256Fallback(message: seq<Byte>) returns (output: array<int>)
    ensures output[..] == Digest(HashBlocks(JsBlocks(PackedWords(message))))
    ensures |message| < LIMIT ==> output[..] == Sha256(message)
  {
    assert LIMIT < MAX_BYTES;
    hide *;
    var words := Pack(message);
    ghost var blocks := JsBlocks(words);
    var h0, h1, h2, h3 := 0x6a09e667, 0xbb67ae85, 0x3c6ef372, 0xa54ff53a;
    var h4, h5, h6, h7 := 0x510e527f, 0x9b05688c, 0x1f83d9ab, 0x5be0cd19;
    InitialState();
    var w := new int[64];
    var i := 0;
    ghost var n: nat := 0;
    assert blocks[..0] == [];
    while i < words.length
      invariant i == 16 * n && n <= |blocks|
      invariant Unsigned(h0, h1, h2, h3, h4, h5, h6, h7) == HashBlocks(blocks[..n])
    {
      assert i / 16 == n && i % 16 == 0 && n < |blocks|;
      var a, b, c, d, e, f, g, h := Compress(words, i, h0, h1, h2, h3, h4, h5, h6, h7, w);
      NextBlock(blocks, n);
      h0, h1, h2, h3, h4, h5, h6, h7 := AddState(h0, h1, h2, h3, h4, h5, h6, h7, a, b, c, d, e, f, g, h);
      i, n := i + 16, n + 1;
    }
    assert n == |blocks|;
    assert blocks[..n] == blocks;
    output := WriteWords([h0, h1, h2, h3, h4, h5, h6, h7]);
    DigestOfWords(h0, h1, h2, h3, h4, h5, h6, h7);
    if |message| < LIMIT {
      ShortMessagesPackRight(message);
      Sha256Unfolds(message);
    }
  }

  /** Adding the rounds' result to the hash value, component by component. */
  method AddState(h0: int, h1: int, h2: int, h3: int, h4: int, h5: int, h6: int, h7: int, a: int, b: int, c: int,
                  d: int, e: int, f: int, g: int, h: int)
    returns (r0: int, r1: int, r2: int, r3: int, r4: int, r5: int, r6: int, r7: int)
    ensures Unsigned(r0, r1, r2, r3, r4, r5, r6, r7) ==
            AddHash(Unsigned(a, b, c, d, e, f, g, h), Unsigned(h0, h1, h2, h3, h4, h5, h6, h7))
  {
    hide ToUint32, Mod32, UnsignedSum;
    r0 := Add32([h0, a]);
    r1 := Add32([h1, b]);
    r2 := Add32([h2, c]);
    r3 := Add32([h3, d]);
    r4 := Add32([h4, e]);
    r5 := Add32([h5, f]);
    r6 := Add32([h6, g]);
    r7 := Add32([h7, h]);
    AddedPair(h0, a, r0);
    AddedPair(h1, b, r1);
    AddedPair(h2, c, r2);
    AddedPair(h3, d, r3);
    AddedPair(h4, e, r4);
    AddedPair(h5, f, r5);
    AddedPair(h6, g, r6);
    AddedPair(h7, h, r7);
  }

  lemma DigestOfWords(h0: int, h1: int, h2: int, h3: int, h4: int, h5: int, h6: int, h7: int)
    ensures var words := [h0, h1, h2, h3, h4, h5, h6, h7];
            Concatenated(seq(|words|, i requires 0 <= i < |words| => ToUint32(words[i])))
            == Digest(Unsigned(h0, h1, h2, h3, h4, h5, h6, h7))
  {
    hide ToUint32, Concatenated;
    var words := [h0, h1, h2, h3, h4, h5, h6, h7];
    var h := Unsigned(h0, h1, h2, h3, h4, h5, h6, h7);
    assert seq(|words|, i requires 0 <= i < |words| => ToUint32(words[i])) == [h.a, h.b, h.c, h.d, h.e, h.f, h.g, h.h];
  }

  lemma Sha256Unfolds(message: seq<Byte>)
    requires |message| < MAX_BYTES
    ensures Sha256(message) == Digest(HashBlocks(Parse(Pad(message))))
  {
  }
}
