/**
  SHA-256 as FIPS 180-4 defines it, for messages that are byte strings.

  A word is a number below 2^32 (section 2.2); addition is modulo 2^32
  (section 3.2). The definitions are those of the standard.
 */
module Fips180 {
  import opened Bits

  const TWO32 := 0x1_0000_0000
  /** Section 5.1.1 wants a bit length below 2^64. */
  const MAX_BYTES := 0x2000_0000_0000_0000
  type Word = x: nat | x < 0x1_0000_0000

  lemma WordsHaveThirtyTwoDigits()
    ensures Pow2(32) == TWO32
  {
    DoubleValues(1);
  }

  // Section 3.2: operations on words.

  function AndW(x: Word, y: Word): Word {
    WordsHaveThirtyTwoDigits(); OperatorsStayBelow(x, y, 32);
    And(x, y)
  }

  function OrW(x: Word, y: Word): Word {
    WordsHaveThirtyTwoDigits(); OperatorsStayBelow(x, y, 32);
    Or(x, y)
  }

  function XorW(x: Word, y: Word): Word {
    WordsHaveThirtyTwoDigits(); OperatorsStayBelow(x, y, 32);
    Xor(x, y)
  }

  function NotW(x: Word): Word {
    TWO32 - 1 - x
  }

  /** Addition is reduced modulo 2^32. */
  function Mod32(x: int): Word {
    x % TWO32
  }

  function ShiftRight(n: nat, x: Word): Word {
    Halve(x, n)
  }

  function ShiftLeft(n: nat, x: Word): Word {
    Double(x, n) % TWO32
  }

  function RotateRight(n: nat, x: Word): Word
    requires n < 32
  {
    OrW(ShiftRight(n, x), ShiftLeft(32 - n, x))
  }

  // Section 4.1.2: the six functions.

  function Ch(x: Word, y: Word, z: Word): Word {
    XorW(AndW(x, y), AndW(NotW(x), z))
  }

  function Maj(x: Word, y: Word, z: Word): Word {
    XorW(XorW(AndW(x, y), AndW(x, z)), AndW(y, z))
  }

  function BigSigma0(x: Word): Word {
    XorW(XorW(RotateRight(2, x), RotateRight(13, x)), RotateRight(22, x))
  }

  function BigSigma1(x: Word): Word {
    XorW(XorW(RotateRight(6, x), RotateRight(11, x)), RotateRight(25, x))
  }

  function SmallSigma0(x: Word): Word {
    XorW(XorW(RotateRight(7, x), RotateRight(18, x)), ShiftRight(3, x))
  }

  function SmallSigma1(x: Word): Word {
    XorW(XorW(RotateRight(17, x), RotateRight(19, x)), ShiftRight(10, x))
  }

  // Section 4.2.2: the constants.
  const K_0: seq<Word> := [
    0x428a2f98, 0x71374491, 0xb5c0fbcf, 0xe9b5dba5, 0x3956c25b, 0x59f111f1, 0x923f82a4, 0xab1c5ed5
  ]
  const K_1: seq<Word> := [
    0xd807aa98, 0x12835b01, 0x243185be, 0x550c7dc3, 0x72be5d74, 0x80deb1fe, 0x9bdc06a7, 0xc19bf174
  ]
  const K_2: seq<Word> := [
    0xe49b69c1, 0xefbe4786, 0x0fc19dc6, 0x240ca1cc, 0x2de92c6f, 0x4a7484aa, 0x5cb0a9dc, 0x76f988da
  ]
  const K_3: seq<Word> := [
    0x983e5152, 0xa831c66d, 0xb00327c8, 0xbf597fc7, 0xc6e00bf3, 0xd5a79147, 0x06ca6351, 0x14292967
  ]
  const K_4: seq<Word> := [
    0x27b70a85, 0x2e1b2138, 0x4d2c6dfc, 0x53380d13, 0x650a7354, 0x766a0abb, 0x81c2c92e, 0x92722c85
  ]
  const K_5: seq<Word> := [
    0xa2bfe8a1, 0xa81a664b, 0xc24b8b70, 0xc76c51a3, 0xd192e819, 0xd6990624, 0xf40e3585, 0x106aa070
  ]
  const K_6: seq<Word> := [
    0x19a4c116, 0x1e376c08, 0x2748774c, 0x34b0bcb5, 0x391c0cb3, 0x4ed8aa4a, 0x5b9cca4f, 0x682e6ff3
  ]
  const K_7: seq<Word> := [
    0x748f82ee, 0x78a5636f, 0x84c87814, 0x8cc70208, 0x90befffa, 0xa4506ceb, 0xbef9a3f7, 0xc67178f2
  ]

  const K: seq<Word> := K_0 + K_1 + K_2 + K_3 + K_4 + K_5 + K_6 + K_7

  // Section 5.1.1: pad to a multiple of 64 bytes.

  function Zeros(n: nat): (r: seq<Byte>)
    ensures |r| == n && forall i | 0 <= i < n :: r[i] == 0
  {
    seq(n, _ => 0)
  }

  /** The smallest number of zero bytes that leaves room for the length. */
  function ZeroBytes(length: nat): (z: nat)
    ensures z < 64 && (length + 1 + z) % 64 == 56 && (length + 1 + z + 8) % 64 == 0
  {
    (119 - length % 64) % 64
  }

  function BigEndianWord(x: Word): (r: seq<Byte>)
    ensures |r| == 4
  {
    [x / 0x100_0000, x / 0x1_0000 % 0x100, x / 0x100 % 0x100, x % 0x100]
  }

  /** A 64-bit number, high word first. */
  function LengthField(bits: nat): (r: seq<Byte>)
    requires bits < 0x1_0000_0000_0000_0000
    ensures |r| == 8
  {
    BigEndianWord(bits / TWO32) + BigEndianWord(bits % TWO32)
  }

  function Pad(message: seq<Byte>): (r: seq<Byte>)
    requires |message| < MAX_BYTES
    ensures |r| == |message| + 1 + ZeroBytes(|message|) + 8 && |r| % 64 == 0
  {
    var z := ZeroBytes(|message|);
    var head := message + [0x80] + Zeros(z);
    assert |head| == |message| + 1 + z;
    head + LengthField(8 * |message|)
  }

  // Section 5.2.1: parse into blocks of sixteen big-endian words.

  type Block = b: seq<Word> | |b| == 16 witness seq(16, _ => 0)

  function ByteAt(bytes: seq<Byte>, i: nat): Byte {
    if i < |bytes| then bytes[i] else 0
  }

  /** Word q of a byte string, reading zero bytes past its end. */
  function WordAt(bytes: seq<Byte>, q: nat): Word {
    ByteAt(bytes, 4 * q) * 0x100_0000 + ByteAt(bytes, 4 * q + 1) * 0x1_0000
    + ByteAt(bytes, 4 * q + 2) * 0x100 + ByteAt(bytes, 4 * q + 3)
  }

  function Sixteen(word: nat -> Word): (b: Block)
    ensures forall j | 0 <= j < 16 :: b[j] == word(j)
  {
    [word(0), word(1), word(2), word(3), word(4), word(5), word(6), word(7),
     word(8), word(9), word(10), word(11), word(12), word(13), word(14), word(15)]
  }

  function BlockAt(padded: seq<Byte>, n: nat): Block {
    Sixteen(j => WordAt(padded, 16 * n + j))
  }

  function Parse(padded: seq<Byte>): (r: seq<Block>)
    requires |padded| % 64 == 0
    ensures |r| == |padded| / 64
  {
    seq(|padded| / 64, n requires n >= 0 => BlockAt(padded, n))
  }

  // Sections 5.3.3 and 6.2.2: the computation.

  datatype Hash = Hash(a: Word, b: Word, c: Word, d: Word, e: Word, f: Word, g: Word, h: Word)

  const INITIAL: Hash := Hash(0x6a09e667, 0xbb67ae85, 0x3c6ef372, 0xa54ff53a,
                              0x510e527f, 0x9b05688c, 0x1f83d9ab, 0x5be0cd19)

  function Schedule(block: Block, t: nat): Word {
    if t < 16 then block[t]
    else Mod32(SmallSigma1(Schedule(block, t - 2)) + Schedule(block, t - 7)
               + SmallSigma0(Schedule(block, t - 15)) + Schedule(block, t - 16))
  }

  function Round(s: Hash, k: Word, w: Word): Hash {
    var t1 := Mod32(s.h + BigSigma1(s.e) + Ch(s.e, s.f, s.g) + k + w);
    var t2 := Mod32(BigSigma0(s.a) + Maj(s.a, s.b, s.c));
    Hash(Mod32(t1 + t2), s.a, s.b, s.c, Mod32(s.d + t1), s.e, s.f, s.g)
  }

  function Rounds(start: Hash, block: Block, t: nat): Hash
    requires t <= 64
  {
    if t == 0 then start
    else Round(Rounds(start, block, t - 1), K[t - 1], Schedule(block, t - 1))
  }

  function AddHash(x: Hash, y: Hash): Hash {
    Hash(Mod32(x.a + y.a), Mod32(x.b + y.b), Mod32(x.c + y.c), Mod32(x.d + y.d),
         Mod32(x.e + y.e), Mod32(x.f + y.f), Mod32(x.g + y.g), Mod32(x.h + y.h))
  }

  function HashBlocks(blocks: seq<Block>): Hash {
    if blocks == [] then INITIAL
    else
      var previous := HashBlocks(blocks[..|blocks| - 1]);
      AddHash(Rounds(previous, blocks[|blocks| - 1], 64), previous)
  }

  function Concatenated(words: seq<Word>): (r: seq<Byte>)
    ensures |r| == 4 * |words|
  {
    if words == [] then []
    else Concatenated(words[..|words| - 1]) + BigEndianWord(words[|words| - 1])
  }

  function Digest(h: Hash): (r: seq<Byte>)
    ensures |r| == 32
  {
    Concatenated([h.a, h.b, h.c, h.d, h.e, h.f, h.g, h.h])
  }

  function Sha256(message: seq<Byte>): (r: seq<Byte>)
    requires |message| < MAX_BYTES
    ensures |r| == 32
  {
    Digest(HashBlocks(Parse(Pad(message))))
  }
}
