/**
  The operations and functions of FIPS 180-4, sections 3.2 and 4.1.2, one binary
  digit at a time: "and" multiplies, "xor" adds, a rotation moves every digit
  around the word, Ch chooses, Maj votes, and each sigma adds up three digits.
 */
module Fips180Digits {
  import opened Bits
  import opened Fips180

  /** Digit i of a number, the last one first. */
  function Digit(x: nat, i: nat): (d: nat)
    ensures d < 2
  {
    if i == 0 then x % 2 else Digit(x / 2, i - 1)
  }

  lemma {:induction false} AndDigit(x: nat, y: nat, i: nat)
    ensures Digit(And(x, y), i) == if Digit(x, i) == 1 && Digit(y, i) == 1 then 1 else 0
    decreases i
  {
    if x == 0 || y == 0 {
      ZeroDigit(i);
    } else if i > 0 {
      AndDigit(x / 2, y / 2, i - 1);
    }
  }

  lemma {:induction false} XorDigit(x: nat, y: nat, i: nat)
    ensures Digit(Xor(x, y), i) == (Digit(x, i) + Digit(y, i)) % 2
    decreases i
  {
    if x == 0 || y == 0 {
      ZeroDigit(i);
    } else if i > 0 {
      XorDigit(x / 2, y / 2, i - 1);
    }
  }

  lemma {:induction false} OrDigit(x: nat, y: nat, i: nat)
    ensures Digit(Or(x, y), i) == if Digit(x, i) == 1 || Digit(y, i) == 1 then 1 else 0
    decreases i
  {
    if x == 0 || y == 0 {
      ZeroDigit(i);
    } else if i > 0 {
      OrDigit(x / 2, y / 2, i - 1);
    }
  }

  lemma {:induction false} ZeroDigit(i: nat)
    ensures Digit(0, i) == 0
  {
    if i > 0 {
      ZeroDigit(i - 1);
    }
  }

  lemma {:induction false} HighDigit(x: nat, n: nat, i: nat)
    requires x < Pow2(n) && i >= n
    ensures Digit(x, i) == 0
    decreases n
  {
    if n == 0 {
      ZeroDigit(i);
    } else {
      HighDigit(x / 2, n - 1, i - 1);
    }
  }

  lemma {:induction false} HalveDigit(x: nat, n: nat, i: nat)
    ensures Digit(Halve(x, n), i) == Digit(x, i + n)
    decreases n
  {
    if n > 0 {
      HalveDigit(x, n - 1, i + 1);
    }
  }

  /** A multiple of 2^m does not touch the digits below m and moves the others up. */
  lemma {:induction false} DoubleDigit(x: nat, low: nat, m: nat, i: nat)
    requires low < Pow2(m)
    ensures Digit(Double(x, m) + low, i) == if i < m then Digit(low, i) else Digit(x, i - m)
    decreases m
  {
    if m > 0 {
      assert (Double(x, m) + low) / 2 == Double(x, m - 1) + low / 2;
      if i > 0 {
        DoubleDigit(x, low / 2, m - 1, i - 1);
      }
    }
  }

  lemma {:induction false} ComplementDigit(x: nat, n: nat, i: nat)
    requires x < Pow2(n) && i < n
    ensures Digit(Pow2(n) - 1 - x, i) == 1 - Digit(x, i)
    decreases n
  {
    assert (Pow2(n) - 1 - x) / 2 == Pow2(n - 1) - 1 - x / 2;
    if i > 0 {
      ComplementDigit(x / 2, n - 1, i - 1);
    }
  }

  lemma ShiftLeftDigit(n: nat, x: Word, i: nat)
    requires i < 32
    ensures Digit(ShiftLeft(n, x), i) == if i < n then 0 else Digit(x, i - n)
  {
    WordsHaveThirtyTwoDigits();
    var y := Double(x, n);
    DoubleValues(y / TWO32);
    assert y == Double(y / TWO32, 32) + y % TWO32;
    hide Digit, Double;
    DoubleDigit(y / TWO32, y % TWO32, 32, i);
    DoubleDigit(x, 0, n, i);
    ZeroDigit(i);
  }

  /** Rotating right by n moves digit i + n, counted around the word, to place i. */
  lemma RotateDigit(n: nat, x: Word, i: nat)
    requires 0 < n < 32 && i < 32
    ensures Digit(RotateRight(n, x), i) == Digit(x, (i + n) % 32)
  {
    WordsHaveThirtyTwoDigits();
    hide Digit, Double, Halve, Or, ShiftLeft;
    OrDigit(ShiftRight(n, x), ShiftLeft(32 - n, x), i);
    HalveDigit(x, n, i);
    ShiftLeftDigit(32 - n, x, i);
    if i + n >= 32 {
      HighDigit(x, 32, i + n);
    }
  }

  lemma ShiftRightDigit(n: nat, x: Word, i: nat)
    ensures Digit(ShiftRight(n, x), i) == if i + n < 32 then Digit(x, i + n) else 0
  {
    WordsHaveThirtyTwoDigits();
    hide Digit, Double, Halve;
    HalveDigit(x, n, i);
    if i + n >= 32 {
      HighDigit(x, 32, i + n);
    }
  }

  /** Ch takes the digit of y where x has a one, else that of z; Maj takes what two of three agree on. */
  lemma ChoiceAndMajority(x: Word, y: Word, z: Word, i: nat)
    requires i < 32
    ensures Digit(Ch(x, y, z), i) == if Digit(x, i) == 1 then Digit(y, i) else Digit(z, i)
    ensures Digit(Maj(x, y, z), i) == if Digit(x, i) + Digit(y, i) + Digit(z, i) >= 2 then 1 else 0
  {
    WordsHaveThirtyTwoDigits();
    hide Digit, And, Xor, Double;
    ComplementDigit(x, 32, i);
    AndDigit(x, y, i);
    AndDigit(NotW(x), z, i);
    XorDigit(AndW(x, y), AndW(NotW(x), z), i);
    AndDigit(x, z, i);
    AndDigit(y, z, i);
    XorDigit(AndW(x, y), AndW(x, z), i);
    XorDigit(XorW(AndW(x, y), AndW(x, z)), AndW(y, z), i);
  }

  lemma XorThreeDigits(x: Word, y: Word, z: Word, i: nat)
    ensures Digit(XorW(XorW(x, y), z), i) == (Digit(x, i) + Digit(y, i) + Digit(z, i)) % 2
  {
    hide Digit, Xor;
    XorDigit(x, y, i);
    XorDigit(XorW(x, y), z, i);
  }

  /** The four sigma functions of section 4.1.2, with their rotations and shifts, digit by digit. */
  lemma SigmaDigits(x: Word, i: nat)
    requires i < 32
    ensures Digit(BigSigma0(x), i) == (Digit(x, (i + 2) % 32) + Digit(x, (i + 13) % 32) + Digit(x, (i + 22) % 32)) % 2
    ensures Digit(BigSigma1(x), i) == (Digit(x, (i + 6) % 32) + Digit(x, (i + 11) % 32) + Digit(x, (i + 25) % 32)) % 2
    ensures Digit(SmallSigma0(x), i) ==
              (Digit(x, (i + 7) % 32) + Digit(x, (i + 18) % 32) + (if i < 29 then Digit(x, i + 3) else 0)) % 2
    ensures Digit(SmallSigma1(x), i) ==
              (Digit(x, (i + 17) % 32) + Digit(x, (i + 19) % 32) + (if i < 22 then Digit(x, i + 10) else 0)) % 2
  {
    hide Digit, XorW, RotateRight, ShiftRight;
    forall n: nat | 0 < n < 32
      ensures Digit(RotateRight(n, x), i) == Digit(x, (i + n) % 32)
    {
      RotateDigit(n, x, i);
    }
    ShiftRightDigit(3, x, i);
    ShiftRightDigit(10, x, i);
    XorThreeDigits(RotateRight(2, x), RotateRight(13, x), RotateRight(22, x), i);
    XorThreeDigits(RotateRight(6, x), RotateRight(11, x), RotateRight(25, x), i);
    XorThreeDigits(RotateRight(7, x), RotateRight(18, x), ShiftRight(3, x), i);
    XorThreeDigits(RotateRight(17, x), RotateRight(19, x), ShiftRight(10, x), i);
  }

  /** A word is its digits, so the statements above determine the functions. */
  lemma {:induction false} DigitsDetermine(x: nat, y: nat, n: nat)
    requires x < Pow2(n) && y < Pow2(n) && forall i: nat | i < n :: Digit(x, i) == Digit(y, i)
    ensures x == y
    decreases n
  {
    if n > 0 {
      assert Digit(x, 0) == Digit(y, 0);
      forall i: nat | i < n - 1
        ensures Digit(x / 2, i) == Digit(y / 2, i)
      {
        assert Digit(x, i + 1) == Digit(y, i + 1);
      }
      DigitsDetermine(x / 2, y / 2, n - 1);
    }
  }

  /** Four output bytes are the word, most significant byte first, and parsing them gives it back. */
  lemma BytesOfAWord(x: Word)
    ensures var b := BigEndianWord(x);
            && x == 0x100_0000 * (b[0] as int) + 0x1_0000 * (b[1] as int) + 0x100 * (b[2] as int) + b[3]
            && WordAt(b, 0) == x
  {
    var a, b, c := x / 0x100, x / 0x1_0000, x / 0x100_0000;
    assert a / 0x100 == b && b / 0x100 == c;
    assert x == 0x100 * a + x % 0x100 && a == 0x100 * b + a % 0x100 && b == 0x100 * c + b % 0x100;
  }

  /**
    Section 5.1.1: the message, a one bit, zeros, and the length in bits as a
    64-bit number, in the least number of 64-byte blocks that holds all this.
   */
  lemma PaddingMeans(message: seq<Byte>)
    requires |message| < MAX_BYTES
    ensures var p, n := Pad(message), |message|;
            && n + 9 <= |p| < n + 9 + 64 && |p| % 64 == 0
            && p[..n] == message && p[n] == 0x80 && (forall i | n < i < |p| - 8 :: p[i] == 0)
            && WordAt(p[|p| - 8..], 0) * TWO32 + WordAt(p[|p| - 8..], 1) == 8 * n
  {
    var p, n := Pad(message), |message|;
    var bits := 8 * n;
    BytesOfAWord(bits / TWO32);
    BytesOfAWord(bits % TWO32);
    var high, low := BigEndianWord(bits / TWO32), BigEndianWord(bits % TWO32);
    hide BigEndianWord;
    var field := p[|p| - 8..];
    assert field == high + low;
    assert forall j | 0 <= j < 4 :: field[j] == high[j] && field[4 + j] == low[j];
    assert WordAt(field, 0) == WordAt(high, 0) && WordAt(field, 1) == WordAt(low, 0);
    assert p[..n] == message;
  }

  lemma {:induction false} ConcatenatedAt(words: seq<Word>, i: nat)
    requires i < |words|
    ensures Concatenated(words)[4 * i..4 * i + 4] == BigEndianWord(words[i])
    decreases |words|
  {
    hide BigEndianWord;
    var n := |words| - 1;
    if i < n {
      ConcatenatedAt(words[..n], i);
      assert Concatenated(words)[4 * i..4 * i + 4] == Concatenated(words[..n])[4 * i..4 * i + 4];
    }
  }

  /** The digest is the eight words of the hash value, in order. */
  lemma DigestMeans(h: Hash, i: nat)
    requires i < 8
    ensures WordAt(Digest(h), i) == [h.a, h.b, h.c, h.d, h.e, h.f, h.g, h.h][i]
  {
    var words := [h.a, h.b, h.c, h.d, h.e, h.f, h.g, h.h];
    ConcatenatedAt(words, i);
    BytesOfAWord(words[i]);
    hide BigEndianWord, Concatenated;
    var b, four := Digest(h), Digest(h)[4 * i..4 * i + 4];
    assert forall k | 0 <= k < 4 :: four[k] == b[4 * i + k];
    assert WordAt(b, i) == WordAt(four, 0);
  }
}
