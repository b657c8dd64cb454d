/**
  The rounds of section 6.2.2 of FIPS 180-4 without their eight registers: two
  sequences, each new value computed from the four before it in both.
 */
module Fips180Rounds {
  import opened Fips180

  /** Value number t of the first sequence; the hash value before the rounds gives numbers 0 to -3. */
  function A(start: Hash, block: Block, t: int): Word
    requires -3 <= t <= 64
    decreases t, 1
  {
    if t == 0 then start.a
    else if t == -1 then start.b
    else if t == -2 then start.c
    else if t == -3 then start.d
    else Mod32(New(start, block, t) + BigSigma0(A(start, block, t - 1))
               + Maj(A(start, block, t - 1), A(start, block, t - 2), A(start, block, t - 3)))
  }

  function E(start: Hash, block: Block, t: int): Word
    requires -3 <= t <= 64
    decreases t, 1
  {
    if t == 0 then start.e
    else if t == -1 then start.f
    else if t == -2 then start.g
    else if t == -3 then start.h
    else Mod32(New(start, block, t) + A(start, block, t - 4))
  }

  /** What round t mixes in: the constant, the schedule, and the second sequence. */
  function New(start: Hash, block: Block, t: int): nat
    requires 1 <= t <= 64
    decreases t, 0
  {
    E(start, block, t - 4) + BigSigma1(E(start, block, t - 1))
    + Ch(E(start, block, t - 1), E(start, block, t - 2), E(start, block, t - 3))
    + K[t - 1] + Schedule(block, t - 1)
  }

  lemma SumsWrap(x: int, y: int)
    ensures Mod32(Mod32(x) + y) == Mod32(x + y) && Mod32(y + Mod32(x)) == Mod32(x + y)
    ensures Mod32(Mod32(x) + Mod32(y)) == Mod32(x + y)
  {
    assert x == TWO32 * (x / TWO32) + x % TWO32 && y == TWO32 * (y / TWO32) + y % TWO32;
  }

  lemma RoundSums(s: Hash, k: Word, w: Word)
    ensures var x := s.h + BigSigma1(s.e) + Ch(s.e, s.f, s.g) + k + w;
            Round(s, k, w) == Hash(Mod32(x + BigSigma0(s.a) + Maj(s.a, s.b, s.c)), s.a, s.b, s.c,
                                   Mod32(x + s.d), s.e, s.f, s.g)
  {
    hide BigSigma0, BigSigma1, Ch, Maj, Mod32;
    var x := s.h + BigSigma1(s.e) + Ch(s.e, s.f, s.g) + k + w;
    SumsWrap(x, BigSigma0(s.a) + Maj(s.a, s.b, s.c));
    SumsWrap(x, s.d);
  }

  function Registers(start: Hash, block: Block, t: nat): Hash
    requires t <= 64
  {
    Hash(A(start, block, t), A(start, block, t - 1), A(start, block, t - 2), A(start, block, t - 3),
         E(start, block, t), E(start, block, t - 1), E(start, block, t - 2), E(start, block, t - 3))
  }

  lemma NextRegisters(start: Hash, block: Block, t: nat)
    requires 0 < t <= 64
    ensures Registers(start, block, t) == Round(Registers(start, block, t - 1), K[t - 1], Schedule(block, t - 1))
  {
    hide *;
    NextValues(start, block, t);
    TheRegisters(start, block, t);
    TheRegisters(start, block, t - 1);
    RoundSums(Registers(start, block, t - 1), K[t - 1], Schedule(block, t - 1));
  }

  lemma TheRegisters(start: Hash, block: Block, t: nat)
    requires t <= 64
    ensures var r := Registers(start, block, t);
            && r.a == A(start, block, t) && r.b == A(start, block, t - 1)
            && r.c == A(start, block, t - 2) && r.d == A(start, block, t - 3)
            && r.e == E(start, block, t) && r.f == E(start, block, t - 1)
            && r.g == E(start, block, t - 2) && r.h == E(start, block, t - 3)
  {
    hide A, E;
  }

  lemma NextValues(start: Hash, block: Block, t: nat)
    requires 0 < t <= 64
    ensures |K| == 64
    ensures var x := E(start, block, t - 4) + BigSigma1(E(start, block, t - 1))
                     + Ch(E(start, block, t - 1), E(start, block, t - 2), E(start, block, t - 3))
                     + K[t - 1] + Schedule(block, t - 1);
            && E(start, block, t) == Mod32(x + A(start, block, t - 4))
            && A(start, block, t) == Mod32(x + BigSigma0(A(start, block, t - 1))
                 + Maj(A(start, block, t - 1), A(start, block, t - 2), A(start, block, t - 3)))
  {
    hide Schedule, BigSigma0, BigSigma1, Ch, Maj, Mod32;
  }

  /** The registers after t rounds are the last four values of both sequences. */
  lemma {:induction false} RoundsAreRecurrences(start: Hash, block: Block, t: nat)
    requires t <= 64
    ensures Rounds(start, block, t) == Registers(start, block, t)
    decreases t
  {
    if t > 0 {
      RoundsAreRecurrences(start, block, t - 1);
      NextRegisters(start, block, t);
      hide Registers, Round, Schedule;
    }
  }
}
