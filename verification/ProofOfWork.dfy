/**
  The registration proof of work: the leading-zero-bit count, written three
  times (dashboard, command line, server), the number it stands for, and the
  two solvers against the server's check.
 */
module ProofOfWork {
  import opened Bits
  import opened Fips180
  import opened JsInt32
  import opened Options
  import BrowserSha256

  // ---- The count and the bound it stands for ----

  /** The number of binary digits of x, as Python's int.bit_length gives it. */
  function BitLength(x: nat): nat {
    if x == 0 then 0 else 1 + BitLength(x / 2)
  }

  function LeadingZeros(data: seq<Byte>): nat {
    if data == [] then 0
    else if data[0] == 0 then 8 + LeadingZeros(data[1..])
    else if BitLength(data[0]) <= 8 then 8 - BitLength(data[0]) else 0
  }

  /** The data read as one number, first byte most significant. */
  function BigEndian(data: seq<Byte>): nat {
    if data == [] then 0 else Double(data[0], 8 * (|data| - 1)) + BigEndian(data[1..])
  }

  lemma {:induction false} DoubleSum(x: nat, y: nat, n: nat)
    ensures Double(x + y, n) == Double(x, n) + Double(y, n)
    decreases n
  {
    if n > 0 {
      DoubleSum(x, y, n - 1);
    }
  }

  lemma DoubleMonotonic(x: nat, y: nat, n: nat)
    requires x <= y
    ensures Double(x, n) <= Double(y, n)
  {
    DoubleSum(x, y - x, n);
  }

  lemma Pow2Monotonic(m: nat, n: nat)
    requires m <= n
    ensures Pow2(m) <= Pow2(n)
  {
    DoubleTwice(1, m, n - m);
  }

  lemma {:induction false} BitLengthBounds(x: nat, n: nat)
    ensures BitLength(x) <= n <==> x < Pow2(n)
    decreases n
  {
    if n > 0 && x > 0 {
      BitLengthBounds(x / 2, n - 1);
    }
  }

  lemma {:induction false} BigEndianBound(data: seq<Byte>)
    ensures BigEndian(data) < Pow2(8 * |data|)
  {
    if data != [] {
      var m := 8 * (|data| - 1);
      BigEndianBound(data[1..]);
      var b: nat := data[0];
      DoubleSum(b, 1, m);
      DoubleMonotonic(b + 1, 0x100, m);
      DoubleValues(1);
      DoubleTwice(1, 8, m);
      assert 8 + m == 8 * |data|;
    }
  }

  /** A count of at least d is exactly a value below 2^(8n - d). */
  lemma {:induction false} CountIsBound(data: seq<Byte>, d: nat)
    requires d <= 8 * |data|
    ensures LeadingZeros(data) >= d <==> BigEndian(data) < Pow2(8 * |data| - d)
    decreases |data|
  {
    if data != [] {
      var b: nat, m := data[0], 8 * (|data| - 1);
      BigEndianBound(data[1..]);
      if b == 0 {
        assert Double(0, m) == 0 by { DoubleSum(0, 0, m); }
        if d <= 8 {
          Pow2Monotonic(m, 8 * |data| - d);
        } else {
          CountIsBound(data[1..], d - 8);
        }
      } else {
        FirstByteDecides(b, m, BigEndian(data[1..]), 8 - d + m, d);
      }
    }
  }

  lemma FirstByteDecides(b: Byte, m: nat, rest: nat, exponent: nat, d: nat)
    requires b > 0 && rest < Pow2(m) && exponent == m + 8 - d
    ensures BitLength(b) <= 8
    ensures 8 - BitLength(b) >= d <==> Double(b, m) + rest < Pow2(exponent)
  {
    hide BitLength, Double;
    var n := BitLength(b);
    DoubleValues(1);
    BitLengthBounds(b, 0);
    BitLengthBounds(b, 8);
    if n <= 8 - d {
      BitLengthBounds(b, n);
      DoubleSum(b, 1, m);
      DoubleMonotonic(b + 1, Pow2(n), m);
      DoubleTwice(1, n, m);
      Pow2Monotonic(n + m, exponent);
    } else {
      BitLengthBounds(b, n - 1);
      DoubleMonotonic(Pow2(n - 1), b, m);
      DoubleTwice(1, n - 1, m);
      Pow2Monotonic(exponent, n - 1 + m);
    }
  }

  // ---- The three loops ----

  /** Given no digit above j, bit j is set exactly when x reaches 2^j. */
  lemma {:induction false} TopDigit(x: nat, j: nat)
    requires x < Pow2(j + 1)
    ensures And(x, Pow2(j)) == 0 <==> x < Pow2(j)
    decreases j
  {
    if j > 0 {
      TopDigit(x / 2, j - 1);
    }
  }

  lemma SmallPowers()
    ensures Pow2(0) == 1 && Pow2(1) == 2 && Pow2(2) == 4 && Pow2(3) == 8 && Pow2(4) == 16
    ensures Pow2(5) == 32 && Pow2(6) == 64 && Pow2(7) == 128 && Pow2(8) == 256
  {
    assert Double(1, 1) == 2;
    assert Double(1, 3) == 8;
    assert Double(1, 5) == 32;
    assert Double(1, 7) == 128;
  }

  lemma MaskStep(byte: Byte, k: nat)
    requires k < 8 && byte < Pow2(8 - k)
    ensures And(byte, Pow2(7 - k)) == 0 <==> byte < Pow2(7 - k)
    ensures Pow2(7 - k) / 2 == if k < 7 then Pow2(6 - k) else 0
    ensures byte >= Pow2(7 - k) ==> BitLength(byte) == 8 - k
    ensures Pow2(7 - k) < 0x100
  {
    hide And, BitLength, Double;
    TopDigit(byte, 7 - k);
    BitLengthBounds(byte, 7 - k);
    BitLengthBounds(byte, 8 - k);
    SmallPowers();
  }

  lemma JsMaskStep(byte: Byte, mask: Byte)
    ensures BitAnd(byte, mask) == 0 <==> And(byte, mask) == 0
    ensures Sar(mask, 1) == mask / 2
  {
    hide And;
    assert Halve(mask, 1) == Halve(mask, 0) / 2;
    var r := AndW(byte, mask);
    assert ToUint32(byte) == byte && ToUint32(mask) == mask;
    assert ToInt32(r) == 0 <==> r == 0;
  }

  method TsLeadingZeroBits(data: seq<Byte>) returns (bits: nat)
    ensures bits == LeadingZeros(data)
  {
    hide And, BitAnd, Sar;
    bits := 0;
    for i := 0 to |data|
      invariant bits + LeadingZeros(data[i..]) == LeadingZeros(data)
    {
      var byte := data[i];
      assert data[i..][1..] == data[i + 1..];
      if byte == 0 {
        bits := bits + 8;
        continue;
      }
      SmallPowers();
      var mask: int := 0x80;
      ghost var k, before: nat := 0, bits;
      while mask > 0
        invariant k <= 8 && mask == (if k < 8 then Pow2(7 - k) else 0) && byte < Pow2(8 - k)
        invariant bits == before + k
        decreases 8 - k
      {
        MaskStep(byte, k);
        JsMaskStep(byte, mask);
        if BitAnd(byte, mask) == 0 {
          bits := bits + 1;
          mask, k := Sar(mask, 1), k + 1;
          continue;
        }
        return;
      }
    }
  }

  /** Go's byte is unsigned: the mask is plainly halved. */
  method GoLeadingZeroBits(data: seq<Byte>) returns (bits: nat)
    ensures bits == LeadingZeros(data)
  {
    hide And;
    bits := 0;
    for i := 0 to |data|
      invariant bits + LeadingZeros(data[i..]) == LeadingZeros(data)
    {
      var b := data[i];
      assert data[i..][1..] == data[i + 1..];
      if b == 0 {
        bits := bits + 8;
        continue;
      }
      SmallPowers();
      var mask: Byte := 0x80;
      ghost var k, before: nat := 0, bits;
      while mask > 0
        invariant k <= 8 && mask == (if k < 8 then Pow2(7 - k) else 0) && b < Pow2(8 - k)
        invariant bits == before + k
        decreases 8 - k
      {
        MaskStep(b, k);
        if And(b, mask) == 0 {
          bits := bits + 1;
          mask, k := mask / 2, k + 1;
          continue;
        }
        return;
      }
    }
  }

  method PyLeadingZeroBits(data: seq<Byte>) returns (bits: nat)
    ensures bits == LeadingZeros(data)
  {
    bits := 0;
    for i := 0 to |data|
      invariant bits + LeadingZeros(data[i..]) == LeadingZeros(data)
    {
      var byte := data[i];
      assert data[i..][1..] == data[i + 1..];
      if byte == 0 {
        bits := bits + 8;
        continue;
      }
      DoubleValues(1);
      BitLengthBounds(byte, 8);
      return bits + (8 - BitLength(byte));
    }
  }

  // ---- The check and the solvers ----

  const COLON: Byte := 58

  /** The decimal digits of a nonce. */
  function Decimal(n: nat): (r: seq<Byte>)
    ensures |r| >= 1
  {
    if n < 10 then [48 + n] else Decimal(n / 10) + [48 + n % 10]
  }

  function Message(challengeId: seq<Byte>, salt: seq<Byte>, nonce: seq<Byte>): seq<Byte> {
    challengeId + [COLON] + salt + [COLON] + nonce
  }

  /** The number a digit string stands for. */
  function Number(digits: seq<Byte>): int {
    if digits == [] then 0 else 10 * Number(digits[..|digits| - 1]) + (digits[|digits| - 1] - '0' as int)
  }

  /** A nonce is written in decimal, without leading zeros, so its digits tell which one it is. */
  lemma {:induction false} DecimalIsANumeral(n: nat)
    ensures Number(Decimal(n)) == n
    ensures forall i | 0 <= i < |Decimal(n)| :: '0' as int <= Decimal(n)[i] <= '9' as int
    ensures Decimal(n)[0] == '0' as int ==> n == 0
  {
    if n < 10 {
      assert Decimal(n)[..0] == [];
    } else {
      DecimalIsANumeral(n / 10);
      assert Decimal(n)[..|Decimal(n)| - 1] == Decimal(n / 10);
    }
  }

  /** The hashed message names challenge, salt and nonce, in this order between colons. */
  lemma MessageNamesAll(challengeId: seq<Byte>, salt: seq<Byte>, n: nat)
    ensures var message := Message(challengeId, salt, Decimal(n));
            var i, j := |challengeId|, |challengeId| + 1 + |salt|;
            && |message| == j + 1 + |Decimal(n)| && message[..i] == challengeId && message[i + 1..j] == salt
            && message[i] == message[j] == ':' as int && Number(message[j + 1..]) == n
  {
    hide Decimal, Number;
    DecimalIsANumeral(n);
    assert Message(challengeId, salt, Decimal(n))[|challengeId| + 1 + |salt| + 1..] == Decimal(n);
  }

  /** Different nonces of one challenge are different messages, so no two tries are the same. */
  lemma TriesDiffer(challengeId: seq<Byte>, salt: seq<Byte>, m: nat, n: nat)
    requires Message(challengeId, salt, Decimal(m)) == Message(challengeId, salt, Decimal(n))
    ensures m == n
  {
    hide Decimal, Message, Number;
    MessageNamesAll(challengeId, salt, m);
    MessageNamesAll(challengeId, salt, n);
  }

  /** The server's verify_pow. */
  predicate VerifyPow(challengeId: seq<Byte>, salt: seq<Byte>, nonce: seq<Byte>, difficulty: int)
    requires |Message(challengeId, salt, nonce)| < MAX_BYTES
  {
    LeadingZeros(Sha256(Message(challengeId, salt, nonce))) >= difficulty
  }

  /** verify_pow: the server's own SHA-256 and bit count. */
  method ServerVerifyPow(challengeId: seq<Byte>, salt: seq<Byte>, nonce: seq<Byte>, difficulty: int) returns (ok: bool)
    requires |Message(challengeId, salt, nonce)| < MAX_BYTES
    ensures ok <==> VerifyPow(challengeId, salt, nonce, difficulty)
  {
    hide Sha256, LeadingZeros, Message;
    var bits := PyLeadingZeroBits(Sha256(Message(challengeId, salt, nonce)));
    ok := bits >= difficulty;
  }

  /** registerPOWValid: the command line's SHA-256 and bit count come to the server's verdict. */
  method GoRegisterPowValid(challengeId: seq<Byte>, salt: seq<Byte>, nonce: seq<Byte>, difficulty: int)
    returns (ok: bool)
    requires |Message(challengeId, salt, nonce)| < MAX_BYTES
    ensures ok <==> VerifyPow(challengeId, salt, nonce, difficulty)
  {
    hide Sha256, LeadingZeros, Message;
    var bits := GoLeadingZeroBits(Sha256(Message(challengeId, salt, nonce)));
    ok := bits >= difficulty;
  }

  /** What the check means: the digest, as a 256-bit number, is small enough. */
  lemma PowIsANumericBound(challengeId: seq<Byte>, salt: seq<Byte>, nonce: seq<Byte>, difficulty: nat)
    requires |Message(challengeId, salt, nonce)| < MAX_BYTES && difficulty <= 256
    ensures VerifyPow(challengeId, salt, nonce, difficulty) <==>
            BigEndian(Sha256(Message(challengeId, salt, nonce))) < Pow2(256 - difficulty)
  {
    hide Sha256, LeadingZeros, BigEndian, Pow2;
    CountIsBound(Sha256(Message(challengeId, salt, nonce)), difficulty);
  }

  lemma {:induction false} DecimalGrows(m: nat, n: nat)
    requires m <= n
    ensures |Decimal(m)| <= |Decimal(n)|
    decreases n
  {
    if n >= 10 && m >= 10 {
      DecimalGrows(m / 10, n / 10);
    }
  }

  /** The dashboard hashes with the browser's own SHA-256 when there is one. */
  method BrowserDigest(data: seq<Byte>, subtle: bool) returns (digest: seq<Byte>)
    requires |data| < MAX_BYTES
    ensures subtle || |data| < BrowserSha256.LIMIT ==> digest == Sha256(data)
  {
    hide *;
    if subtle {
      digest := Sha256(data);
    } else {
      var output := BrowserSha256.Sha256Fallback(data);
      digest := output[..];
    }
  }

  /** The nonce passes the server's check on this challenge. */
  predicate Accepted(challengeId: seq<Byte>, salt: seq<Byte>, difficulty: int, n: nat)
  {
    |Message(challengeId, salt, Decimal(n))| < MAX_BYTES && VerifyPow(challengeId, salt, Decimal(n), difficulty)
  }

  lemma AcceptedUnfolds(challengeId: seq<Byte>, salt: seq<Byte>, difficulty: int, n: nat)
    requires |Message(challengeId, salt, Decimal(n))| < MAX_BYTES
    ensures Accepted(challengeId, salt, difficulty, n) <==>
            LeadingZeros(Sha256(Message(challengeId, salt, Decimal(n)))) >= difficulty
  {
    hide Sha256, LeadingZeros;
  }

  lemma MessageGrows(challengeId: seq<Byte>, salt: seq<Byte>, m: nat, n: nat)
    requires m <= n
    ensures |Message(challengeId, salt, Decimal(m))| <= |Message(challengeId, salt, Decimal(n))|
  {
    hide Decimal;
    DecimalGrows(m, n);
  }

  /** One turn of the dashboard's loop: hash the candidate and count its zeros. */
  method TryNonce(challengeId: seq<Byte>, salt: seq<Byte>, difficulty: int, subtle: bool, n: nat) returns (ok: bool)
    requires |Message(challengeId, salt, Decimal(n))| < MAX_BYTES
    requires subtle || |Message(challengeId, salt, Decimal(n))| < BrowserSha256.LIMIT
    ensures ok <==> Accepted(challengeId, salt, difficulty, n)
  {
    hide *;
    var digest := BrowserDigest(Message(challengeId, salt, Decimal(n)), subtle);
    var bits := TsLeadingZeroBits(digest);
    AcceptedUnfolds(challengeId, salt, difficulty, n);
    ok := bits >= difficulty;
  }

  /**
    The dashboard's solver. `budget` is how many times the clock lets the loop
    test pass. It returns the first accepted nonce, or times out when there is
    none among those it had time for.
   */
  method SolveRegistrationPow(challengeId: seq<Byte>, salt: seq<Byte>, difficulty: int, subtle: bool, budget: nat)
    returns (nonce: Option<nat>)
    requires |Message(challengeId, salt, Decimal(budget))| < MAX_BYTES
    requires subtle || |Message(challengeId, salt, Decimal(budget))| < BrowserSha256.LIMIT
    ensures nonce.Some? ==> nonce.value < budget && Accepted(challengeId, salt, difficulty, nonce.value)
    ensures forall n: nat | n < (if nonce.Some? then nonce.value else budget)
              :: !Accepted(challengeId, salt, difficulty, n)
  {
    hide *;
    var attempts := 0;
    while attempts < budget
      invariant attempts <= budget
      invariant forall n: nat | n < attempts :: !Accepted(challengeId, salt, difficulty, n)
    {
      MessageGrows(challengeId, salt, attempts, budget);
      var ok := TryNonce(challengeId, salt, difficulty, subtle, attempts);
      if ok {
        return Some(attempts);
      }
      attempts := attempts + 1;
    }
    return None;
  }

  // ---- The command line's solver: goroutines sharing one counter ----

  /** A goroutine is between nonces, holds one it has claimed, or has returned. */
  datatype Hand = Free | Holds(nonce: nat) | Returned

  /**
    counter: the shared atomic counter. tested: the nonces already tried.
    result: the channel, which keeps the first nonce sent to it.
   */
  datatype GoSolver = GoSolver(counter: nat, hands: seq<Hand>, tested: set<nat>, result: Option<nat>)

  datatype GoStep = Claim(worker: nat) | Test(worker: nat)

  function GoNext(s: GoSolver, step: GoStep, valid: nat -> bool): GoSolver {
    if step.worker >= |s.hands| then s
    else match (step, s.hands[step.worker])
    case (Claim(i), Free) =>
      s.(counter := s.counter + 1, hands := s.hands[i := Holds(s.counter)])
    case (Test(i), Holds(n)) =>
      s.(hands := s.hands[i := if valid(n) then Returned else Free],
         tested := s.tested + {n},
         result := if valid(n) && s.result.None? then Some(n) else s.result)
    case _ => s
  }

  function GoRun(workers: nat, steps: seq<GoStep>, valid: nat -> bool): GoSolver {
    if steps == [] then GoSolver(0, seq(workers, _ => Free), {}, None)
    else GoNext(GoRun(workers, steps[..|steps| - 1], valid), steps[|steps| - 1], valid)
  }

  ghost predicate GoInvariant(s: GoSolver, valid: nat -> bool) {
    && (forall n | n in s.tested :: n < s.counter)
    && (forall i | 0 <= i < |s.hands| && s.hands[i].Holds? ::
          s.hands[i].nonce < s.counter && s.hands[i].nonce !in s.tested)
    && (forall i, j | 0 <= i < j < |s.hands| && s.hands[i].Holds?
        && s.hands[j].Holds? :: s.hands[i].nonce != s.hands[j].nonce)
    && (forall n: nat | n < s.counter :: n in s.tested || Holds(n) in s.hands)
    && (s.result.Some? ==> s.result.value in s.tested && valid(s.result.value))
    && (s.result.None? ==> forall n | n in s.tested :: !valid(n))
  }

  /**
    Under any scheduling of any number of goroutines: every nonce below the
    counter has been claimed by exactly one of them, the delivered nonce is
    valid, and a valid nonce that has been tested is never lost.
   */
  lemma {:induction false} GoSolverIsSound(workers: nat, steps: seq<GoStep>, valid: nat -> bool)
    ensures GoInvariant(GoRun(workers, steps, valid), valid)
    decreases |steps|
  {
    if steps != [] {
      GoSolverIsSound(workers, steps[..|steps| - 1], valid);
      GoStepKeepsInvariant(GoRun(workers, steps[..|steps| - 1], valid), steps[|steps| - 1], valid);
    }
  }

  /** The first valid nonce that is delivered stays, and whoever finds one claims no more. */
  lemma FirstFindStands(s: GoSolver, step: GoStep, valid: nat -> bool)
    ensures var t, i := GoNext(s, step, valid), step.worker;
            && (s.result.Some? ==> t.result == s.result)
            && (i < |s.hands| && s.hands[i].Returned? ==> t == s)
            && (i < |s.hands| && s.hands[i].Holds? && step.Test? ==>
                  var n := s.hands[i].nonce;
                  && n in t.tested && t.counter == s.counter
                  && t.hands == s.hands[i := if valid(n) then Returned else Free]
                  && (s.result.None? ==> t.result == if valid(n) then Some(n) else None))
  {
  }

  lemma GoStepKeepsInvariant(s: GoSolver, step: GoStep, valid: nat -> bool)
    requires GoInvariant(s, valid)
    ensures GoInvariant(GoNext(s, step, valid), valid)
  {
    var t := GoNext(s, step, valid);
    var i := step.worker;
    if t != s {
      forall n: nat | n < t.counter
        ensures n in t.tested || Holds(n) in t.hands
      {
        if n == s.counter {
          assert t.hands[i] == Holds(n);
        } else if n !in s.tested {
          var j :| 0 <= j < |s.hands| && s.hands[j] == Holds(n);
          assert j != i ==> t.hands[j] == Holds(n);
        }
      }
    }
  }

  /** registerPOWValid is the server's check, so what the channel delivers is accepted. */
  lemma DeliveredNonceIsAccepted(challengeId: seq<Byte>, salt: seq<Byte>, difficulty: int, workers: nat,
                                 steps: seq<GoStep>)
    ensures var valid := (n: nat) => Accepted(challengeId, salt, difficulty, n);
            var delivered := GoRun(workers, steps, valid).result;
            delivered.Some? ==>
              |Message(challengeId, salt, Decimal(delivered.value))| < MAX_BYTES &&
              VerifyPow(challengeId, salt, Decimal(delivered.value), difficulty)
  {
    hide Message, Decimal, VerifyPow;
    var valid := (n: nat) => Accepted(challengeId, salt, difficulty, n);
    GoSolverIsSound(workers, steps, valid);
  }
}
