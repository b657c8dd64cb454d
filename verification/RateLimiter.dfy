/**
  The per-process rate limiter of the authentication endpoints: a fixed window
  with blocks. What it guarantees is a bound on any sliding window, which only
  the history of recorded failures can express.
 */
module RateLimiter {
  import opened Options

  type Key = string

  datatype State = State(attempts: int, windowStartedAt: real, blockedUntil: real)

  /** A recorded failure: its time, and the attempt count it brought the window to. */
  datatype Record = Record(time: real, position: nat)

  type History = seq<Record>

  // ---- Histories ----

  /** Record i either continues the window of record i - 1 or starts a new one. */
  ghost predicate Follows(h: History, i: int, window: real)
    requires 0 < i < |h| && h[i - 1].position <= i
  {
    var started := h[i - h[i - 1].position].time;
    && h[i - 1].time <= h[i].time
    && h[i].position == if h[i].time - started > window then 1 else h[i - 1].position + 1
  }

  ghost predicate Positions(h: History) {
    && (forall i | 0 <= i < |h| :: 1 <= h[i].position <= i + 1)
  }

  ghost predicate Chain(h: History, window: real) {
    Positions(h) && forall i | 0 < i < |h| :: Follows(h, i, window)
  }

  ghost predicate WaitsOutBlock(h: History, i: int, attempts: int, block: real)
    requires 0 < i < |h|
  {
    h[i - 1].position >= attempts ==> h[i].time >= h[i - 1].time + block
  }

  /** Nothing is recorded during a block. */
  ghost predicate Spaced(h: History, attempts: int, block: real) {
    forall i | 0 < i < |h| :: WaitsOutBlock(h, i, attempts, block)
  }

  function WindowStart(h: History): real
    requires h != [] && 1 <= h[|h| - 1].position <= |h|
  {
    h[|h| - h[|h| - 1].position].time
  }

  lemma {:induction false} Sorted(h: History, window: real, i: nat, j: nat)
    requires Chain(h, window) && i <= j < |h|
    ensures h[i].time <= h[j].time
    decreases j - i
  {
    if i < j {
      assert Follows(h, j, window);
      Sorted(h, window, i, j - 1);
    }
  }

  /** From record s, the window must end before its count reaches the limit. */
  lemma {:induction false} NextWindow(h: History, window: real, limit: int, s: nat, m: nat) returns (r: nat)
    requires Chain(h, window) && s + m < |h| && h[s].position + m >= limit
    requires forall k | s <= k <= s + m :: h[k].position < limit
    ensures s < r <= s + m && h[r].position == 1 && h[r].time - h[s + 1 - h[s].position].time > window
    decreases m
  {
    assert m > 0;
    assert Follows(h, s + 1, window);
    if h[s + 1].time - h[s + 1 - h[s].position].time > window {
      r := s + 1;
    } else {
      r := NextWindow(h, window, limit, s + 1, m - 1);
    }
  }

  function Bound(attempts: int): int {
    if attempts <= 1 then 1 else 2 * attempts - 2
  }

  /** One record more than the bound spans at least a window. */
  lemma SpanOfBoundPlusOne(h: History, window: real, block: real, attempts: int, i: nat)
    requires Chain(h, window) && Spaced(h, attempts, block) && block >= window > 0.0 && attempts >= 1
    requires i + Bound(attempts) < |h|
    ensures h[i + Bound(attempts)].time - h[i].time >= window
  {
    var last := i + Bound(attempts);
    if k :| i <= k < last && h[k].position >= attempts {
      Sorted(h, window, i, k);
      Sorted(h, window, k + 1, last);
      assert WaitsOutBlock(h, k + 1, attempts, block);
    } else {
      var second := NextWindow(h, window, attempts, i, attempts - h[i].position);
      if h[i].position == 1 {
        Sorted(h, window, second, last);
      } else {
        var third := NextWindow(h, window, attempts, second, attempts - 1);
        Sorted(h, window, i, second);
        Sorted(h, window, third, last);
      }
    }
  }

  lemma {:induction false} IntervalSize(s: set<int>, lo: int, n: nat)
    requires forall e | e in s :: lo <= e < lo + n
    ensures |s| <= n
    decreases n
  {
    if n > 0 {
      IntervalSize(s - {lo + n - 1}, lo, n - 1);
    } else if s != {} {
      var e := Pick(s);
      assert false;
    }
  }

  lemma Pick<T>(s: set<T>) returns (x: T)
    requires s != {}
    ensures x in s
  {
    x :| x in s;
  }

  /** The records of the half-open interval [x, x + window). */
  function Within(h: History, x: real, window: real): set<int> {
    set i | 0 <= i < |h| && x <= h[i].time < x + window
  }

  /** The sliding-window guarantee. */
  lemma SlidingWindow(h: History, window: real, block: real, attempts: int, x: real)
    requires Chain(h, window) && Spaced(h, attempts, block) && block >= window > 0.0 && attempts >= 1
    ensures |Within(h, x, window)| <= Bound(attempts)
  {
    var inside := Within(h, x, window);
    if inside != {} {
      var first := Least(inside);
      forall e | e in inside
        ensures first <= e < first + Bound(attempts)
      {
        if e >= first + Bound(attempts) {
          SpanOfBoundPlusOne(h, window, block, attempts, first);
          Sorted(h, window, first + Bound(attempts), e);
        }
      }
      IntervalSize(inside, first, Bound(attempts));
    }
  }

  lemma {:induction false} Least(s: set<int>) returns (m: int)
    requires s != {}
    ensures m in s && forall e | e in s :: m <= e
    decreases |s|
  {
    var x := Pick(s);
    m := x;
    if s != {x} {
      assert s == (s - {x}) + {x};
      var rest := Least(s - {x});
      m := if rest < x then rest else x;
    }
  }

  /**
    The bound is reached: three or more attempts, one failure opening a window,
    the others but one at its very end, and a full window right after it.
   */
  function WorstCase(attempts: nat, window: real, n: nat): History {
    if n == 0 then []
    else WorstCase(attempts, window, n - 1) + [
      if n == 1 then Record(0.0, 1)
      else if n < attempts then Record(window, n)
      else Record(window + 0.5, n + 1 - attempts)]
  }

  lemma {:induction false} WorstCaseIsARun(attempts: nat, window: real, n: nat)
    requires attempts >= 3 && window >= 1.0 && n <= 2 * attempts - 1
    ensures |WorstCase(attempts, window, n)| == n
    ensures forall i | 0 <= i < n ::
              WorstCase(attempts, window, n)[i] == (if i == 0 then Record(0.0, 1)
                                                    else if i + 1 < attempts then Record(window, i + 1)
                                                    else Record(window + 0.5, i + 2 - attempts))
    decreases n
  {
    if n > 0 {
      WorstCaseIsARun(attempts, window, n - 1);
    }
  }

  lemma SlidingWindowIsTight(attempts: nat, window: real, block: real)
    requires attempts >= 3 && window >= 1.0 && block >= window
    ensures var h := WorstCase(attempts, window, 2 * attempts - 1);
            Chain(h, window) && Spaced(h, attempts, block) && |Within(h, window, window)| == Bound(attempts)
  {
    var n := 2 * attempts - 1;
    var h := WorstCase(attempts, window, n);
    WorstCaseIsARun(attempts, window, n);
    forall i | 0 < i < |h|
      ensures Follows(h, i, window) && WaitsOutBlock(h, i, attempts, block)
    {
    }
    IntervalIsFull(Within(h, window, window), 1, n - 1);
  }

  lemma {:induction false} IntervalIsFull(s: set<int>, lo: int, n: nat)
    requires forall e | lo <= e < lo + n :: e in s
    requires forall e | e in s :: lo <= e < lo + n
    ensures |s| == n
    decreases n
  {
    if n > 0 {
      IntervalIsFull(s - {lo + n - 1}, lo, n - 1);
    } else if s != {} {
      var e := Pick(s);
      assert false;
    }
  }

  lemma NothingIsSpaced(attempts: int, block: real)
    ensures Spaced([], attempts, block)
  {
  }

  // ---- The limiter ----

  function Max1(n: int): int {
    if n < 1 then 1 else n
  }

  /** math.ceil */
  function Ceil(x: real): (r: int)
    ensures r as real >= x > r as real - 1.0
  {
    if x.Floor as real == x then x.Floor else x.Floor + 1
  }

  /** One more record, placed as the code places it, keeps the chain. */
  lemma Extended(h: History, h': History, window: real)
    requires Chain(h, window) && |h'| == |h| + 1 && h'[..|h|] == h
    requires h == [] ==> h'[0].position == 1
    requires h != [] ==> Follows(h', |h|, window)
    ensures Chain(h', window)
  {
    assert forall k | 0 <= k < |h| :: h'[k] == h[k];
    forall i | 0 < i < |h'|
      ensures Follows(h', i, window)
    {
      if i < |h| {
        assert Follows(h, i, window);
      }
    }
  }

  lemma ExtendedSpaced(h: History, h': History, attempts: int, block: real)
    requires Spaced(h, attempts, block) && |h'| == |h| + 1 && h'[..|h|] == h
    requires h != [] ==> WaitsOutBlock(h', |h|, attempts, block)
    ensures Spaced(h', attempts, block)
  {
    assert forall k | 0 <= k < |h| :: h'[k] == h[k];
    forall i | 0 < i < |h'|
      ensures WaitsOutBlock(h', i, attempts, block)
    {
      if i < |h| {
        assert WaitsOutBlock(h, i, attempts, block);
      }
    }
  }

  datatype Limits = Limits(attempts: int, window: real, block: real)

  function StateAfter(h: History, limits: Limits): State
    requires h != [] && 1 <= h[|h| - 1].position <= |h|
  {
    var last := h[|h| - 1];
    State(last.position, WindowStart(h), if last.position >= limits.attempts then last.time + limits.block else 0.0)
  }

  /** The state kept for a key is what its history says, or it was dropped after its window. */
  ghost predicate Matches(h: History, state: Option<State>, clock: real, limits: Limits) {
    && Chain(h, limits.window)
    && clock >= 0.0
    && (h == [] ==> state.None?)
    && (h != [] ==> h[|h| - 1].time <= clock)
    && (h != [] ==> match state
          case Some(s) => s == StateAfter(h, limits)
          case None => clock - WindowStart(h) > limits.window && StateAfter(h, limits).blockedUntil <= clock)
  }

  /** The new state record_failure stores. */
  function AfterFailure(state: Option<State>, now: real, limits: Limits): State {
    var s :=
      if state.None? || now - state.value.windowStartedAt > limits.window then State(0, now, 0.0) else state.value;
    State(s.attempts + 1, s.windowStartedAt,
          if s.attempts + 1 >= limits.attempts then now + limits.block else s.blockedUntil)
  }

  lemma TimePasses(h: History, state: Option<State>, clock: real, now: real, limits: Limits)
    requires Matches(h, state, clock, limits) && clock <= now
    ensures Matches(h, state, now, limits)
    ensures state.Some? && state.value.blockedUntil <= now && now - state.value.windowStartedAt > limits.window ==>
              Matches(h, None, now, limits)
  {
  }

  lemma FailureMatches(h: History, state: Option<State>, now: real, limits: Limits)
    requires Matches(h, state, now, limits)
    ensures var after := AfterFailure(state, now, limits);
            after.attempts >= 1 && Matches(h + [Record(now, after.attempts)], Some(after), now, limits)
  {
    var after := AfterFailure(state, now, limits);
    if h != [] {
      assert h[|h| - 1].position >= 1;
      var h' := h + [Record(now, after.attempts)];
      assert Follows(h', |h|, limits.window);
      Extended(h, h', limits.window);
    }
  }

  lemma FreeFailureIsSpaced(h: History, state: Option<State>, now: real, limits: Limits)
    requires Matches(h, state, now, limits) && Spaced(h, limits.attempts, limits.block)
    requires state.Some? ==> state.value.blockedUntil <= now
    ensures AfterFailure(state, now, limits).attempts >= 0
    ensures Spaced(h + [Record(now, AfterFailure(state, now, limits).attempts)], limits.attempts, limits.block)
  {
    FailureMatches(h, state, now, limits);
    var h' := h + [Record(now, AfterFailure(state, now, limits).attempts)];
    if h != [] {
      assert h[|h| - 1].position >= limits.attempts ==> h[|h| - 1].time + limits.block <= now;
      ExtendedSpaced(h, h', limits.attempts, limits.block);
    }
  }

  /** The position the code gives the next record is the one the history asks for. */
  lemma NextPosition(h: History, i: nat, state: Option<State>, clock: real, limits: Limits)
    requires i < |h| && Chain(h, limits.window) && Matches(h[..i], state, clock, limits) && clock <= h[i].time
    ensures AfterFailure(state, h[i].time, limits).attempts == h[i].position
  {
    if i > 0 {
      assert h[..i][i - 1] == h[i - 1] && Follows(h, i, limits.window);
      assert WindowStart(h[..i]) == h[i - h[i - 1].position].time;
    }
  }

  lemma FreeWhenSpaced(h: History, i: nat, state: Option<State>, clock: real, limits: Limits)
    requires i < |h| && Spaced(h, limits.attempts, limits.block) && Matches(h[..i], state, clock, limits)
             && clock <= h[i].time
    ensures state.Some? ==> state.value.blockedUntil <= h[i].time
  {
    if i > 0 {
      assert h[..i][i - 1] == h[i - 1] && WaitsOutBlock(h, i, limits.attempts, limits.block);
    }
  }

  /**
    In a guarded run a key is blocked at a time exactly when some failure that
    reached the limit lies less than a block before it: no block is ever cut
    short, and each one ends.
   */
  lemma BlocksLastExactly(h: History, limits: Limits, n: nat, t: real)
    requires Chain(h, limits.window) && Spaced(h, limits.attempts, limits.block) && 0 < n <= |h| && t >= 0.0
    requires h[n - 1].time <= t && (n < |h| ==> t < h[n].time)
    ensures StateAfter(h[..n], limits).blockedUntil > t <==>
              exists i :: 0 <= i < n && h[i].position >= limits.attempts && t < h[i].time + limits.block
  {
    assert h[..n][n - 1] == h[n - 1];
    if i :| 0 <= i < n && h[i].position >= limits.attempts && t < h[i].time + limits.block {
      if i < n - 1 {
        assert WaitsOutBlock(h, i + 1, limits.attempts, limits.block);
        Sorted(h, limits.window, i + 1, n - 1);
      }
    }
  }

  /**
    A failure recorded during a block shortens the block exactly when the window
    has run out and one failure alone does not block.
   */
  lemma WhenABlockIsShortened(h: History, state: State, now: real, limits: Limits)
    requires Matches(h, Some(state), now, limits) && state.blockedUntil > now
    ensures AfterFailure(Some(state), now, limits).blockedUntil < state.blockedUntil <==>
            now - state.windowStartedAt > limits.window && limits.attempts > 1
  {
  }

  /** Two failures block for a hundred seconds; a stray third one, after the window, frees the key. */
  lemma StrayFailureUnblocks()
    ensures var limits, h := Limits(2, 10.0, 100.0), [Record(0.0, 1), Record(1.0, 2)];
            var state := State(2, 0.0, 101.0);
            Matches(h, Some(state), 20.0, limits) && state.blockedUntil > 20.0 &&
            AfterFailure(Some(state), 20.0, limits).blockedUntil <= 20.0
  {
    var h := [Record(0.0, 1), Record(1.0, 2)];
    assert Follows(h, 1, 10.0);
  }

  class InMemoryRateLimiter {
    const attempts: int
    const windowSeconds: int
    const blockSeconds: int
    var states: map<Key, State>

    /** The failures recorded for each key since its last success, and the latest time seen. */
    ghost var histories: map<Key, History>
    ghost var clock: real

    function StateOf(key: Key): Option<State>
      reads this
    {
      if key in states then Some(states[key]) else None
    }

    ghost function HistoryOf(key: Key): History
      reads this
    {
      if key in histories then histories[key] else []
    }

    function LimitsOf(): Limits {
      Limits(attempts, windowSeconds as real, blockSeconds as real)
    }

    ghost predicate Agrees(key: Key)
      reads this
    {
      Matches(HistoryOf(key), StateOf(key), clock, LimitsOf())
    }

    ghost predicate Valid()
      reads this
    {
      && attempts >= 1 && windowSeconds >= 1 && blockSeconds >= 1 && clock >= 0.0
      && forall key :: Agrees(key)
    }

    /** Every record of the key since its last success waited out the blocks before it. */
    ghost predicate Guarded(key: Key)
      reads this
    {
      Spaced(HistoryOf(key), attempts, blockSeconds as real)
    }

    predicate BlockedAt(key: Key, time: real)
      reads this
    {
      key in states && states[key].blockedUntil > time
    }

    constructor (attempts: int, windowSeconds: int, blockSeconds: int)
      ensures Valid() && states == map[] && histories == map[] && clock == 0.0
      ensures this.attempts == Max1(attempts) && this.windowSeconds == Max1(windowSeconds)
      ensures this.blockSeconds == Max1(blockSeconds)
    {
      this.attempts := Max1(attempts);
      this.windowSeconds := Max1(windowSeconds);
      this.blockSeconds := Max1(blockSeconds);
      states := map[];
      histories := map[];
      clock := 0.0;
    }

    lemma AllMatchLater(now: real)
      requires Valid() && now >= clock
      ensures forall k :: Matches(HistoryOf(k), StateOf(k), now, LimitsOf())
      ensures forall k | k in states && states[k].blockedUntil <= now
              && now - states[k].windowStartedAt > windowSeconds as real ::
                Matches(HistoryOf(k), None, now, LimitsOf())
    {
      forall k ensures Matches(HistoryOf(k), StateOf(k), now, LimitsOf())
        && (k in states && states[k].blockedUntil <= now && now - states[k].windowStartedAt > windowSeconds as real ==>
              Matches(HistoryOf(k), None, now, LimitsOf()))
      {
        assert Agrees(k);
        TimePasses(HistoryOf(k), StateOf(k), clock, now, LimitsOf());
      }
    }

    /** The wait is the least whole number of seconds after which the key is free. */
    method RetryAfter(key: Key, now: real) returns (wait: int)
      requires Valid() && now >= clock
      modifies this
      ensures Valid() && clock == now && histories == old(histories)
      ensures wait >= 0 && (wait == 0 <==> !old(BlockedAt(key, now)))
      ensures wait > 0 ==> !BlockedAt(key, now + wait as real) && BlockedAt(key, now + wait as real - 1.0)
      ensures wait > 0 ==> states == old(states)
      ensures !old(BlockedAt(key, now)) ==> !BlockedAt(key, now)
      ensures forall k | k != key :: StateOf(k) == old(StateOf(k))
      ensures StateOf(key) == if wait == 0 && key in old(states)
                                 && now - old(states)[key].windowStartedAt > windowSeconds as real
                              then None else old(StateOf(key))
    {
      AllMatchLater(now);
      hide Matches, Ceil;
      clock := now;
      assert forall k :: StateOf(k) == old(StateOf(k)) && HistoryOf(k) == old(HistoryOf(k));
      if key !in states {
        return 0;
      }
      var state := states[key];
      if state.blockedUntil > now {
        wait := Ceil(state.blockedUntil - now);
        return if wait > 1 then wait else 1;
      }
      if now - state.windowStartedAt > windowSeconds as real {
        states := states - {key};
        forall k
          ensures Agrees(k)
        {
          assert StateOf(k) == if k == key then None else old(StateOf(k));
          assert HistoryOf(k) == old(HistoryOf(k));
        }
      }
      return 0;
    }

    method RecordFailure(key: Key, now: real)
      requires Valid() && now >= clock
      modifies this
      ensures Valid()
      ensures clock == now
      ensures StateOf(key) == Some(AfterFailure(old(StateOf(key)), now, LimitsOf()))
      ensures forall k | k != key :: StateOf(k) == old(StateOf(k)) && HistoryOf(k) == old(HistoryOf(k))
      ensures states[key].attempts >= 1
      ensures HistoryOf(key) == old(HistoryOf(key)) + [Record(now, states[key].attempts)]
      ensures old(Guarded(key)) && !old(BlockedAt(key, now)) ==> Guarded(key)
    {
      ghost var h, before := HistoryOf(key), StateOf(key);
      hide Matches, Spaced;
      AllMatchLater(now);
      FailureMatches(h, before, now, LimitsOf());
      if Guarded(key) && !BlockedAt(key, now) {
        FreeFailureIsSpaced(h, before, now, LimitsOf());
      }
      var state := if key in states then states[key] else State(0, now, 0.0);
      if key in states && now - state.windowStartedAt > windowSeconds as real {
        state := State(0, now, 0.0);
      }
      state := state.(attempts := state.attempts + 1);
      if state.attempts >= attempts {
        state := state.(blockedUntil := now + blockSeconds as real);
      }
      assert state == AfterFailure(before, now, LimitsOf());
      states := states[key := state];
      histories := histories[key := h + [Record(now, state.attempts)]];
      clock := now;
      assert StateOf(key) == Some(state) && HistoryOf(key) == h + [Record(now, state.attempts)];
      forall k ensures Agrees(k) {
        assert k != key ==> StateOf(k) == old(StateOf(k)) && HistoryOf(k) == old(HistoryOf(k));
      }
    }

    method RecordSuccess(key: Key)
      requires Valid()
      modifies this
      ensures Valid() && clock == old(clock)
      ensures states == old(states) - {key} && histories == old(histories) - {key}
    {
      assert Matches([], None, clock, LimitsOf());
      hide Matches;
      states := states - {key};
      histories := histories - {key};
      forall k ensures Agrees(k) {
        assert old(Agrees(k));
        assert k == key ==> StateOf(k) == None && HistoryOf(k) == [];
        assert k != key ==> StateOf(k) == old(StateOf(k)) && HistoryOf(k) == old(HistoryOf(k));
      }
    }

    /** The challenge endpoint: check and record with nothing in between. */
    method GuardedAttempt(key: Key, now: real) returns (wait: int)
      requires Valid() && now >= clock
      modifies this
      ensures Valid() && clock == now
      ensures wait >= 0 && (wait > 0 <==> old(BlockedAt(key, now)))
      ensures wait > 0 ==> states == old(states) && histories == old(histories)
      ensures wait == 0 ==> StateOf(key) == Some(AfterFailure(old(StateOf(key)), now, LimitsOf()))
      ensures wait == 0 ==> states[key].attempts >= 1
      ensures wait == 0 ==> HistoryOf(key) == old(HistoryOf(key)) + [Record(now, states[key].attempts)]
      ensures forall k | k != key :: HistoryOf(k) == old(HistoryOf(k))
      ensures old(Guarded(key)) ==> Guarded(key)
    {
      hide Matches;
      wait := RetryAfter(key, now);
      if wait > 0 {
        return;
      }
      RecordFailure(key, now);
    }

    /** Every spaced history is the work of guarded attempts alone, each of them let through. */
    method Replay(key: Key, h: History)
      requires Valid() && StateOf(key) == None && HistoryOf(key) == []
      requires Chain(h, windowSeconds as real) && Spaced(h, attempts, blockSeconds as real)
               && (h != [] ==> h[0].time >= clock)
      modifies this
      ensures Valid() && Guarded(key) && HistoryOf(key) == h
    {
      hide Matches, Chain, Spaced;
      assert HistoryOf(key) == h[..0];
      NothingIsSpaced(attempts, blockSeconds as real);
      for i := 0 to |h|
        invariant Valid() && Guarded(key) && HistoryOf(key) == h[..i]
        invariant i < |h| ==> clock <= h[i].time
      {
        assert Agrees(key);
        NextPosition(h, i, StateOf(key), clock, LimitsOf());
        FreeWhenSpaced(h, i, StateOf(key), clock, LimitsOf());
        if i + 1 < |h| {
          Sorted(h, windowSeconds as real, i, i + 1);
        }
        var wait := GuardedAttempt(key, h[i].time);
        assert h[..i + 1] == h[..i] + [h[i]];
      }
      assert h[..|h|] == h;
    }

    /**
      A key used through the guard is blocked exactly when one of its failures
      reached the limit less than a block ago.
     */
    lemma BlockedExactly(key: Key, t: real)
      requires Valid() && Guarded(key) && t >= clock
      ensures BlockedAt(key, t) <==>
                exists i :: 0 <= i < |HistoryOf(key)| && HistoryOf(key)[i].position >= attempts
                            && t < HistoryOf(key)[i].time + blockSeconds as real
    {
      var h := HistoryOf(key);
      assert Agrees(key);
      if h != [] {
        assert h[..|h|] == h;
        BlocksLastExactly(h, LimitsOf(), |h|, t);
      }
    }

    /** The sliding-window guarantee for a key that has only been used through the guard. */
    lemma FailuresAreBounded(key: Key, x: real)
      requires Valid() && Guarded(key) && blockSeconds >= windowSeconds
      ensures |Within(HistoryOf(key), x, windowSeconds as real)| <= Bound(attempts)
    {
      assert Agrees(key);
      SlidingWindow(HistoryOf(key), windowSeconds as real, blockSeconds as real, attempts, x);
    }
  }

  /** A limiter, used through the guard only, reaches the bound. */
  method ReachTheBound(key: Key, attempts: int, windowSeconds: int, blockSeconds: int)
    returns (limiter: InMemoryRateLimiter)
    requires attempts >= 3 && windowSeconds >= 1 && blockSeconds >= windowSeconds
    ensures fresh(limiter) && limiter.Valid() && limiter.Guarded(key)
    ensures limiter.attempts == attempts && limiter.windowSeconds == windowSeconds
            && limiter.blockSeconds == blockSeconds
    ensures limiter.HistoryOf(key) == WorstCase(attempts, windowSeconds as real, 2 * attempts - 1)
    ensures |Within(limiter.HistoryOf(key), windowSeconds as real, windowSeconds as real)| == Bound(attempts)
  {
    SlidingWindowIsTight(attempts, windowSeconds as real, blockSeconds as real);
    WorstCaseIsARun(attempts, windowSeconds as real, 2 * attempts - 1);
    hide WorstCase, Chain, Spaced, Within;
    limiter := new InMemoryRateLimiter(attempts, windowSeconds, blockSeconds);
    limiter.Replay(key, WorstCase(attempts, windowSeconds as real, 2 * attempts - 1));
  }
}
