/**
  Polling one VirusTotal submission: exponential backoff with a cap, a deadline,
  and an attempt limit shared by every outstanding poll task. The state is kept
  twice, in the provider row and in the older scan columns. Times are whole
  microseconds; the remote answer is arbitrary; the configuration is fixed.
 */
module VirusTotal {
  import opened Options
  import opened Bits
  import opened Lifecycle

  const SECOND := 1_000_000

  datatype Config = Config(interval: int, maxInterval: int, maxAttempts: int, maxWait: int,
                           enabled: bool, hasKey: bool, defaultPass: Option<bool>)

  function Max(a: int, b: int): int {
    if a < b then b else a
  }

  function Min(a: int, b: int): int {
    if b < a then b else a
  }

  // ---- Backoff ----

  function Base(config: Config): int {
    Max(1, config.interval)
  }

  function Ceiling(config: Config): int {
    Max(Base(config), config.maxInterval)
  }

  /** next_virustotal_delay, in seconds */
  function Delay(config: Config, attempts: int): int {
    Min(Base(config) * Pow2(Max(attempts, 0)), Ceiling(config))
  }

  function DelaySum(config: Config, k: nat): int {
    if k == 0 then 0 else DelaySum(config, k - 1) + Delay(config, k - 1)
  }

  lemma TimesNextPow2(b: int, k: nat)
    ensures b * Pow2(k + 1) == b * Pow2(k) + b * Pow2(k)
    ensures b > 0 ==> b * Pow2(k) >= b
  {
    assert Pow2(k + 1) == Pow2(k) + Pow2(k);
    assert b * (Pow2(k) + Pow2(k)) == b * Pow2(k) + b * Pow2(k);
    if b > 0 {
      assert b * Pow2(k) == b + b * (Pow2(k) - 1);
      assert b * (Pow2(k) - 1) >= 0;
    }
  }

  /** Delays start at the base, never shrink, and stay at or under the ceiling. */
  lemma DelaysGrowToTheCeiling(config: Config, a: nat)
    ensures 1 <= Base(config) <= Delay(config, a) <= Delay(config, a + 1) <= Ceiling(config)
    ensures var base := if config.interval < 1 then 1 else config.interval;
            var ceiling := if config.maxInterval < base then base else config.maxInterval;
            && Delay(config, 0) == base
            && Delay(config, a + 1) == if 2 * Delay(config, a) < ceiling then 2 * Delay(config, a) else ceiling
  {
    TimesNextPow2(Base(config), a);
    TimesNextPow2(Base(config), 0);
  }

  /** Until the ceiling cuts in, the first k delays add up to base * (2^k - 1). */
  lemma {:induction false} DelaysSumGeometrically(config: Config, k: nat)
    requires k > 0 ==> Base(config) * Pow2(k - 1) <= Ceiling(config)
    ensures DelaySum(config, k) == Base(config) * Pow2(k) - Base(config)
  {
    if k > 0 {
      TimesNextPow2(Base(config), k - 1);
      if k > 1 {
        TimesNextPow2(Base(config), k - 2);
      }
      DelaysSumGeometrically(config, k - 1);
    }
  }

  // ---- The two records ----

  datatype Track = Track(analysis: Option<string>, pass: Option<bool>, mode: Option<Mode>, submitted: Option<int>,
                         deadline: Option<int>, nextPoll: Option<int>, attempts: int)

  datatype ScanOutcome = ScanOutcome(pass: Option<bool>, mode: Mode, analysis: Option<string>, submitted: Option<int>,
                                     deadline: Option<int>, nextPoll: Option<int>, attempts: Option<int>)

  /** _set_review_provider_result */
  function WriteRow(row: Track, o: ScanOutcome): Track {
    Track(o.analysis, o.pass, Some(o.mode), o.submitted, o.deadline, if o.mode == PendingMode then o.nextPoll else None,
          if o.attempts.Some? then o.attempts.value else row.attempts)
  }

  /** apply_tracking, with the result columns */
  function WriteScan(scan: Track, o: ScanOutcome): Track {
    Track(if NonEmpty(o.analysis) then o.analysis else scan.analysis, o.pass, Some(o.mode),
          if o.submitted.Some? then o.submitted else scan.submitted,
          if o.deadline.Some? then o.deadline else scan.deadline,
          if o.mode == PendingMode then o.nextPoll else None,
          if o.attempts.Some? then o.attempts.value else scan.attempts)
  }

  /** clear_tracking, with the result columns */
  function ClearScan(o: ScanOutcome): Track {
    Track(None, o.pass, Some(o.mode), None, None, None, 0)
  }

  /** Both records, and the times at which VirusTotal was asked. */
  datatype State = State(row: Track, scan: Track, asked: seq<int>)

  /** _complete_provider_outcome */
  function Complete(s: State, o: ScanOutcome): State {
    State(WriteRow(s.row, o), if o.mode == PendingMode then WriteScan(s.scan, o) else ClearScan(o), s.asked)
  }

  function Plain(pass: Option<bool>, mode: Mode, analysis: Option<string>): ScanOutcome {
    ScanOutcome(pass, mode, analysis, None, None, None, None)
  }

  function TimeoutOutcome(analysis: Option<string>, attempts: int): ScanOutcome {
    Plain(Some(false), Error, analysis).(attempts := Some(attempts))
  }

  /** VirusTotal's answer; a finished one counts the engines by what they found, and a missing count is zero. */
  datatype Answer = Completed(malicious: int, suspicious: int) | StillPending | Unreachable

  function PollOnce(answer: Answer, analysis: Option<string>): ScanOutcome {
    match answer
    case Completed(malicious, suspicious) => Plain(Some(malicious == 0 && suspicious == 0), Real, analysis)
    case StillPending => Plain(None, PendingMode, analysis)
    case Unreachable => Plain(Some(false), Error, None)
  }

  function OrElse<T>(a: Option<T>, b: Option<T>): Option<T> {
    if a.Some? then a else b
  }

  function Analysis(s: State): Option<string> {
    if NonEmpty(s.row.analysis) then s.row.analysis else s.scan.analysis
  }

  function Wait(config: Config): int {
    Max(1, config.maxWait) * SECOND
  }

  function AttemptLimit(config: Config): int {
    Max(1, config.maxAttempts)
  }

  /** What a poll writes after VirusTotal answered. */
  function AfterAnswer(config: Config, s: State, now: int, deadline: int, answer: Answer): State {
    var attempts := Max(s.row.attempts, s.scan.attempts) + 1;
    var o :=
      if answer != StillPending then PollOnce(answer, Analysis(s))
      else if attempts >= AttemptLimit(config) then TimeoutOutcome(Analysis(s), attempts)
      else ScanOutcome(None, PendingMode, Analysis(s), OrElse(s.row.submitted, s.scan.submitted), Some(deadline),
                       Some(Min(now + Delay(config, attempts) * SECOND, deadline)), Some(attempts));
    State(WriteRow(s.row, o), WriteScan(s.scan, o), s.asked + [now])
  }

  /** One poll task, at a given time and with the answer VirusTotal would give. */
  function Poll(config: Config, s: State, now: int, answer: Answer): State {
    if !NonEmpty(Analysis(s)) || OrElse(s.row.mode, s.scan.mode) != Some(PendingMode) then s
    else if !config.enabled then Complete(s, Plain(Some(true), Skipped, Analysis(s)))
    else if !config.hasKey then Complete(s, Plain(config.defaultPass, Skipped, Analysis(s)))
    else
      var stored := OrElse(s.row.deadline, s.scan.deadline);
      var deadline := if stored.Some? then stored.value else now + Wait(config);
      if now >= deadline
      then Complete(s, TimeoutOutcome(Analysis(s), Max(s.row.attempts, s.scan.attempts)))
      else AfterAnswer(config, s, now, deadline, answer)
  }

  /** A fresh upload. */
  function Submit(config: Config, row: Track, scan: Track, now: int, analysis: string): State {
    var deadline := now + Wait(config);
    var o := ScanOutcome(None, PendingMode, Some(analysis), Some(now), Some(deadline),
                         Some(Min(now + Delay(config, 0) * SECOND, deadline)), Some(0));
    State(WriteRow(row, o), WriteScan(scan, o), [])
  }

  datatype Event = Event(now: int, answer: Answer)

  /** Any number of poll tasks running in any order, at any times. */
  function Run(config: Config, first: State, events: seq<Event>): State {
    if events == [] then first
    else
      var last := events[|events| - 1];
      Poll(config, Run(config, first, events[..|events| - 1]), last.now, last.answer)
  }

  class Poller {
    const config: Config
    var row: Track
    var scan: Track
    ghost var asked: seq<int>

    constructor (config: Config, row: Track, scan: Track)
      ensures this.config == config && this.row == row && this.scan == scan && asked == []
    {
      this.config, this.row, this.scan, asked := config, row, scan, [];
    }

    ghost function Contents(): State
      reads this
    {
      State(row, scan, asked)
    }

    method CompleteOutcome(o: ScanOutcome)
      modifies this
      ensures Contents() == Complete(old(Contents()), o)
      ensures row.mode == scan.mode == Some(o.mode) && row.pass == scan.pass == o.pass && asked == old(asked)
      ensures o.mode != PendingMode ==> row.nextPoll == scan.nextPoll == None
      ensures o.mode != PendingMode ==> scan.analysis == None && scan.attempts == 0
      ensures o.mode != PendingMode ==> forall now, answer :: Poll(config, Contents(), now, answer) == Contents()
    {
      row := WriteRow(row, o);
      if o.mode == PendingMode {
        scan := WriteScan(scan, o);
      } else {
        scan := ClearScan(o);
      }
    }

    /** Answers the next poll time when another poll task is to be queued. */
    method PollAnalysis(now: int, answer: Answer) returns (followUp: Option<int>)
      modifies this
      ensures Contents() == Poll(config, old(Contents()), now, answer)
      ensures followUp.Some? <==> asked != old(asked) && row.mode == Some(PendingMode)
      ensures followUp.Some? ==> followUp == row.nextPoll
    {
      hide Delay, Wait, WriteRow, WriteScan, ClearScan, Max, Min, AttemptLimit;
      var analysis := if NonEmpty(row.analysis) then row.analysis else scan.analysis;
      var mode := if row.mode.Some? then row.mode else scan.mode;
      if !NonEmpty(analysis) || mode != Some(PendingMode) {
        return None;
      }
      if !config.enabled {
        CompleteOutcome(Plain(Some(true), Skipped, analysis));
        return None;
      }
      if !config.hasKey {
        CompleteOutcome(Plain(config.defaultPass, Skipped, analysis));
        return None;
      }
      var deadline := now + Wait(config);
      if row.deadline.Some? {
        deadline := row.deadline.value;
      } else if scan.deadline.Some? {
        deadline := scan.deadline.value;
      }
      var attemptsSoFar := Max(row.attempts, scan.attempts);
      if now >= deadline {
        CompleteOutcome(TimeoutOutcome(analysis, attemptsSoFar));
        return None;
      }
      var outcome := PollOnce(answer, analysis);
      asked := asked + [now];
      if outcome.mode == PendingMode {
        var attempts := attemptsSoFar + 1;
        if attempts >= AttemptLimit(config) {
          outcome := TimeoutOutcome(analysis, attempts);
        } else {
          var nextPoll := Min(now + Delay(config, attempts) * SECOND, deadline);
          var submitted := if row.submitted.Some? then row.submitted else scan.submitted;
          outcome := ScanOutcome(None, PendingMode, analysis, submitted, Some(deadline), Some(nextPoll),
              Some(attempts));
        }
      }
      WrittenRow(row, outcome);
      row := WriteRow(row, outcome);
      scan := WriteScan(scan, outcome);
      followUp := if outcome.mode == PendingMode then outcome.nextPoll else None;
    }
  }

  lemma WrittenRow(row: Track, o: ScanOutcome)
    ensures WriteRow(row, o).mode == Some(o.mode)
    ensures WriteRow(row, o).nextPoll == if o.mode == PendingMode then o.nextPoll else None
  {
  }

  // ---- One submission ----

  predicate IsPending(s: State) {
    s.row.mode == Some(PendingMode)
  }

  predicate BothRecord(t: Track, analysis: string, submitted: int, deadline: int, attempts: int) {
    && t.analysis == Some(analysis) && t.submitted == Some(submitted) && t.deadline == Some(deadline)
    && t.attempts == attempts && t.mode == Some(PendingMode) && t.nextPoll.Some? && t.nextPoll.value <= deadline
  }

  /** While pending, both records carry the deadline set at upload and the number of questions asked. */
  predicate Inv(config: Config, s: State, submitted: int, analysis: string) {
    && s.row.mode.Some? && |s.asked| <= AttemptLimit(config)
    && (forall t | t in s.asked :: t < submitted + Wait(config))
    && (IsPending(s) ==>
          && BothRecord(s.row, analysis, submitted, submitted + Wait(config), |s.asked|)
          && BothRecord(s.scan, analysis, submitted, submitted + Wait(config), |s.asked|)
          && s.row.nextPoll == s.scan.nextPoll && |s.asked| < AttemptLimit(config))
  }

  lemma SubmitStarts(config: Config, row: Track, scan: Track, now: int, analysis: string)
    requires analysis != ""
    ensures Inv(config, Submit(config, row, scan, now, analysis), now, analysis)
    ensures IsPending(Submit(config, row, scan, now, analysis))
    ensures var s := Submit(config, row, scan, now, analysis);
            var deadline := now + (if config.maxWait < 1 then 1 else config.maxWait) * 1_000_000;
            var planned := now + Delay(config, 0) * 1_000_000;
            s.row.nextPoll == s.scan.nextPoll == Some(if planned < deadline then planned else deadline)
  {
    hide Delay;
  }

  lemma PollKeeps(config: Config, s: State, submitted: int, analysis: string, e: Event)
    requires Inv(config, s, submitted, analysis) && analysis != ""
    ensures Inv(config, Poll(config, s, e.now, e.answer), submitted, analysis)
    ensures !IsPending(s) ==> Poll(config, s, e.now, e.answer) == s
    ensures IsPending(Poll(config, s, e.now, e.answer)) ==>
              IsPending(s) && config.enabled && config.hasKey
              && e.answer == StillPending && e.now < submitted + Wait(config)
              && Poll(config, s, e.now, e.answer).asked == s.asked + [e.now]
              && Poll(config, s, e.now, e.answer).row.nextPoll
                   == Some(Min(e.now + Delay(config, |s.asked| + 1) * SECOND, submitted + Wait(config)))
  {
    hide Delay;
  }

  /**
    One submission, any poll tasks at any times: the deadline never moves, no
    next poll is planned after it, VirusTotal is never asked at or after it, and
    all tasks together ask at most as often as configured.
   */
  lemma {:induction false} PollingStaysInBounds(config: Config, row: Track, scan: Track, submitted: int,
                                                analysis: string, events: seq<Event>)
    requires analysis != ""
    ensures Inv(config, Run(config, Submit(config, row, scan, submitted, analysis), events), submitted, analysis)
    decreases |events|
  {
    if events == [] {
      SubmitStarts(config, row, scan, submitted, analysis);
    } else {
      hide Inv, Poll, Submit;
      var before := events[..|events| - 1];
      PollingStaysInBounds(config, row, scan, submitted, analysis, before);
      PollKeeps(config, Run(config, Submit(config, row, scan, submitted, analysis), before), submitted, analysis,
                events[|events| - 1]);
    }
  }

  /** A terminal result is never overwritten by a late poll. */
  lemma {:induction false} TerminalStays(config: Config, row: Track, scan: Track, submitted: int, analysis: string,
                                         events: seq<Event>, late: seq<Event>)
    requires analysis != ""
    requires !IsPending(Run(config, Submit(config, row, scan, submitted, analysis), events))
    ensures var first := Submit(config, row, scan, submitted, analysis);
            Run(config, first, events + late) == Run(config, first, events)
    decreases |late|
  {
    hide Inv, Poll, Submit;
    if late == [] {
      assert events + late == events;
    } else {
      var n := |late| - 1;
      TerminalStays(config, row, scan, submitted, analysis, events, late[..n]);
      assert (events + late)[..|events| + n] == events + late[..n];
      PollingStaysInBounds(config, row, scan, submitted, analysis, events);
      var s := Run(config, Submit(config, row, scan, submitted, analysis), events);
      PollKeeps(config, s, submitted, analysis, late[n]);
    }
  }

  /** Polling ends: with as many polls as the limit allows, or one at the deadline, the result is terminal. */
  lemma {:induction false} PollingEnds(config: Config, row: Track, scan: Track, submitted: int, analysis: string,
                                       events: seq<Event>)
    requires analysis != ""
    ensures var s := Run(config, Submit(config, row, scan, submitted, analysis), events);
            IsPending(s) ==>
              && |s.asked| == |events| < AttemptLimit(config)
              && forall e | e in events :: e.now < submitted + Wait(config) && e.answer == StillPending
    decreases |events|
  {
    if events == [] {
      SubmitStarts(config, row, scan, submitted, analysis);
    } else {
      hide Poll, Submit, BothRecord;
      var before := events[..|events| - 1];
      PollingEnds(config, row, scan, submitted, analysis, before);
      PollingStaysInBounds(config, row, scan, submitted, analysis, before);
      PollingStaysInBounds(config, row, scan, submitted, analysis, events);
      PollKeeps(config, Run(config, Submit(config, row, scan, submitted, analysis), before), submitted, analysis,
                events[|events| - 1]);
      assert forall e | e in events :: e in before || e == events[|events| - 1];
    }
  }

  /** Each poll runs no earlier than the time planned by the one before. */
  predicate NeverEarly(config: Config, first: State, events: seq<Event>) {
    forall k | 0 <= k < |events| ::
      var s := Run(config, first, events[..k]);
      s.row.nextPoll.Some? ==> events[k].now >= s.row.nextPoll.value
  }

  /** The first k delays after the upload, or the deadline. */
  function EarliestPoll(config: Config, submitted: int, k: nat): int {
    Min(submitted + Wait(config), submitted + DelaySum(config, k) * SECOND)
  }

  /** While the result is pending, the next poll is planned for the next delay, or the deadline. */
  lemma {:induction false} PlansRespectBackoff(config: Config, row: Track, scan: Track, submitted: int,
                                               analysis: string, events: seq<Event>)
    requires analysis != ""
    requires var first := Submit(config, row, scan, submitted, analysis);
             IsPending(Run(config, first, events)) && NeverEarly(config, first, events)
    ensures var s := Run(config, Submit(config, row, scan, submitted, analysis), events);
            s.row.nextPoll.Some? && s.row.nextPoll.value >= EarliestPoll(config, submitted, |events| + 1)
    ensures forall k | 0 <= k < |events| :: events[k].now >= EarliestPoll(config, submitted, k + 1)
    decreases |events|
  {
    hide Poll, Inv, Delay, Run, NeverEarly, Wait, DelaySum, EarliestPoll, Min, BothRecord, Submit;
    var first := Submit(config, row, scan, submitted, analysis);
    if events == [] {
      FirstPlan(config, row, scan, submitted, analysis);
    } else {
      var n := |events| - 1;
      var before, last := events[..n], events[n];
      var s := Run(config, first, before);
      PollingStaysInBounds(config, row, scan, submitted, analysis, before);
      LastPoll(config, first, events);
      PollKeeps(config, s, submitted, analysis, last);
      PrefixNeverEarly(config, first, events);
      PlansRespectBackoff(config, row, scan, submitted, analysis, before);
      PollingEnds(config, row, scan, submitted, analysis, before);
      LaterPlan(config, submitted, last.now, n + 1);
      assert forall k | 0 <= k < n :: events[k] == before[k];
    }
  }

  /**
    In one chain of polls that never runs early, up to and including the one
    that gets the final answer, poll number k + 1 waits at least for the first
    k + 1 delays after the upload, or for the deadline.
   */
  lemma BackoffIsRespected(config: Config, row: Track, scan: Track, submitted: int, analysis: string,
                           events: seq<Event>)
    requires analysis != ""
    requires var first := Submit(config, row, scan, submitted, analysis);
             && NeverEarly(config, first, events)
             && (events != [] ==> IsPending(Run(config, first, events[..|events| - 1])))
    ensures forall k | 0 <= k < |events| :: events[k].now >= EarliestPoll(config, submitted, k + 1)
  {
    hide *;
    if events != [] {
      var first, n := Submit(config, row, scan, submitted, analysis), |events| - 1;
      PrefixNeverEarly(config, first, events);
      PlansRespectBackoff(config, row, scan, submitted, analysis, events[..n]);
      assert forall k | 0 <= k < n :: events[k] == events[..n][k];
    }
  }

  lemma FirstPlan(config: Config, row: Track, scan: Track, submitted: int, analysis: string)
    ensures var first := Submit(config, row, scan, submitted, analysis);
            Run(config, first, []) == first
            && first.row.nextPoll.Some? && first.row.nextPoll.value >= EarliestPoll(config, submitted, 1)
  {
    hide Delay;
    assert DelaySum(config, 1) == DelaySum(config, 0) + Delay(config, 0);
  }

  lemma LaterPlan(config: Config, submitted: int, now: int, k: nat)
    requires now >= EarliestPoll(config, submitted, k)
    ensures Min(now + Delay(config, k) * SECOND, submitted + Wait(config)) >= EarliestPoll(config, submitted, k + 1)
  {
    DelaysGrowToTheCeiling(config, k);
    hide Delay;
    assert DelaySum(config, k + 1) == DelaySum(config, k) + Delay(config, k);
  }

  lemma LastPoll(config: Config, first: State, events: seq<Event>)
    requires events != []
    ensures Run(config, first, events) ==
              Poll(config, Run(config, first, events[..|events| - 1]), events[|events| - 1].now,
                  events[|events| - 1].answer)
  {
    hide Poll;
  }

  lemma PrefixNeverEarly(config: Config, first: State, events: seq<Event>)
    requires NeverEarly(config, first, events) && events != []
    ensures var n := |events| - 1; var s := Run(config, first, events[..n]);
            NeverEarly(config, first, events[..n]) && (s.row.nextPoll.Some? ==> events[n].now >= s.row.nextPoll.value)
  {
    hide Run;
    var n := |events| - 1;
    assert forall k | 0 <= k < n :: events[..n][..k] == events[..k] && events[..n][k] == events[k];
  }

  // ---- The verdict ----

  /** What both records say when a poll at that time, with that answer and so many questions before, ended it. */
  ghost predicate IsVerdictOf(config: Config, submitted: int, asked: nat, e: Event, s: State) {
    var deadline := submitted + (if config.maxWait < 1 then 1 else config.maxWait) * 1_000_000;
    var limit := if config.maxAttempts < 1 then 1 else config.maxAttempts;
    && s.row.pass == s.scan.pass && s.row.mode == s.scan.mode
    && if !config.enabled then s.row.mode == Some(Skipped) && s.row.pass == Some(true)
       else if !config.hasKey then s.row.mode == Some(Skipped) && s.row.pass == config.defaultPass
       else if e.now < deadline && e.answer.Completed?
       then s.row.mode == Some(Real) && s.row.pass == Some(e.answer.malicious == 0 && e.answer.suspicious == 0)
       else
         && s.row.mode == Some(Error) && s.row.pass == Some(false)
         && (e.now >= deadline || e.answer == Unreachable || asked + 1 >= limit)
  }

  /** VirusTotal was asked in time, had no answer yet, and may be asked again. */
  predicate GoesOn(config: Config, submitted: int, asked: nat, e: Event) {
    && config.enabled && config.hasKey && e.answer == StillPending
    && e.now < submitted + (if config.maxWait < 1 then 1 else config.maxWait) * 1_000_000
    && asked + 1 < if config.maxAttempts < 1 then 1 else config.maxAttempts
  }

  lemma PollDecides(config: Config, s: State, submitted: int, analysis: string, e: Event)
    requires Inv(config, s, submitted, analysis) && analysis != "" && IsPending(s)
    ensures var t := Poll(config, s, e.now, e.answer);
            && (IsPending(t) <==> GoesOn(config, submitted, |s.asked|, e))
            && (!IsPending(t) ==> IsVerdictOf(config, submitted, |s.asked|, e, t))
            && (IsPending(t) ==> |t.asked| == |s.asked| + 1 && t.row.pass == t.scan.pass == None)
            && (IsPending(t) ==>
                  var deadline := submitted + (if config.maxWait < 1 then 1 else config.maxWait) * 1_000_000;
                  var planned := e.now + Delay(config, |s.asked| + 1) * 1_000_000;
                  t.row.nextPoll == t.scan.nextPoll == Some(if planned < deadline then planned else deadline))
  {
    hide Delay;
  }

  /** What the two records keep of the polling once it is over. */
  ghost predicate IsClosed(config: Config, submitted: int, analysis: string, asked: nat, e: Event, s: State) {
    var deadline := submitted + (if config.maxWait < 1 then 1 else config.maxWait) * 1_000_000;
    var answered := config.enabled && config.hasKey && e.now < deadline;
    && s.row.nextPoll == s.scan.nextPoll == s.row.submitted == s.row.deadline == None
    && s.row.analysis == (if answered && e.answer == Unreachable then None else Some(analysis))
    && (!answered ==> s.scan == Track(None, s.row.pass, s.row.mode, None, None, None, 0) && s.row.attempts == asked)
    && (answered ==>
          && s.scan == Track(Some(analysis), s.row.pass, s.row.mode, Some(submitted), Some(deadline), None,
                             s.row.attempts)
          && s.row.attempts == if e.answer == StillPending then asked + 1 else asked)
  }

  lemma PollCloses(config: Config, s: State, submitted: int, analysis: string, e: Event)
    requires Inv(config, s, submitted, analysis) && analysis != "" && IsPending(s)
    ensures var t := Poll(config, s, e.now, e.answer);
            !IsPending(t) ==> IsClosed(config, submitted, analysis, |s.asked|, e, t)
  {
    hide Delay;
  }

  /**
    A poll of any two records does nothing unless one of them names an analysis
    and the result is pending, where the newer record counts before the older;
    else it asks, if it may, and stores the answer under that analysis.
   */
  lemma WhatIsPolled(config: Config, s: State, now: int, malicious: int, suspicious: int)
    ensures var missing: set<Option<string>> := {None, Some("")};
            var analysis := if s.row.analysis in missing then s.scan.analysis else s.row.analysis;
            var mode := if s.row.mode == None then s.scan.mode else s.row.mode;
            var deadline := if s.row.deadline.Some? then s.row.deadline else s.scan.deadline;
            var t := Poll(config, s, now, Completed(malicious, suspicious));
            && (analysis in missing || mode != Some(PendingMode) ==> t == s)
            && (analysis !in missing && mode == Some(PendingMode) && config.enabled && config.hasKey
                && (deadline.None? || now < deadline.value) ==>
                  && t.asked == s.asked + [now] && t.row.analysis == t.scan.analysis == analysis
                  && t.row.mode == t.scan.mode == Some(Real)
                  && t.row.pass == t.scan.pass == Some(malicious == 0 && suspicious == 0))
  {
    var missing: set<Option<string>> := {None, Some("")};
    assert NonEmpty(s.row.analysis) <==> s.row.analysis !in missing;
    assert NonEmpty(s.scan.analysis) <==> s.scan.analysis !in missing;
  }

  predicate AllGoOn(config: Config, submitted: int, events: seq<Event>) {
    forall i: nat | i < |events| :: GoesOn(config, submitted, i, events[i])
  }

  /** Poll number i is the first that does not go on, and the records say what it said. */
  ghost predicate Decides(config: Config, submitted: int, events: seq<Event>, i: nat, s: State) {
    i < |events| && AllGoOn(config, submitted, events[..i]) && !GoesOn(config, submitted, i, events[i])
    && IsVerdictOf(config, submitted, i, events[i], s)
  }

  lemma OneMoreEvent(config: Config, submitted: int, events: seq<Event>, e: Event)
    ensures AllGoOn(config, submitted, events + [e]) <==>
              AllGoOn(config, submitted, events) && GoesOn(config, submitted, |events|, e)
    ensures forall i: nat, s | Decides(config, submitted, events, i, s) ::
              Decides(config, submitted, events + [e], i, s)
  {
    hide GoesOn, IsVerdictOf;
    var more := events + [e];
    assert forall i: nat | i < |events| :: more[i] == events[i] && more[..i] == events[..i];
    assert more[|events|] == e;
  }

  /**
    The result stays pending exactly as long as every poll came in time, had no
    answer, and left another question; then the first other poll decides it, and
    both records say what it said.
   */
  lemma {:induction false} FirstAnswerDecides(config: Config, row: Track, scan: Track, submitted: int,
                                              analysis: string, events: seq<Event>)
    requires analysis != ""
    ensures var s := Run(config, Submit(config, row, scan, submitted, analysis), events);
            && s.row.pass == s.scan.pass && s.row.mode == s.scan.mode
            && (IsPending(s) ==> s.row.pass == None && |s.asked| == |events|)
            && (IsPending(s) <==> AllGoOn(config, submitted, events))
            && (!IsPending(s) ==> exists i: nat :: Decides(config, submitted, events, i, s))
    decreases |events|
  {
    if events == [] {
      SubmitStarts(config, row, scan, submitted, analysis);
    } else {
      hide Poll, Submit, Inv, GoesOn, IsVerdictOf, AllGoOn, Decides;
      var n := |events| - 1;
      var before := events[..n];
      var s := Run(config, Submit(config, row, scan, submitted, analysis), before);
      assert events == before + [events[n]];
      FirstAnswerDecides(config, row, scan, submitted, analysis, before);
      PollingStaysInBounds(config, row, scan, submitted, analysis, before);
      PollKeeps(config, s, submitted, analysis, events[n]);
      OneMoreEvent(config, submitted, before, events[n]);
      if IsPending(s) {
        PollDecides(config, s, submitted, analysis, events[n]);
        var t := Poll(config, s, events[n].now, events[n].answer);
        if !IsPending(t) {
          LastDecides(config, submitted, before, events[n], t);
        }
      }
    }
  }

  lemma LastDecides(config: Config, submitted: int, events: seq<Event>, e: Event, s: State)
    requires AllGoOn(config, submitted, events) && !GoesOn(config, submitted, |events|, e)
    requires IsVerdictOf(config, submitted, |events|, e, s)
    ensures Decides(config, submitted, events + [e], |events|, s)
  {
    assert (events + [e])[..|events|] == events;
  }

  /** A real pass means that VirusTotal, asked in time, found nothing; a real failure, that it found something. */
  lemma RealResultsAreAnswers(config: Config, row: Track, scan: Track, submitted: int, analysis: string,
                              events: seq<Event>)
    requires analysis != ""
    ensures var s := Run(config, Submit(config, row, scan, submitted, analysis), events);
            var deadline := submitted + (if config.maxWait < 1 then 1 else config.maxWait) * 1_000_000;
            s.row.mode == Some(Real) || s.scan.mode == Some(Real) ==>
              exists e | e in events && e.now < deadline && e.answer.Completed? ::
                s.row.pass == s.scan.pass == Some(e.answer.malicious == 0 && e.answer.suspicious == 0)
  {
    hide Run, Submit, GoesOn;
    FirstAnswerDecides(config, row, scan, submitted, analysis, events);
    var s := Run(config, Submit(config, row, scan, submitted, analysis), events);
    if s.row.mode == Some(Real) {
      var i: nat :| Decides(config, submitted, events, i, s);
      assert events[i] in events;
    }
  }
}
