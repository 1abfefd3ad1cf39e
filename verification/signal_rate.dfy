/**
  The hourly limit of the circuit breaker over whole runs. A batch of signals is checked first and
  recorded afterwards, so the largest batch decides by how much an hour can exceed the limit.
 */
module SignalRate {
  import opened Wrappers
  import opened CircuitBreaking

  /**
    What happens to a strategy: some signals of a tick are checked and then some of the approved ones recorded; a trade
    closes.
   */
  datatype Act = Batch(checks: seq<Clock>, records: seq<Clock>) | CloseTrade(won: bool, clock: Clock)

  /** The strategy after these checks, and how many were approved. */
  function Approvals(lim: Limits, s: Strategy, checks: seq<Clock>): (r: (Strategy, nat))
    ensures r.1 <= |checks|
  {
    if checks == [] then (s, 0)
    else
      var (t, n) := Approvals(lim, s, checks[..|checks| - 1]);
      var (u, v) := Checked(t, lim, checks[|checks| - 1]);
      (u, if v == Approved then n + 1 else n)
  }

  function SignalledAll(s: Strategy, records: seq<Clock>): Strategy {
    if records == [] then s else Signalled(SignalledAll(s, records[..|records| - 1]), records[|records| - 1])
  }

  function Times(cs: seq<Clock>): (ts: seq<int>)
    ensures |ts| == |cs| && forall i | 0 <= i < |cs| :: ts[i] == cs[i].now
  {
    seq(|cs|, i requires 0 <= i < |cs| => cs[i].now)
  }

  /** No more signals are recorded than were approved. */
  function Recordable(n: nat, records: seq<Clock>): (done: seq<Clock>)
    ensures |done| <= n && done <= records
  {
    if n < |records| then records[..n] else records
  }

  function Done(lim: Limits, s: Strategy, a: Act): (Strategy, seq<int>) {
    match a
    case Batch(checks, records) =>
      var (t, n) := Approvals(lim, s, checks);
      (SignalledAll(t, Recordable(n, records)), Times(Recordable(n, records)))
    case CloseTrade(won, c) => (Traded(s, won, c), [])
  }

  /** The strategy after these acts, and every signal time ever recorded, the forgotten ones included. */
  function After(lim: Limits, acts: seq<Act>): (Strategy, seq<int>) {
    if acts == [] then (NEW_STRATEGY, [])
    else
      var (s, log) := After(lim, acts[..|acts| - 1]);
      var (t, times) := Done(lim, s, acts[|acts| - 1]);
      (t, log + times)
  }

  function ActTimes(a: Act): seq<int> {
    match a
    case Batch(checks, records) => Times(checks) + Times(records)
    case CloseTrade(_, c) => [c.now]
  }

  function AllTimes(acts: seq<Act>): seq<int> {
    if acts == [] then [] else AllTimes(acts[..|acts| - 1]) + ActTimes(acts[|acts| - 1])
  }

  /** The clock never goes back. */
  ghost predicate InOrder(acts: seq<Act>) {
    Sorted(AllTimes(acts))
  }

  /** No tick checks more than `b` signals of the strategy. */
  ghost predicate BatchesOf(acts: seq<Act>, b: nat) {
    forall k | 0 <= k < |acts| && acts[k].Batch? :: |acts[k].checks| <= b
  }

  ghost predicate Sorted(times: seq<int>) {
    forall i, j | 0 <= i < j < |times| :: times[i] <= times[j]
  }

  /** Signals that far apart in the log lie at least an hour apart in time. */
  ghost predicate Spaced(times: seq<int>, apart: int) {
    forall i, j | 0 <= i < |times| && 0 <= j < |times| && i + apart <= j :: times[j] - times[i] >= HOUR
  }

  /** `kept` is what remains of `times` once everything up to `start` is forgotten. */
  ghost predicate KeepsEnd(times: seq<int>, kept: seq<int>, start: int) {
    && |kept| <= |times| && kept == times[|times| - |kept|..]
    && forall i | 0 <= i < |times| - |kept| :: times[i] <= start
  }

  /** All the times lie between two moments. */
  ghost predicate Between(first: int, times: seq<int>, last: int) {
    first <= last && Sorted(times) && forall i | 0 <= i < |times| :: first <= times[i] <= last
  }

  /** The breaker remembers the end of the log; everything it forgot is an hour old. */
  ghost predicate Remembers(s: Strategy, log: seq<int>, now: int) {
    && Sorted(log) && (forall i | 0 <= i < |log| :: log[i] <= now)
    && KeepsEnd(log, s.signals, now - HOUR)
  }

  /** Fewer than `limit` signals of the log lie within the hour. */
  ghost predicate FewRecent(log: seq<int>, limit: int, now: int) {
    limit > 0 && (|log| >= limit ==> log[|log| - limit] <= now - HOUR)
  }

  lemma {:induction false} AllKept(times: seq<int>, start: int)
    requires forall i | 0 <= i < |times| :: times[i] > start
    ensures Within(times, start) == times
  {
    if times != [] {
      AllKept(times[1..], start);
    }
  }

  /** Forgetting the times before `start` keeps an end of a sorted sequence. */
  lemma {:induction false} WithinKeepsEnd(times: seq<int>, start: int)
    requires Sorted(times)
    ensures KeepsEnd(times, Within(times, start), start)
  {
    if times != [] {
      if times[0] > start {
        AllKept(times, start);
      } else {
        var kept := Within(times[1..], start);
        WithinKeepsEnd(times[1..], start);
        assert times[1..][|times| - 1 - |kept|..] == times[|times| - |kept|..];
        forall i | 0 <= i < |times| - |kept| ensures times[i] <= start {
          assert i > 0 ==> times[1..][i - 1] == times[i];
        }
      }
    }
  }

  /** The end of an end is an end. */
  lemma EndOfEnd(log: seq<int>, times: seq<int>, kept: seq<int>, start: int)
    requires KeepsEnd(log, times, start) && KeepsEnd(times, kept, start)
    ensures KeepsEnd(log, kept, start)
  {
    var n := |log| - |times|;
    assert kept == log[|log| - |kept|..] by {
      assert log[n..][|times| - |kept|..] == log[n + |times| - |kept|..];
    }
    forall i | 0 <= i < |log| - |kept| ensures log[i] <= start {
      if i >= n {
        assert log[i] == times[i - n];
      }
    }
  }

  lemma EndIsSorted(log: seq<int>, kept: seq<int>, start: int)
    requires Sorted(log) && KeepsEnd(log, kept, start)
    ensures Sorted(kept)
  {
    var n := |log| - |kept|;
    forall i, j | 0 <= i < j < |kept| ensures kept[i] <= kept[j] {
      assert kept[i] == log[n + i] && kept[j] == log[n + j];
    }
  }

  lemma PruneKeeps(s: Strategy, log: seq<int>, earlier: int, now: int, s': Strategy)
    requires Remembers(s, log, earlier) && earlier <= now && s'.signals == Within(s.signals, now - HOUR)
    ensures Remembers(s', log, now)
  {
    EndIsSorted(log, s.signals, earlier - HOUR);
    WithinKeepsEnd(s.signals, now - HOUR);
    EndOfEnd(log, s.signals, Within(s.signals, now - HOUR), now - HOUR);
  }

  /** A check forgets what is an hour old or leaves the times alone; it approves only with room below the limit. */
  lemma CheckOnTimes(lim: Limits, s: Strategy, c: Clock)
    ensures var (t, v) := Checked(s, lim, c);
      && (t.signals == s.signals || t.signals == Within(s.signals, c.now - HOUR))
      && (v == Approved ==> t.signals == Within(s.signals, c.now - HOUR) && |t.signals| < lim.signalsPerHour)
  {
  }

  lemma FewRemembered(s: Strategy, log: seq<int>, limit: int, now: int)
    requires Remembers(s, log, now) && |s.signals| < limit
    ensures FewRecent(log, limit, now)
  {
  }

  lemma CheckKeeps(lim: Limits, s: Strategy, log: seq<int>, earlier: int, c: Clock)
    requires Remembers(s, log, earlier) && earlier <= c.now
    ensures var (t, v) := Checked(s, lim, c);
      Remembers(t, log, c.now) && (v == Approved ==> FewRecent(log, lim.signalsPerHour, c.now))
  {
    var (t, v) := Checked(s, lim, c);
    CheckOnTimes(lim, s, c);
    if t.signals == Within(s.signals, c.now - HOUR) {
      PruneKeeps(s, log, earlier, c.now, t);
    }
    if v == Approved {
      FewRemembered(t, log, lim.signalsPerHour, c.now);
    }
  }

  lemma {:induction false} ApprovalsKeep(lim: Limits, s: Strategy, log: seq<int>, checks: seq<Clock>, first: int,
                                         last: int)
    requires Remembers(s, log, first) && Between(first, Times(checks), last)
    ensures var (t, n) := Approvals(lim, s, checks);
      Remembers(t, log, last) && (n > 0 ==> FewRecent(log, lim.signalsPerHour, last))
    decreases |checks|
  {
    if checks != [] {
      var n := |checks| - 1;
      var c := checks[n];
      assert forall i | 0 <= i < n :: Times(checks)[i] == Times(checks[..n])[i];
      assert Times(checks)[n] == c.now;
      ApprovalsKeep(lim, s, log, checks[..n], first, c.now);
      CheckKeeps(lim, Approvals(lim, s, checks[..n]).0, log, c.now, c);
    }
  }

  lemma RecordKeeps(s: Strategy, log: seq<int>, earlier: int, c: Clock)
    requires Remembers(s, log, earlier) && earlier <= c.now
    ensures Remembers(Signalled(s, c), log + [c.now], c.now)
  {
    var log', kept := log + [c.now], s.signals + [c.now];
    assert kept == log'[|log'| - |kept|..];
  }

  lemma {:induction false} RecordsKeep(s: Strategy, log: seq<int>, records: seq<Clock>, first: int, last: int)
    requires Remembers(s, log, first) && Between(first, Times(records), last)
    ensures Remembers(SignalledAll(s, records), log + Times(records), last)
    decreases |records|
  {
    if records == [] {
      assert log + Times(records) == log;
    } else {
      var n := |records| - 1;
      var c := records[n];
      assert Times(records) == Times(records[..n]) + [c.now];
      assert forall i | 0 <= i < n :: Times(records)[i] == Times(records[..n])[i];
      assert Times(records)[n] == c.now;
      RecordsKeep(s, log, records[..n], first, c.now);
      RecordKeeps(SignalledAll(s, records[..n]), log + Times(records[..n]), c.now, c);
      assert log + Times(records) == log + Times(records[..n]) + [c.now];
    }
  }

  /** After approvals at `now` a batch adds at most `b` signals to fewer than `limit` recent ones. */
  lemma StaysSpaced(log: seq<int>, limit: int, b: nat, times: seq<int>, now: int)
    requires Sorted(log) && FewRecent(log, limit, now) && Spaced(log, limit - 1 + b)
    requires |times| <= b && forall i | 0 <= i < |times| :: now <= times[i]
    ensures Spaced(log + times, limit - 1 + b)
  {
    var log', apart := log + times, limit - 1 + b;
    forall i, j | 0 <= i < |log'| && 0 <= j < |log'| && i + apart <= j ensures log'[j] - log'[i] >= HOUR {
      if j >= |log| {
        assert i <= |log| - limit && log[i] <= log[|log| - limit];
        assert log'[j] == times[j - |log|];
      } else {
        assert log[j] - log[i] >= HOUR;
      }
    }
  }

  lemma SortedParts(xs: seq<int>, ys: seq<int>)
    requires Sorted(xs + ys)
    ensures Sorted(xs) && Sorted(ys) && forall i, j | 0 <= i < |xs| && 0 <= j < |ys| :: xs[i] <= ys[j]
  {
    var all := xs + ys;
    forall i, j | 0 <= i < j < |xs| ensures xs[i] <= xs[j] { assert all[i] <= all[j]; }
    forall i, j | 0 <= i < j < |ys| ensures ys[i] <= ys[j] { assert all[|xs| + i] <= all[|xs| + j]; }
    forall i, j | 0 <= i < |xs| && 0 <= j < |ys| ensures xs[i] <= ys[j] { assert all[i] <= all[|xs| + j]; }
  }

  /** The moment between the checks and the records of a batch. */
  lemma MiddleOf(checks: seq<Clock>, records: seq<Clock>, first: int, last: int) returns (middle: int)
    requires Between(first, Times(checks) + Times(records), last)
    ensures Between(first, Times(checks), middle) && Between(middle, Times(records), last)
  {
    SortedParts(Times(checks), Times(records));
    var all := Times(checks) + Times(records);
    forall i | 0 <= i < |records| ensures Times(records)[i] == all[|checks| + i] { }
    forall i | 0 <= i < |checks| ensures Times(checks)[i] == all[i] { }
    middle := if checks == [] then first else Times(checks)[|checks| - 1];
  }

  ghost predicate WindowInv(s: Strategy, log: seq<int>, limit: int, b: nat, now: int) {
    Remembers(s, log, now) && if limit <= 0 then log == [] else Spaced(log, limit - 1 + b)
  }

  lemma BatchKeeps(lim: Limits, s: Strategy, log: seq<int>, b: nat, checks: seq<Clock>, records: seq<Clock>, first: int,
                   last: int)
    requires WindowInv(s, log, lim.signalsPerHour, b, first) && |checks| <= b
    requires Between(first, Times(checks) + Times(records), last)
    ensures var (t, times) := Done(lim, s, Batch(checks, records));
      WindowInv(t, log + times, lim.signalsPerHour, b, last)
  {
    var middle := MiddleOf(checks, records, first, last);
    ApprovalsKeep(lim, s, log, checks, first, middle);
    var (t, n) := Approvals(lim, s, checks);
    var done := Recordable(n, records);
    forall i | 0 <= i < |done| ensures Times(done)[i] == Times(records)[i] { }
    RecordsKeep(t, log, done, middle, last);
    if n > 0 {
      StaysSpaced(log, lim.signalsPerHour, b, Times(done), middle);
    } else {
      assert log + Times(done) == log;
    }
  }

  lemma ActKeeps(lim: Limits, s: Strategy, log: seq<int>, b: nat, a: Act, first: int, last: int)
    requires WindowInv(s, log, lim.signalsPerHour, b, first) && (a.Batch? ==> |a.checks| <= b)
    requires Between(first, ActTimes(a), last)
    ensures var (t, times) := Done(lim, s, a); WindowInv(t, log + times, lim.signalsPerHour, b, last)
  {
    match a
    case Batch(checks, records) => BatchKeeps(lim, s, log, b, checks, records, first, last);
    case CloseTrade(won, c) => assert log + [] == log;
  }

  /** The moment between all that happened before and the last act. */
  lemma BeforeLast(before: seq<int>, times: seq<int>, last: int) returns (first: int)
    requires Sorted(before + times) && forall i | 0 <= i < |before + times| :: (before + times)[i] <= last
    ensures Sorted(before) && (forall i | 0 <= i < |before| :: before[i] <= first) && Between(first, times, last)
  {
    SortedParts(before, times);
    var all := before + times;
    forall i | 0 <= i < |times| ensures times[i] == all[|before| + i] { }
    forall i | 0 <= i < |before| ensures before[i] == all[i] { }
    first := if before != [] then before[|before| - 1] else if times == [] then last else times[0];
  }

  lemma {:induction false} WindowHolds(lim: Limits, acts: seq<Act>, b: nat, now: int)
    requires InOrder(acts) && BatchesOf(acts, b) && forall i | 0 <= i < |AllTimes(acts)| :: AllTimes(acts)[i] <= now
    ensures WindowInv(After(lim, acts).0, After(lim, acts).1, lim.signalsPerHour, b, now)
    decreases |acts|
  {
    if acts != [] {
      var before, a := acts[..|acts| - 1], acts[|acts| - 1];
      var first := BeforeLast(AllTimes(before), ActTimes(a), now);
      WindowHolds(lim, before, b, first);
      ActKeeps(lim, After(lim, before).0, After(lim, before).1, b, a, first, now);
    }
  }

  /** How many of the times lie in the hour after `start`. */
  function CountIn(times: seq<int>, start: int): nat {
    if times == [] then 0
    else CountIn(times[..|times| - 1], start)
         + if start < times[|times| - 1] <= start + HOUR then 1 else 0
  }

  /** Of a sorted sequence, as many times as lie in the hour can be found there side by side. */
  lemma {:induction false} CountSpans(times: seq<int>, start: int, n: nat) returns (i: nat)
    requires Sorted(times) && 0 < n <= CountIn(times, start)
    ensures i + n <= |times| && start < times[i] && times[i + n - 1] <= start + HOUR
  {
    var before, last := times[..|times| - 1], times[|times| - 1];
    if n <= CountIn(before, start) {
      i := CountSpans(before, start, n);
    } else if n == 1 {
      i := |times| - 1;
    } else {
      var j := CountSpans(before, start, n - 1);
      i := |times| - n;
      assert times[j] <= times[i];
    }
  }

  /** The most that an hour can hold. */
  function Bound(lim: Limits, b: nat): int {
    if lim.signalsPerHour <= 0 then 0 else lim.signalsPerHour - 1 + b
  }

  /** In every run with batches of at most `b` signals every hour holds at most `b - 1` signals more than the limit. */
  lemma HourlyBound(lim: Limits, acts: seq<Act>, b: nat, start: int)
    requires InOrder(acts) && BatchesOf(acts, b)
    ensures CountIn(After(lim, acts).1, start) <= Bound(lim, b)
  {
    var all := AllTimes(acts);
    WindowHolds(lim, acts, b, if all == [] then 0 else all[|all| - 1]);
    if lim.signalsPerHour > 0 {
      SpacedCount(After(lim, acts).1, Bound(lim, b), start);
    }
  }

  lemma SpacedCount(log: seq<int>, apart: int, start: int)
    requires Sorted(log) && Spaced(log, apart) && apart >= 0
    ensures CountIn(log, start) <= apart
  {
    if CountIn(log, start) > apart {
      var i := CountSpans(log, start, apart + 1);
    }
  }

  /**
    When every signal is recorded before the next one is checked, every hour anywhere in the run holds at most the
    allowed number of signals, although the breaker forgets old ones.
   */
  lemma HourlyLimit(lim: Limits, acts: seq<Act>, start: int)
    requires InOrder(acts) && BatchesOf(acts, 1)
    ensures CountIn(After(lim, acts).1, start) <= if lim.signalsPerHour > 0 then lim.signalsPerHour else 0
  {
    HourlyBound(lim, acts, 1, start);
  }

  // ---- The bound is met ----

  const DAWN := Clock(0, 0)

  /** Some signals were recorded at dawn, and nothing else happened. */
  ghost predicate Filled(s: Strategy, n: nat) {
    && s.signals == seq(n, i => 0) && s.tradesToday == 0 && s.losses == 0 && s.cooldownUntil == None
  }

  ghost predicate Admits(lim: Limits) {
    lim.signalsPerHour > 0 && lim.tradesPerDay > 0 && lim.losses > 0
  }

  lemma {:induction false} AllApproved(lim: Limits, s: Strategy, n: nat, k: nat)
    requires Admits(lim) && Filled(s, n) && n < lim.signalsPerHour
    ensures var (t, m) := Approvals(lim, s, seq(k, i => DAWN)); m == k && Filled(t, n)
  {
    if k > 0 {
      var checks := seq(k, i => DAWN);
      assert checks[..k - 1] == seq(k - 1, i => DAWN);
      AllApproved(lim, s, n, k - 1);
      AllKept(seq(n, i => 0), 0 - HOUR);
    }
  }

  lemma {:induction false} AllRecorded(s: Strategy, n: nat, k: nat)
    requires Filled(s, n)
    ensures Filled(SignalledAll(s, seq(k, i => DAWN)), n + k)
    decreases k
  {
    if k > 0 {
      var records := seq(k, i => DAWN);
      assert records[..k - 1] == seq(k - 1, i => DAWN);
      AllRecorded(s, n, k - 1);
      assert seq(n + k - 1, i => 0) + [0] == seq(n + k, i => 0);
    } else {
      assert seq(k, i => DAWN) == [];
    }
  }

  function DawnBatch(k: nat): Act {
    Batch(seq(k, i => DAWN), seq(k, i => DAWN))
  }

  lemma DawnBatchRecords(lim: Limits, s: Strategy, n: nat, k: nat)
    requires Admits(lim) && Filled(s, n) && n < lim.signalsPerHour
    ensures var (t, times) := Done(lim, s, DawnBatch(k)); Filled(t, n + k) && times == seq(k, i => 0)
  {
    AllApproved(lim, s, n, k);
    AllRecorded(Approvals(lim, s, seq(k, i => DAWN)).0, n, k);
  }

  /** All that happened so far happened at dawn, and `n` signals were recorded. */
  ghost predicate DawnRun(lim: Limits, acts: seq<Act>, b: nat, n: nat) {
    && (forall i | 0 <= i < |AllTimes(acts)| :: AllTimes(acts)[i] == 0) && BatchesOf(acts, b)
    && Filled(After(lim, acts).0, n) && After(lim, acts).1 == seq(n, i => 0)
  }

  lemma OneMoreBatch(lim: Limits, acts: seq<Act>, b: nat, n: nat, k: nat)
    requires Admits(lim) && DawnRun(lim, acts, b, n) && n < lim.signalsPerHour && k <= b
    ensures DawnRun(lim, acts + [DawnBatch(k)], b, n + k)
  {
    var more := acts + [DawnBatch(k)];
    assert more[..|acts|] == acts;
    DawnBatchRecords(lim, After(lim, acts).0, n, k);
    assert seq(n, i => 0) + seq(k, i => 0) == seq(n + k, i => 0);
  }

  lemma {:induction false} SinglesFill(lim: Limits, b: nat, n: nat) returns (acts: seq<Act>)
    requires Admits(lim) && b >= 1 && n <= lim.signalsPerHour
    ensures DawnRun(lim, acts, b, n)
    decreases n
  {
    if n == 0 {
      acts := [];
    } else {
      acts := SinglesFill(lim, b, n - 1);
      OneMoreBatch(lim, acts, b, n - 1, 1);
      acts := acts + [DawnBatch(1)];
    }
  }

  lemma {:induction false} CountAll(n: nat)
    ensures CountIn(seq(n, i => 0), -1) == n
  {
    if n > 0 {
      assert seq(n, i => 0)[..n - 1] == seq(n - 1, i => 0);
      CountAll(n - 1);
    }
  }

  /**
    For all limits that admit anything, single signals up to one below the limit and then one batch of `b` meet the
    bound.
   */
  lemma BatchedChecksOvershoot(lim: Limits, b: nat) returns (acts: seq<Act>)
    requires Admits(lim) && b >= 1
    ensures InOrder(acts) && BatchesOf(acts, b) && CountIn(After(lim, acts).1, -1) == Bound(lim, b)
  {
    acts := SinglesFill(lim, b, lim.signalsPerHour - 1);
    OneMoreBatch(lim, acts, b, lim.signalsPerHour - 1, b);
    acts := acts + [DawnBatch(b)];
    CountAll(Bound(lim, b));
  }

  /** No hour of any run with batches of at most `b` signals holds more than `n` signals. */
  ghost predicate NeverMoreThan(lim: Limits, b: nat, n: int) {
    forall acts: seq<Act>, start: int | InOrder(acts) && BatchesOf(acts, b) :: CountIn(After(lim, acts).1, start) <= n
  }

  /** The bound is the least one. */
  lemma BoundIsExact(lim: Limits, b: nat, n: int)
    requires Admits(lim) && b >= 1
    ensures NeverMoreThan(lim, b, n) <==> n >= lim.signalsPerHour - 1 + b
  {
    if n >= Bound(lim, b) {
      forall acts: seq<Act>, start: int | InOrder(acts) && BatchesOf(acts, b)
        ensures CountIn(After(lim, acts).1, start) <= n
      {
        HourlyBound(lim, acts, b, start);
      }
    } else {
      var acts := BatchedChecksOvershoot(lim, b);
    }
  }

  lemma {:induction false} NothingApproved(lim: Limits, s: Strategy, checks: seq<Clock>)
    requires !Admits(lim)
    ensures Approvals(lim, s, checks).1 == 0
  {
    if checks != [] {
      NothingApproved(lim, s, checks[..|checks| - 1]);
    }
  }

  lemma {:induction false} NothingRecorded(lim: Limits, acts: seq<Act>)
    requires !Admits(lim)
    ensures After(lim, acts).1 == []
  {
    if acts != [] {
      NothingRecorded(lim, acts[..|acts| - 1]);
      var a := acts[|acts| - 1];
      if a.Batch? {
        NothingApproved(lim, After(lim, acts[..|acts| - 1]).0, a.checks);
      }
    }
  }

  /**
    The hourly limit holds in all runs exactly when no tick checks two signals of the strategy before recording one,
    or the limits admit nothing at all.
   */
  lemma LimitIsExact(lim: Limits, b: nat)
    ensures NeverMoreThan(lim, b, if lim.signalsPerHour > 0 then lim.signalsPerHour else 0) <==> b <= 1 || !Admits(lim)
  {
    var n := if lim.signalsPerHour > 0 then lim.signalsPerHour else 0;
    if !Admits(lim) {
      forall acts: seq<Act>, start: int | InOrder(acts) && BatchesOf(acts, b)
        ensures CountIn(After(lim, acts).1, start) <= n
      {
        NothingRecorded(lim, acts);
      }
    } else if b <= 1 {
      forall acts: seq<Act>, start: int | InOrder(acts) && BatchesOf(acts, b)
        ensures CountIn(After(lim, acts).1, start) <= n
      {
        HourlyLimit(lim, acts, start);
      }
    } else {
      BoundIsExact(lim, b, n);
    }
  }
}
