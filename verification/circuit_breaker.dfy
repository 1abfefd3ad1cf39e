/** The per-strategy circuit breaker: an hourly signal limit, daily counters, and a cooldown after losses. */
module CircuitBreaking {
  import opened Wrappers

  datatype Limits = Limits(signalsPerHour: int, tradesPerDay: int, losses: int, cooldownHours: int)

  const DEFAULTS := Limits(6, 4, 4, 4)

  const HOUR: int := 3600

  /** Time in seconds, and the local date, which need not change at the same moment. */
  datatype Clock = Clock(now: int, today: int)

  datatype Strategy = Strategy(signals: seq<int>, tradesToday: nat, losses: nat, cooldownUntil: Option<int>,
                               lastReset: Option<int>)

  const NEW_STRATEGY := Strategy([], 0, 0, None, None)

  /** A new date clears everything but the signal times. */
  function ForToday(s: Strategy, today: int): Strategy {
    if s.lastReset == Some(today) then s else Strategy(s.signals, 0, 0, None, Some(today))
  }

  function Within(times: seq<int>, start: int): (kept: seq<int>)
  {
    if times == [] then []
    else if times[0] > start then [times[0]] + Within(times[1..], start)
    else Within(times[1..], start)
  }

  datatype Verdict = Approved | Cooling | SignalRate | DailyTrades | LossStreak

  /** A check forgets old signal times; hitting the loss limit starts the cooldown and clears the streak. */
  function Checked(s0: Strategy, lim: Limits, c: Clock): (Strategy, Verdict) {
    var s := ForToday(s0, c.today);
    if s.cooldownUntil.Some? && c.now < s.cooldownUntil.value then (s, Cooling)
    else
      var p := s.(signals := Within(s.signals, c.now - HOUR));
      if |p.signals| >= lim.signalsPerHour then (p, SignalRate)
      else if p.tradesToday >= lim.tradesPerDay then (p, DailyTrades)
      else if p.losses >= lim.losses then
        (p.(cooldownUntil := Some(c.now + lim.cooldownHours * HOUR), losses := 0), LossStreak)
      else (p, Approved)
  }

  function Signalled(s: Strategy, c: Clock): Strategy {
    var t := ForToday(s, c.today);
    t.(signals := t.signals + [c.now])
  }

  function Traded(s: Strategy, won: bool, c: Clock): Strategy {
    var t := ForToday(s, c.today);
    t.(tradesToday := t.tradesToday + 1, losses := if won then 0 else t.losses + 1)
  }

  // ---- The cooldown ----

  /** Any call of the breaker's interface. */
  datatype Call = CheckCall(clock: Clock) | SignalCall(clock: Clock) | TradeCall(won: bool, clock: Clock)

  function Called(lim: Limits, s: Strategy, call: Call): Strategy {
    match call
    case CheckCall(c) => Checked(s, lim, c).0
    case SignalCall(c) => Signalled(s, c)
    case TradeCall(won, c) => Traded(s, won, c)
  }

  function CalledAll(lim: Limits, s: Strategy, calls: seq<Call>): Strategy {
    if calls == [] then s else Called(lim, CalledAll(lim, s, calls[..|calls| - 1]), calls[|calls| - 1])
  }

  /** A check is refused for cooling exactly while a cooldown runs that was started on the date of the check. */
  lemma CoolingMeans(s: Strategy, lim: Limits, c: Clock)
    ensures Checked(s, lim, c).1 == Cooling <==>
      s.lastReset == Some(c.today) && s.cooldownUntil.Some? && c.now < s.cooldownUntil.value
  {
  }

  /** A calendar tells the date of every moment; the calls keep to it, from one moment to another. */
  ghost predicate OnCalendar(day: int -> int, calls: seq<Call>, first: int, last: int) {
    && (forall k | 0 <= k < |calls| ::
        calls[k].clock.today == day(calls[k].clock.now) && first <= calls[k].clock.now <= last)
    && forall j, k | 0 <= j < k < |calls| :: calls[j].clock.now <= calls[k].clock.now
  }

  /** While the date stays the same no call touches a running cooldown. */
  lemma {:induction false} CooldownStays(lim: Limits, s: Strategy, calls: seq<Call>, until: int, today: int)
    requires s.cooldownUntil == Some(until) && s.lastReset == Some(today)
    requires forall k | 0 <= k < |calls| :: calls[k].clock.today == today && calls[k].clock.now < until
    ensures var t := CalledAll(lim, s, calls); t.cooldownUntil == Some(until) && t.lastReset == Some(today)
  {
    if calls != [] {
      CooldownStays(lim, s, calls[..|calls| - 1], until, today);
    }
  }

  /** From its start to its end the cooldown refuses every check, whatever calls come in between. */
  ghost predicate CooldownHolds(lim: Limits, s: Strategy, day: int -> int, start: int, until: int) {
    forall calls, t | start <= t < until && OnCalendar(day, calls, start, t) ::
      Checked(CalledAll(lim, s, calls), lim, Clock(t, day(t))).1 == Cooling
  }

  /** A cooldown that a check starts lasts for its whole length exactly when the date does not change meanwhile. */
  lemma CooldownIsExact(lim: Limits, s: Strategy, day: int -> int, start: int)
    requires Checked(s, lim, Clock(start, day(start))).1 == LossStreak
    ensures var until := start + lim.cooldownHours * HOUR;
      CooldownHolds(lim, Checked(s, lim, Clock(start, day(start))).0, day, start, until)
      <==> forall t | start <= t < until :: day(t) == day(start)
  {
    var until, s' := start + lim.cooldownHours * HOUR, Checked(s, lim, Clock(start, day(start))).0;
    if forall t | start <= t < until :: day(t) == day(start) {
      forall calls, t | start <= t < until && OnCalendar(day, calls, start, t)
        ensures Checked(CalledAll(lim, s', calls), lim, Clock(t, day(t))).1 == Cooling
      {
        CooldownStays(lim, s', calls, until, day(start));
        CoolingMeans(CalledAll(lim, s', calls), lim, Clock(t, day(t)));
      }
    } else {
      var t :| start <= t < until && day(t) != day(start);
      assert OnCalendar(day, [], start, t);
      CoolingMeans(s', lim, Clock(t, day(t)));
      assert Checked(CalledAll(lim, s', []), lim, Clock(t, day(t))).1 != Cooling;
    }
  }

  function Losses(n: nat, c: Clock): seq<Call> {
    if n == 0 then [] else Losses(n - 1, c) + [TradeCall(false, c)]
  }

  lemma {:induction false} LossesAddUp(lim: Limits, c: Clock, n: nat)
    ensures CalledAll(lim, NEW_STRATEGY, Losses(n, c))
      == if n == 0 then NEW_STRATEGY else Strategy([], n, n, None, Some(c.today))
  {
    if n > 0 {
      assert Losses(n, c)[..|Losses(n - 1, c)|] == Losses(n - 1, c);
      LossesAddUp(lim, c, n - 1);
    }
  }

  /**
    With room for a fifth trade, four losses an hour before midnight start a cooldown, and right after midnight a check
    passes.
   */
  lemma MidnightEndsCooldown()
    ensures var lim, late, early := DEFAULTS.(tradesPerDay := 5), Clock(23 * HOUR, 0), Clock(24 * HOUR, 1);
      var s := CalledAll(lim, NEW_STRATEGY, Losses(4, late));
      && Checked(s, lim, late).1 == LossStreak
      && Checked(Checked(s, lim, late).0, lim, early).1 == Approved
  {
    LossesAddUp(DEFAULTS.(tradesPerDay := 5), Clock(23 * HOUR, 0), 4);
  }

  /** Every loss of the streak was a trade of the same date. */
  lemma {:induction false} LossesAreTrades(lim: Limits, calls: seq<Call>)
    ensures var s := CalledAll(lim, NEW_STRATEGY, calls); s.losses <= s.tradesToday
  {
    if calls != [] {
      LossesAreTrades(lim, calls[..|calls| - 1]);
    }
  }

  predicate StartsCooldown(lim: Limits, calls: seq<Call>, c: Clock) {
    Checked(CalledAll(lim, NEW_STRATEGY, calls), lim, c).1 == LossStreak
  }

  lemma StartNeedsRoom(lim: Limits, calls: seq<Call>, c: Clock)
    requires StartsCooldown(lim, calls, c)
    ensures lim.signalsPerHour > 0 && lim.losses < lim.tradesPerDay && lim.tradesPerDay > 0
  {
    LossesAreTrades(lim, calls);
  }

  /**
    Some check in some run of calls starts a cooldown exactly when a day has room for one trade beyond the losses it
    takes.
   */
  lemma CooldownReachable(lim: Limits)
    ensures (exists calls, c :: StartsCooldown(lim, calls, c)) <==>
      lim.signalsPerHour > 0 && lim.losses < lim.tradesPerDay && lim.tradesPerDay > 0
  {
    if calls, c :| StartsCooldown(lim, calls, c) {
      StartNeedsRoom(lim, calls, c);
    }
    if lim.signalsPerHour > 0 && lim.losses < lim.tradesPerDay && lim.tradesPerDay > 0 {
      var n, c := if lim.losses < 0 then 0 else lim.losses, Clock(0, 0);
      LossesAddUp(lim, c, n);
      assert StartsCooldown(lim, Losses(n, c), c);
    }
  }

  /** Four losses and four trades, the default limits, leave no such room: the daily limit always answers first. */
  lemma DefaultsNeverCool(calls: seq<Call>, c: Clock)
    ensures Checked(CalledAll(DEFAULTS, NEW_STRATEGY, calls), DEFAULTS, c).1 !in {LossStreak, Cooling}
    ensures CalledAll(DEFAULTS, NEW_STRATEGY, calls).cooldownUntil == None
  {
    NoCooldown(DEFAULTS, calls);
    if StartsCooldown(DEFAULTS, calls, c) {
      StartNeedsRoom(DEFAULTS, calls, c);
    }
  }

  lemma {:induction false} NoCooldown(lim: Limits, calls: seq<Call>)
    requires lim.losses >= lim.tradesPerDay
    ensures CalledAll(lim, NEW_STRATEGY, calls).cooldownUntil == None
  {
    if calls != [] {
      NoCooldown(lim, calls[..|calls| - 1]);
      LossesAreTrades(lim, calls[..|calls| - 1]);
    }
  }

  // ---- Counters and verdicts, told by the calls ----

  function TradesIn(calls: seq<Call>): nat {
    if calls == [] then 0
    else TradesIn(calls[..|calls| - 1]) + if calls[|calls| - 1].TradeCall? then 1 else 0
  }

  /** The calls from `k` on are all made on one date. */
  ghost predicate OneDate(calls: seq<Call>, k: nat) {
    forall j | k <= j < |calls| :: calls[j].clock.today == calls[k].clock.today
  }

  lemma ResetOnLastDate(lim: Limits, s: Strategy, calls: seq<Call>)
    requires calls != []
    ensures CalledAll(lim, s, calls).lastReset == Some(calls[|calls| - 1].clock.today)
  {
  }

  /** The trades counted are those since the date changed last. */
  lemma {:induction false} TradesAreOfTheDate(lim: Limits, calls: seq<Call>, k: nat)
    requires k < |calls| && OneDate(calls, k)
    requires k > 0 ==> calls[k - 1].clock.today != calls[k].clock.today
    ensures CalledAll(lim, NEW_STRATEGY, calls).tradesToday == TradesIn(calls[k..])
    decreases |calls|
  {
    var n := |calls| - 1;
    var before := calls[..n];
    assert calls[k..][..n - k] == before[k..];
    if k < n {
      TradesAreOfTheDate(lim, before, k);
      ResetOnLastDate(lim, NEW_STRATEGY, before);
    } else if k > 0 {
      ResetOnLastDate(lim, NEW_STRATEGY, before);
    }
  }

  /** The call ends a losing streak: a trade that was won, or the check that starts the cooldown. */
  ghost predicate EndsStreak(lim: Limits, calls: seq<Call>, k: nat) {
    && k < |calls|
    && match calls[k]
       case TradeCall(won, _) => won
       case CheckCall(c) => Checked(CalledAll(lim, NEW_STRATEGY, calls[..k]), lim, c).1 == LossStreak
       case SignalCall(_) => false
  }

  /** The losing streak is made of the trades since the last win, started cooldown, or change of the date. */
  lemma {:induction false} StreakIsHistory(lim: Limits, calls: seq<Call>, k: nat)
    requires k <= |calls| && OneDate(calls, k) && forall j | k <= j < |calls| :: !EndsStreak(lim, calls, j)
    requires k == 0 || EndsStreak(lim, calls, k - 1)
      || (k < |calls| && calls[k - 1].clock.today != calls[k].clock.today)
    ensures CalledAll(lim, NEW_STRATEGY, calls).losses == TradesIn(calls[k..])
    decreases |calls|
  {
    if calls != [] {
      var n := |calls| - 1;
      var before := calls[..n];
      forall j | 0 <= j < n ensures EndsStreak(lim, before, j) <==> EndsStreak(lim, calls, j) {
        assert before[..j] == calls[..j];
      }
      if k == |calls| {
        assert calls[k..] == [] && before == calls[..n];
      } else {
        assert calls[k..][..n - k] == before[k..] && !EndsStreak(lim, calls, n) && before == calls[..n];
        StreakGoesOn(lim, calls, k);
        if k < n || k == 0 || EndsStreak(lim, calls, k - 1) {
          StreakIsHistory(lim, before, k);
        }
      }
    }
  }

  /** A call that does not end the streak adds to it what it trades, and a new date starts it anew. */
  lemma StreakGoesOn(lim: Limits, calls: seq<Call>, k: nat)
    requires k < |calls| && OneDate(calls, k) && !EndsStreak(lim, calls, |calls| - 1)
    ensures var n := |calls| - 1;
      var before := CalledAll(lim, NEW_STRATEGY, calls[..n]);
      CalledAll(lim, NEW_STRATEGY, calls).losses
        == (if n > 0 && calls[n - 1].clock.today != calls[n].clock.today then 0 else before.losses)
          + if calls[n].TradeCall? then 1 else 0
  {
    var n := |calls| - 1;
    if n > 0 {
      ResetOnLastDate(lim, NEW_STRATEGY, calls[..n]);
    }
  }

  function LaterThan(times: seq<int>, start: int): nat {
    if times == [] then 0
    else LaterThan(times[..|times| - 1], start) + if times[|times| - 1] > start then 1 else 0
  }

  lemma {:induction false} LaterFirst(times: seq<int>, start: int)
    requires times != []
    ensures LaterThan(times, start) == LaterThan(times[1..], start) + if times[0] > start then 1 else 0
  {
    if |times| > 1 {
      LaterFirst(times[..|times| - 1], start);
      assert times[1..][..|times| - 2] == times[..|times| - 1][1..];
    }
  }

  lemma {:induction false} WithinCounts(times: seq<int>, start: int)
    ensures |Within(times, start)| == LaterThan(times, start)
  {
    if times != [] {
      LaterFirst(times, start);
      WithinCounts(times[1..], start);
    }
  }

  /** What was counted on the date of the check. */
  function OfDate(s: Strategy, today: int, n: nat): nat {
    if s.lastReset == Some(today) then n else 0
  }

  /**
    The verdict of a check: an unfinished cooldown of the date comes first, then the signals of the last 3600 seconds,
    then the trades and the losses of the date. A check that finds too many losses starts a cooldown of whole hours and
    the streak anew, and no check counts anything.
   */
  lemma VerdictIsExact(s: Strategy, lim: Limits, c: Clock)
    ensures var (t, v) := Checked(s, lim, c);
      var cooling := s.lastReset == Some(c.today) && s.cooldownUntil.Some? && c.now < s.cooldownUntil.value;
      var busy := LaterThan(s.signals, c.now - 3600) >= lim.signalsPerHour;
      var traded := OfDate(s, c.today, s.tradesToday) >= lim.tradesPerDay;
      var lost := OfDate(s, c.today, s.losses) >= lim.losses;
      && (v == Cooling <==> cooling)
      && (v == SignalRate <==> !cooling && busy)
      && (v == DailyTrades <==> !cooling && !busy && traded)
      && (v == LossStreak <==> !cooling && !busy && !traded && lost)
      && (v == Approved <==> !cooling && !busy && !traded && !lost)
      && t.tradesToday == OfDate(s, c.today, s.tradesToday)
      && t.losses == (if v == LossStreak then 0 else OfDate(s, c.today, s.losses))
      && t.cooldownUntil == (if v == LossStreak then Some(c.now + lim.cooldownHours * 3600)
                             else if s.lastReset == Some(c.today) then s.cooldownUntil else None)
  {
    WithinCounts(s.signals, c.now - 3600);
  }

  function Repeated(call: Call, n: nat): seq<Call> {
    if n == 0 then [] else Repeated(call, n - 1) + [call]
  }

  function Stamps(c: Clock, n: nat): (times: seq<int>)
    ensures |times| == n && forall i | 0 <= i < n :: times[i] == c.now
  {
    if n == 0 then [] else Stamps(c, n - 1) + [c.now]
  }

  lemma CalledOneMore(lim: Limits, s: Strategy, calls: seq<Call>, call: Call)
    ensures CalledAll(lim, s, calls + [call]) == Called(lim, CalledAll(lim, s, calls), call)
  {
    assert (calls + [call])[..|calls|] == calls;
  }

  lemma {:induction false} SignalsAddUp(lim: Limits, c: Clock, n: nat)
    ensures CalledAll(lim, NEW_STRATEGY, Repeated(SignalCall(c), n))
      == if n == 0 then NEW_STRATEGY else Strategy(Stamps(c, n), 0, 0, None, Some(c.today))
  {
    if n > 0 {
      SignalsAddUp(lim, c, n - 1);
      CalledOneMore(lim, NEW_STRATEGY, Repeated(SignalCall(c), n - 1), SignalCall(c));
    }
  }

  lemma {:induction false} WinsAddUp(lim: Limits, calls: seq<Call>, c: Clock, n: nat)
    requires n > 0
    ensures var s := ForToday(CalledAll(lim, NEW_STRATEGY, calls), c.today);
      CalledAll(lim, NEW_STRATEGY, calls + Repeated(TradeCall(true, c), n))
        == s.(tradesToday := s.tradesToday + n, losses := 0)
  {
    OneMoreWin(lim, calls, c, n);
    if n > 1 {
      WinsAddUp(lim, calls, c, n - 1);
    } else {
      assert calls + Repeated(TradeCall(true, c), 0) == calls;
    }
  }

  lemma OneMoreWin(lim: Limits, calls: seq<Call>, c: Clock, n: nat)
    requires n > 0
    ensures CalledAll(lim, NEW_STRATEGY, calls + Repeated(TradeCall(true, c), n))
      == Traded(CalledAll(lim, NEW_STRATEGY, calls + Repeated(TradeCall(true, c), n - 1)), true, c)
  {
    var before := calls + Repeated(TradeCall(true, c), n - 1);
    assert calls + Repeated(TradeCall(true, c), n) == before + [TradeCall(true, c)];
    CalledOneMore(lim, NEW_STRATEGY, before, TradeCall(true, c));
  }

  lemma {:induction false} AllLater(times: seq<int>, start: int)
    requires forall i | 0 <= i < |times| :: times[i] > start
    ensures LaterThan(times, start) == |times|
  {
    if times != [] {
      AllLater(times[..|times| - 1], start);
    }
  }

  /** By default a strategy may give up to six signals an hour and make up to four trades a day. */
  lemma DefaultsAdmit(c: Clock, signals: nat, wins: nat)
    requires signals + wins > 0
    ensures var calls := Repeated(SignalCall(c), signals) + Repeated(TradeCall(true, c), wins);
      Checked(CalledAll(DEFAULTS, NEW_STRATEGY, calls), DEFAULTS, c).1
        == if signals >= 6 then SignalRate else if wins >= 4 then DailyTrades else Approved
  {
    var given := Repeated(SignalCall(c), signals);
    SignalsAddUp(DEFAULTS, c, signals);
    if wins > 0 {
      WinsAddUp(DEFAULTS, given, c, wins);
    } else {
      assert given + Repeated(TradeCall(true, c), 0) == given;
    }
    var s := CalledAll(DEFAULTS, NEW_STRATEGY, given + Repeated(TradeCall(true, c), wins));
    assert s == Strategy(Stamps(c, signals), wins, 0, None, Some(c.today));
    AllLater(s.signals, c.now - 3600);
    VerdictIsExact(s, DEFAULTS, c);
  }

  class CircuitBreaker {
    const config: map<string, Limits>
    var state: map<string, Strategy>

    constructor (config: map<string, Limits>)
      ensures this.config == config && state == map[]
    {
      this.config := config;
      state := map[];
    }

    function LimitsFor(name: string): Limits {
      if name in config then config[name] else DEFAULTS
    }

    function StateOf(name: string): Strategy
      reads this
    {
      if name in state then state[name] else NEW_STRATEGY
    }

    method Check(name: string, c: Clock) returns (ok: bool, v: Verdict)
      modifies this
      ensures var (s, verdict) := Checked(old(StateOf(name)), LimitsFor(name), c);
        state == old(state)[name := s] && v == verdict && ok == (v == Approved)
    {
      var s := ForToday(StateOf(name), c.today);
      var lim := LimitsFor(name);
      state := state[name := s];
      if s.cooldownUntil.Some? && c.now < s.cooldownUntil.value {
        return false, Cooling;
      }
      s := s.(signals := Within(s.signals, c.now - HOUR));
      state := state[name := s];
      if |s.signals| >= lim.signalsPerHour {
        return false, SignalRate;
      }
      if s.tradesToday >= lim.tradesPerDay {
        return false, DailyTrades;
      }
      if s.losses >= lim.losses {
        state := state[name := s.(cooldownUntil := Some(c.now + lim.cooldownHours * HOUR), losses := 0)];
        return false, LossStreak;
      }
      return true, Approved;
    }

    method RecordSignal(name: string, c: Clock)
      modifies this
      ensures state == old(state)[name := Signalled(old(StateOf(name)), c)]
    {
      state := state[name := Signalled(StateOf(name), c)];
    }

    method RecordTrade(name: string, won: bool, c: Clock)
      modifies this
      ensures state == old(state)[name := Traded(old(StateOf(name)), won, c)]
    {
      state := state[name := Traded(StateOf(name), won, c)];
    }
  }
}
