/** The demo risk guard: counters that every scored close updates, and a halt that lasts until the daily reset. */
module DemoRisk {

  datatype Outcome = WIN | LOSS | BREAKEVEN

  datatype HaltReason = NotHalted | DAILY_LOSS_LIMIT | CONSECUTIVE_LOSS_LIMIT

  datatype Verdict =
    | Approved
    | HaltedVerdict
    | MaxTradesPerDay
    | MaxOpenPositions
    | DailyLossLimit
    | ConsecutiveLossLimit

  const MAX_TRADES_PER_DAY: nat := 4
  const MAX_OPEN_POSITIONS: nat := 2
  const DAILY_LIMIT: real := 0.015
  const MAX_CONSECUTIVE_LOSSES: nat := 3

  datatype Risk = Risk(tradesToday: nat, openPositions: nat, dailyLoss: real, losses: nat, halt: HaltReason)

  /** One close as the guard sees it; `pnl` is the signed fraction of the account. */
  datatype Result = Result(outcome: Outcome, pnl: real)

  function Recorded(s: Risk, r: Result): Risk {
    var dailyLoss := if r.pnl < 0.0 then s.dailyLoss - r.pnl else s.dailyLoss;
    var losses := if r.outcome == LOSS then s.losses + 1 else 0;
    Risk(s.tradesToday + 1, if s.openPositions == 0 then 0 else s.openPositions - 1, dailyLoss, losses,
         if dailyLoss >= DAILY_LIMIT then DAILY_LOSS_LIMIT
         else if losses >= MAX_CONSECUTIVE_LOSSES then CONSECUTIVE_LOSS_LIMIT
         else s.halt)
  }

  function AfterReset(s: Risk): Risk {
    Risk(0, s.openPositions, 0.0, 0, NotHalted)
  }

  function CheckLimits(s: Risk): Verdict {
    if s.halt != NotHalted then HaltedVerdict
    else if s.tradesToday >= MAX_TRADES_PER_DAY then MaxTradesPerDay
    else if s.openPositions >= MAX_OPEN_POSITIONS then MaxOpenPositions
    else if s.dailyLoss >= DAILY_LIMIT then DailyLossLimit
    else if s.losses >= MAX_CONSECUTIVE_LOSSES then ConsecutiveLossLimit
    else Approved
  }

  /** The state after a sequence of closes. */
  function RecordedAll(s: Risk, rs: seq<Result>): Risk {
    if rs == [] then s else Recorded(RecordedAll(s, rs[..|rs| - 1]), rs[|rs| - 1])
  }

  /** Recording two batches is recording their concatenation. */
  lemma {:induction false} RecordedConcat(s: Risk, rs: seq<Result>, more: seq<Result>)
    ensures RecordedAll(s, rs + more) == RecordedAll(RecordedAll(s, rs), more)
    decreases |more|
  {
    if more == [] {
      assert rs + more == rs;
    } else {
      assert (rs + more)[..|rs + more| - 1] == rs + more[..|more| - 1];
      RecordedConcat(s, rs, more[..|more| - 1]);
    }
  }

  // ---- What the counters mean ----

  function TotalLoss(rs: seq<Result>): real {
    if rs == [] then 0.0
    else TotalLoss(rs[1..]) + if rs[0].pnl < 0.0 then -rs[0].pnl else 0.0
  }

  /** `n` is the length of the run of losses at the end. */
  ghost predicate TrailingLosses(rs: seq<Result>, n: nat) {
    && n <= |rs|
    && (forall i | |rs| - n <= i < |rs| :: rs[i].outcome == LOSS)
    && (n < |rs| ==> rs[|rs| - n - 1].outcome != LOSS)
  }

  /** After these closes one of the two limits is reached: too much lost, or the last closes all losses. */
  ghost predicate Breaches(rs: seq<Result>) {
    || TotalLoss(rs) >= DAILY_LIMIT
    || (|rs| >= MAX_CONSECUTIVE_LOSSES && forall i | |rs| - MAX_CONSECUTIVE_LOSSES <= i < |rs| :: rs[i].outcome == LOSS)
  }

  ghost predicate BreachedSoFar(rs: seq<Result>) {
    exists k | 0 <= k <= |rs| :: Breaches(rs[..k])
  }

  lemma {:induction false} TotalLossLast(rs: seq<Result>)
    requires rs != []
    ensures TotalLoss(rs) == TotalLoss(rs[..|rs| - 1]) + if rs[|rs| - 1].pnl < 0.0 then -rs[|rs| - 1].pnl else 0.0
  {
    if |rs| > 1 {
      TotalLossLast(rs[1..]);
      assert rs[1..][..|rs| - 2] == rs[..|rs| - 1][1..];
    }
  }

  /**
    The counters since a reset are the total loss, the losses in a row at the end, and whether a limit was ever reached.
   */
  lemma {:induction false} CountersAreHistory(s: Risk, rs: seq<Result>)
    ensures var r := RecordedAll(AfterReset(s), rs);
      && r.tradesToday == |rs|
      && r.openPositions == (if s.openPositions > |rs| then s.openPositions - |rs| else 0)
      && r.dailyLoss == TotalLoss(rs) && TrailingLosses(rs, r.losses)
      && (r.halt != NotHalted <==> BreachedSoFar(rs))
  {
    if rs == [] {
      assert forall k | 0 <= k <= |rs| :: rs[..k] == [];
    } else {
      var before := rs[..|rs| - 1];
      CountersAreHistory(s, before);
      TotalLossLast(rs);
      TrailingStep(rs, RecordedAll(AfterReset(s), before).losses);
      BreachesByCounters(rs, RecordedAll(AfterReset(s), rs).losses);
      BreachedStep(rs);
    }
  }

  lemma TrailingStep(rs: seq<Result>, n: nat)
    requires rs != [] && TrailingLosses(rs[..|rs| - 1], n)
    ensures TrailingLosses(rs, if rs[|rs| - 1].outcome == LOSS then n + 1 else 0)
  {
  }

  lemma BreachesByCounters(rs: seq<Result>, n: nat)
    requires TrailingLosses(rs, n)
    ensures Breaches(rs) <==> TotalLoss(rs) >= DAILY_LIMIT || n >= MAX_CONSECUTIVE_LOSSES
  {
  }

  lemma BreachedStep(rs: seq<Result>)
    requires rs != []
    ensures BreachedSoFar(rs) <==> BreachedSoFar(rs[..|rs| - 1]) || Breaches(rs)
  {
    var before := rs[..|rs| - 1];
    assert rs[..|rs|] == rs;
    forall k | 0 <= k <= |before| ensures before[..k] == rs[..k] { }
    if BreachedSoFar(before) {
      var k :| 0 <= k <= |before| && Breaches(before[..k]);
      assert Breaches(rs[..k]);
    }
    if BreachedSoFar(rs) {
      var k :| 0 <= k <= |rs| && Breaches(rs[..k]);
      assert k < |rs| ==> Breaches(before[..k]);
    }
  }

  /** Once a limit was reached, nothing is approved before the next reset, whatever closes follow. */
  lemma HaltLasts(s: Risk, rs: seq<Result>, more: seq<Result>)
    requires BreachedSoFar(rs)
    ensures CheckLimits(RecordedAll(AfterReset(s), rs + more)) != Approved
  {
    CountersAreHistory(s, rs + more);
    var k :| 0 <= k <= |rs| && Breaches(rs[..k]);
    assert (rs + more)[..k] == rs[..k];
  }

  /** Between resets the guard approves exactly while no limit was ever reached and both caps have room. */
  lemma ApprovalMeans(s: Risk, rs: seq<Result>)
    ensures CheckLimits(RecordedAll(AfterReset(s), rs)) == Approved <==>
      && !BreachedSoFar(rs) && |rs| < MAX_TRADES_PER_DAY
      && s.openPositions < MAX_OPEN_POSITIONS + |rs|
  {
    CountersAreHistory(s, rs);
    var r := RecordedAll(AfterReset(s), rs);
    assert rs[..|rs|] == rs;
    if r.dailyLoss >= DAILY_LIMIT || r.losses >= MAX_CONSECUTIVE_LOSSES {
      assert Breaches(rs[..|rs|]);
    }
  }

  // ---- The halt and the verdict, told by the closes ----

  /** Three losses in a row end at the `k`-th close. */
  ghost predicate ThreeInARow(rs: seq<Result>, k: nat) {
    3 <= k <= |rs| && rs[k - 1].outcome == LOSS && rs[k - 2].outcome == LOSS && rs[k - 3].outcome == LOSS
  }

  lemma {:induction false} LossOnlyGrows(rs: seq<Result>, k: nat)
    requires k <= |rs|
    ensures TotalLoss(rs[..k]) <= TotalLoss(rs)
    decreases |rs|
  {
    if k == |rs| {
      assert rs[..k] == rs;
    } else {
      TotalLossLast(rs);
      LossOnlyGrows(rs[..|rs| - 1], k);
      assert rs[..|rs| - 1][..k] == rs[..k];
    }
  }

  lemma BreachMeans(rs: seq<Result>)
    ensures BreachedSoFar(rs) <==> TotalLoss(rs) >= 0.015 || exists k: nat :: ThreeInARow(rs, k)
  {
    assert rs[..|rs|] == rs;
    if TotalLoss(rs) >= 0.015 {
      assert Breaches(rs[..|rs|]);
    }
    if k: nat :| ThreeInARow(rs, k) {
      assert Breaches(rs[..k]);
    }
    if BreachedSoFar(rs) {
      var k :| 0 <= k <= |rs| && Breaches(rs[..k]);
      LossOnlyGrows(rs, k);
      if TotalLoss(rs[..k]) < 0.015 {
        assert rs[..k][k - 1] == rs[k - 1] && rs[..k][k - 2] == rs[k - 2] && rs[..k][k - 3] == rs[k - 3];
        assert ThreeInARow(rs, k);
      }
    }
  }

  /**
    The reason of a halt: the daily loss once one and a half percent are lost, and otherwise three losses in a row at
    any time since the reset.
   */
  lemma {:induction false} HaltReasonIsExact(s: Risk, rs: seq<Result>)
    ensures var halt := RecordedAll(AfterReset(s), rs).halt;
      && (halt == DAILY_LOSS_LIMIT <==> TotalLoss(rs) >= 0.015)
      && (halt == CONSECUTIVE_LOSS_LIMIT <==> TotalLoss(rs) < 0.015 && exists k: nat :: ThreeInARow(rs, k))
  {
    CountersAreHistory(s, rs);
    BreachMeans(rs);
    if rs != [] {
      HaltReasonIsExact(s, rs[..|rs| - 1]);
      CountersAreHistory(s, rs[..|rs| - 1]);
      LossOnlyGrows(rs, |rs| - 1);
    }
  }

  /**
    Every answer of the check, between resets: halted once a limit was ever reached, and otherwise limited by the four
    trades of the day and the two open positions. The checks after these never answer.
   */
  lemma VerdictIsExact(s: Risk, rs: seq<Result>)
    ensures CheckLimits(RecordedAll(AfterReset(s), rs)) ==
      if TotalLoss(rs) >= 0.015 || exists k: nat :: ThreeInARow(rs, k) then HaltedVerdict
      else if |rs| >= 4 then MaxTradesPerDay
      else if s.openPositions >= |rs| + 2 then MaxOpenPositions
      else Approved
  {
    BreachMeans(rs);
    ApprovalMeans(s, rs);
    CountersAreHistory(s, rs);
  }

  class RiskState {
    var tradesToday: nat
    var openPositions: nat
    var dailyLoss: real
    var consecutiveLosses: nat
    var halted: bool
    var haltReason: HaltReason

    function View(): Risk
      reads this
    {
      Risk(tradesToday, openPositions, dailyLoss, consecutiveLosses, if halted then haltReason else NotHalted)
    }

    ghost predicate Valid()
      reads this
    {
      halted <==> haltReason != NotHalted
    }

    constructor ()
      ensures Valid() && View() == Risk(0, 0, 0.0, 0, NotHalted)
    {
      tradesToday, openPositions, dailyLoss, consecutiveLosses := 0, 0, 0.0, 0;
      halted, haltReason := false, NotHalted;
    }

    method RecordResult(r: Result)
      requires Valid()
      modifies this
      ensures Valid() && View() == Recorded(old(View()), r)
    {
      tradesToday := tradesToday + 1;
      openPositions := if openPositions > 0 then openPositions - 1 else 0;
      if r.pnl < 0.0 {
        dailyLoss := dailyLoss - r.pnl;
      }
      if r.outcome == LOSS {
        consecutiveLosses := consecutiveLosses + 1;
      } else {
        consecutiveLosses := 0;
      }
      if dailyLoss >= DAILY_LIMIT {
        halted, haltReason := true, DAILY_LOSS_LIMIT;
      } else if consecutiveLosses >= MAX_CONSECUTIVE_LOSSES {
        halted, haltReason := true, CONSECUTIVE_LOSS_LIMIT;
      }
    }

    /** Takes over a saved state. */
    method LoadState(s: Risk)
      modifies this
      ensures Valid() && View() == s
    {
      tradesToday, openPositions, dailyLoss, consecutiveLosses := s.tradesToday, s.openPositions, s.dailyLoss, s.losses;
      halted, haltReason := s.halt != NotHalted, s.halt;
    }

    method ResetDaily()
      modifies this
      ensures Valid() && View() == AfterReset(old(View()))
    {
      tradesToday, dailyLoss, consecutiveLosses := 0, 0.0, 0;
      halted, haltReason := false, NotHalted;
    }
  }
}
