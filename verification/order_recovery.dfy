/** In every run of the order protocol, recovery can be started at any moment without raising. */
module OrderRecovery {
  import opened ExecutionState
  import opened Positions
  import opened RecoveryCrash
  import opened RecoveryTheorems
  import opened TradeManagement
  import opened OrderProtocol
  import opened OrderTiming

  /** The states in which a record may be without an order id. */
  const EARLY: set<State> := {SIGNAL_RECEIVED, GOVERNANCE_VALIDATED, PERMISSION_VALIDATED, RISK_APPROVED,
                              SUBMISSION_PENDING, RECOVERY_PENDING, FAILED_TERMINAL}

  predicate EarlyWithoutId(r: Record) {
    r.brokerOrderId == "" ==> r.state in EARLY
  }

  ghost predicate EarlyInv(s: System) {
    "" !in s.accepted && forall e | e in s.records :: EarlyWithoutId(s.records[e])
  }

  lemma ReplyKeepsEarly(r: Record, attempt: nat, reply: Reply, now: int)
    requires EarlyWithoutId(r) && reply != Placed("")
    ensures EarlyWithoutId(ReplySegment(r, attempt, reply, now).0)
  {
  }

  lemma KeptStaysEarly(before: Record, after: Record, gate: int, now: int)
    requires EarlyWithoutId(before) && Kept(before, after, gate, now)
    ensures EarlyWithoutId(after)
  {
  }

  lemma RecoverKeepsEarly(s: System, positions: seq<Position>, gate: int, s': System)
    requires EarlyInv(s) && StoreInv(s) && Recovers(s, positions, gate, s')
    ensures EarlyInv(s')
  {
    RecoveryIsSafe(s, positions, gate, s');
    forall e | e in s'.records ensures EarlyWithoutId(s'.records[e]) {
      KeptStaysEarly(s.records[e], s'.records[e], gate, s.now);
    }
  }

  lemma OpenKeepsEarly(s: System, a: Action, s': System)
    requires EarlyInv(s) && StoreInv(s) && a.Open? && Opens(s, a, s')
    ensures EarlyInv(s')
  {
    OpeningAdds(s, a, s');
  }

  lemma AnswerKeepsEarly(s: System, exec: ExecId, reply: Reply, s': System)
    requires EarlyInv(s) && Answers(s, exec, reply, s')
    ensures EarlyInv(s')
  {
    assert reply != Placed("");
    ReplyKeepsEarly(s.records[exec], s.tasks[exec].attempt, reply, s.now);
  }

  /** A mark may go anywhere, but only a record with an order id is marked. */
  lemma MarkKeepsEarly(cfg: Config, s: System, a: Action, s': System)
    requires EarlyInv(s) && a.Mark? && Step(s, a, s') && Timely(cfg, s, a)
    ensures EarlyInv(s')
  {
  }

  lemma StepKeepsEarly(cfg: Config, s: System, a: Action, s': System)
    requires EarlyInv(s) && StoreInv(s) && Step(s, a, s') && Timely(cfg, s, a)
    ensures EarlyInv(s')
  {
    if a.Open? {
      OpenKeepsEarly(s, a, s');
    } else if a.Answer? {
      AnswerKeepsEarly(s, a.exec, a.reply, s');
    } else if a.Recover? {
      RecoverKeepsEarly(s, a.positions, a.gate, s');
    } else if a.Mark? {
      MarkKeepsEarly(cfg, s, a, s');
    } else {
      assert s'.records == s.records;
    }
  }

  lemma {:induction false} EarlyInEveryRun(cfg: Config, ss: seq<System>, acts: seq<Action>, i: nat)
    requires TimelyRun(cfg, ss, acts) && i < |ss|
    ensures EarlyInv(ss[i]) && StoreInv(ss[i])
  {
    OneActiveRecordInEveryRun(ss, acts, i);
    if i > 0 {
      EarlyInEveryRun(cfg, ss, acts, i - 1);
      assert StepAt(ss, acts, i - 1);
      StepKeepsEarly(cfg, ss[i - 1], acts[i - 1], ss[i]);
    }
  }

  /**
    While the runtime marks acknowledged records only, no recovery pass raises at any moment of any run,
    whatever its age gate and whatever the broker reports.
   */
  lemma RecoveryNeverRaises(cfg: Config, ss: seq<System>, acts: seq<Action>, i: nat, gate: int)
    requires TimelyRun(cfg, ss, acts) && i < |ss|
    ensures !CanRaise(ss[i].records, ss[i].rows, gate, ss[i].now)
  {
    EarlyInEveryRun(cfg, ss, acts, i);
    PassRaisesOnlyPastRescue(ss[i].records, ss[i].rows, gate, ss[i].now);
  }
}
