/** How often one execution record can reach the broker, over every run of the order protocol. */
module OrderSubmissions {
  import opened ExecutionState
  import opened TradeManagement
  import opened OrderProtocol

  /** The requests that the broker accepted or may still accept. */
  function Live(s: System): set<Request> {
    s.outstanding + s.accepted.Values
  }

  ghost predicate TaskCounts(s: System) {
    && s.tasks.Keys <= s.records.Keys
    && (forall e :: s.submitted[e] <= RETRY_ATTEMPTS && (e !in s.records ==> s.submitted[e] == 0))
    && forall e | e in s.tasks ::
      && 1 <= s.tasks[e].attempt == s.submitted[e] <= RETRY_ATTEMPTS
      && (s.tasks[e].Sleeping? ==> s.tasks[e].attempt < RETRY_ATTEMPTS)
  }

  /** A record has at most one live request, and while its session runs that is the one the session waits for. */
  ghost predicate OneLive(s: System) {
    && (forall q | q in Live(s) :: q.exec in s.records)
    && (forall q, q' | q in Live(s) && q' in Live(s) && q.exec == q'.exec :: q == q')
    && (forall q | q in Live(s) && q.exec in s.tasks ::
         s.tasks[q.exec].Waiting? && q == CurrentRequest(q.exec, s.tasks[q.exec]))
  }

  ghost predicate OrdersOnce(s: System) {
    && s.outstanding !! s.accepted.Values
    && forall o, o' | o in s.accepted && o' in s.accepted && s.accepted[o] == s.accepted[o'] :: o == o'
  }

  ghost predicate SubmissionInv(s: System) {
    TaskCounts(s) && OneLive(s) && OrdersOnce(s)
  }

  lemma SubmitKeeps(s: System, exec: ExecId, attempt: nat)
    requires SubmissionInv(s) && exec in s.records
    requires forall q | q in Live(s) :: q.exec != exec
    requires attempt == s.submitted[exec] + 1 <= RETRY_ATTEMPTS
    ensures SubmissionInv(Submit(s, exec, attempt))
  {
    var s' := Submit(s, exec, attempt);
    assert Live(s') == Live(s) + {Request(exec, attempt, s.now)};
    assert s'.outstanding !! s'.accepted.Values;
  }

  /** Ending sessions, forgetting requests and adding records that nothing was submitted for. */
  lemma ShrinkKeeps(s: System, s': System)
    requires SubmissionInv(s) && s.records.Keys <= s'.records.Keys
    requires s'.submitted == s.submitted && s'.accepted == s.accepted && s'.outstanding <= s.outstanding
    requires s'.tasks.Keys <= s.tasks.Keys && forall e | e in s'.tasks :: s'.tasks[e] == s.tasks[e]
    ensures SubmissionInv(s')
  {
    assert Live(s') <= Live(s);
  }

  /** A session goes to sleep once its request is known to be refused. */
  lemma SleepKeeps(s: System, exec: ExecId, wakeAt: int, s': System)
    requires SubmissionInv(s) && exec in s.tasks && s.tasks[exec].attempt < RETRY_ATTEMPTS
    requires s'.records.Keys == s.records.Keys && s'.submitted == s.submitted && s'.accepted == s.accepted
    requires s'.outstanding <= s.outstanding && forall q | q in Live(s') :: q.exec != exec
    requires s'.tasks == s.tasks[exec := Sleeping(s.tasks[exec].attempt, wakeAt)]
    ensures SubmissionInv(s')
  {
    assert Live(s') <= Live(s);
  }

  lemma AnswerKeeps(s: System, exec: ExecId, reply: Reply, s': System)
    requires SubmissionInv(s) && StoreInv(s) && Answers(s, exec, reply, s')
    ensures SubmissionInv(s')
  {
    ReplyIsSafe(s.records[exec], s.tasks[exec].attempt, reply, s.now);
    if exec in s'.tasks {
      RefusedIsGone(s, exec, reply, s');
      SleepKeeps(s, exec, s'.tasks[exec].wakeAt, s');
    } else {
      ShrinkKeeps(s, s');
    }
  }

  /** A session that goes on has no request left at the broker. */
  lemma RefusedIsGone(s: System, exec: ExecId, reply: Reply, s': System)
    requires SubmissionInv(s) && StoreInv(s) && Answers(s, exec, reply, s') && exec in s'.tasks
    ensures forall q | q in Live(s') :: q.exec != exec
  {
    ReplyIsSafe(s.records[exec], s.tasks[exec].attempt, reply, s.now);
    assert CurrentRequest(exec, s.tasks[exec]) !in Live(s') && s'.accepted == s.accepted;
    forall q | q in Live(s') ensures q.exec != exec {
      assert q in Live(s);
    }
  }

  lemma AcceptKeeps(s: System, q: Request, orderId: string, s': System)
    requires SubmissionInv(s) && Step(s, Accept(q, orderId), s')
    ensures SubmissionInv(s')
  {
    assert s'.accepted.Values == s.accepted.Values + {q} by {
      assert s'.accepted[orderId] == q;
      forall o | o in s.accepted ensures s.accepted[o] in s'.accepted.Values {
        assert s'.accepted[o] == s.accepted[o];
      }
    }
    assert Live(s') == Live(s);
  }

  lemma OpenKeeps(s: System, a: Action, s': System)
    requires SubmissionInv(s) && StoreInv(s) && a.Open? && Opens(s, a, s')
    ensures SubmissionInv(s')
  {
    OpeningOutcome(s.records, a.id, a.strategyId, a.signalId, a.meta, a.governed, a.permitted, s.now);
    var (records, o) := OpenSegment(s.records, a.id, a.strategyId, a.signalId, a.meta, a.governed, a.permitted, s.now);
    ShrinkKeeps(s, s.(records := records));
    if o == Submitted {
      assert forall q | q in Live(s) :: q.exec != a.id;
      SubmitKeeps(s.(records := records), a.id, 1);
    }
  }

  lemma WakeKeeps(s: System, exec: ExecId, s': System)
    requires SubmissionInv(s) && Step(s, Wake(exec), s')
    ensures SubmissionInv(s')
  {
    SubmitKeeps(s, exec, s.tasks[exec].attempt + 1);
  }

  predicate IsQuiet(a: Action) {
    !a.Open? && !a.Wake? && !a.Answer? && !a.Accept?
  }

  /** The steps that submit nothing and accept nothing. */
  lemma QuietKeeps(s: System, a: Action, s': System)
    requires SubmissionInv(s) && StoreInv(s) && Step(s, a, s') && IsQuiet(a)
    ensures SubmissionInv(s')
  {
    assert s.records.Keys <= s'.records.Keys by { StepKeepsStore(s, a, s'); }
    assert s'.submitted == s.submitted && s'.accepted == s.accepted && s'.outstanding <= s.outstanding;
    ShrinkKeeps(s, s');
  }

  lemma StepKeepsSubmissions(s: System, a: Action, s': System)
    requires SubmissionInv(s) && StoreInv(s) && Step(s, a, s')
    ensures SubmissionInv(s')
  {
    if IsQuiet(a) {
      QuietKeeps(s, a, s');
    } else if a.Open? {
      OpenKeeps(s, a, s');
    } else if a.Wake? {
      WakeKeeps(s, a.exec, s');
    } else if a.Answer? {
      AnswerKeeps(s, a.exec, a.reply, s');
    } else {
      AcceptKeeps(s, a.request, a.orderId, s');
    }
  }

  lemma {:induction false} SubmissionsInEveryRun(ss: seq<System>, acts: seq<Action>, i: nat)
    requires IsRun(ss, acts) && i < |ss|
    ensures SubmissionInv(ss[i])
  {
    if i == 0 {
      assert Live(ss[0]) == {};
    } else {
      SubmissionsInEveryRun(ss, acts, i - 1);
      OneActiveRecordInEveryRun(ss, acts, i - 1);
      assert StepAt(ss, acts, i - 1);
      StepKeepsSubmissions(ss[i - 1], acts[i - 1], ss[i]);
    }
  }

  /**
    Over every run, however recovery, marks and crashes interleave with it, one execution record causes
    at most three submissions and at most one order that the broker accepted.
   */
  lemma AtMostOneOrderPerRecord(ss: seq<System>, acts: seq<Action>, i: nat)
    requires IsRun(ss, acts) && i < |ss|
    ensures forall e :: ss[i].submitted[e] <= 3
    ensures forall o, o' | o in ss[i].accepted && o' in ss[i].accepted
      && ss[i].accepted[o].exec == ss[i].accepted[o'].exec :: o == o'
  {
    SubmissionsInEveryRun(ss, acts, i);
    var s := ss[i];
    forall o, o' | o in s.accepted && o' in s.accepted && s.accepted[o].exec == s.accepted[o'].exec ensures o == o' {
      assert s.accepted[o] in Live(s) && s.accepted[o'] in Live(s);
    }
  }
}
