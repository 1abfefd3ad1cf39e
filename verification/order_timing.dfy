/**
  Recovery that runs while orders are in flight. The broker decides and answers within a latency
  bound, sessions wake on time, and recovery leaves records without an order id alone until they are
  older than its age gate. Then nothing in flight is ever resolved, so a trading intent never
  has two orders in flight, if and only if the gate exceeds the latency plus the longest backoff.
 */
module OrderTiming {
  import opened ExecutionState
  import opened Positions
  import opened StartupRecovery
  import opened RecoveryCrash
  import opened TradeManagement
  import opened OrderProtocol
  import opened OrderSubmissions

  datatype Config = Config(gate: int, latency: nat)

  /** The longest pause between two attempts, in seconds. */
  const LONGEST_BACKOFF: nat := 2

  /**
    What the environment promises: punctuality, marks on acknowledged records only, and a startup pass after the outage
    only.
   */
  ghost predicate Timely(cfg: Config, s: System, a: Action) {
    match a
    case Elapse(time) =>
      && (forall e | e in s.tasks :: s.now + time <=
            match s.tasks[e] case Waiting(_, sentAt) => sentAt + cfg.latency case Sleeping(_, wakeAt) => wakeAt)
      && forall q | q in s.outstanding :: s.now + time <= q.sentAt + cfg.latency
    case Mark(exec, _) => exec in s.records && s.records[exec].brokerOrderId != ""
    case Recover(_, gate) => gate == cfg.gate || (gate == 0 && s.tasks == map[] && s.outstanding == {})
    case _ => true
  }

  ghost predicate TimelyRun(cfg: Config, ss: seq<System>, acts: seq<Action>) {
    IsRun(ss, acts) && forall i | 0 <= i < |acts| :: Timely(cfg, ss[i], acts[i])
  }

  /** The records whose order the broker may still be working on, or whose session still runs. */
  function InFlight(s: System): set<ExecId> {
    s.tasks.Keys + set q | q in s.outstanding :: q.exec
  }

  ghost predicate OneInFlightPerIntent(s: System) {
    forall e, f | e in InFlight(s) && f in InFlight(s) && e in s.records && f in s.records
               && s.records[e].signalId == s.records[f].signalId :: e == f
  }

  // ---- In-flight records stay young ----

  predicate OnTime(cfg: Config, r: Record, t: Task, now: int) {
    && r.state == SUBMISSION_PENDING && r.brokerOrderId == "" && r.updatedAt <= now
    && match t
       case Waiting(_, sentAt) => sentAt - LONGEST_BACKOFF <= r.updatedAt && sentAt <= now <= sentAt + cfg.latency
       case Sleeping(_, wakeAt) => wakeAt - LONGEST_BACKOFF <= r.updatedAt && now <= wakeAt
  }

  predicate Undecided(cfg: Config, r: Record, q: Request, now: int) {
    && r.state in {SUBMISSION_PENDING, RECOVERY_PENDING} && r.brokerOrderId == ""
    && q.sentAt - LONGEST_BACKOFF <= r.updatedAt <= now && q.sentAt <= now <= q.sentAt + cfg.latency
  }

  ghost predicate TimedInv(cfg: Config, s: System) {
    && (forall e | e in s.tasks :: e in s.records && OnTime(cfg, s.records[e], s.tasks[e], s.now))
    && forall q | q in s.outstanding :: q.exec in s.records && Undecided(cfg, s.records[q.exec], q, s.now)
  }

  lemma InFlightAreActive(cfg: Config, s: System)
    requires TimedInv(cfg, s) && StoreInv(s)
    ensures forall e | e in InFlight(s) :: e in s.records && s.records[e].Incomplete()
    ensures OneInFlightPerIntent(s)
  {
  }

  lemma InFlightIsYoung(cfg: Config, s: System, e: ExecId)
    requires cfg.gate > cfg.latency + LONGEST_BACKOFF && TimedInv(cfg, s) && e in InFlight(s)
    ensures e in s.records && Defers(s.records[e], cfg.gate, s.now)
  {
  }

  /** The heart of the matter: every pass defers what is in flight. */
  lemma PassSparesInFlight(cfg: Config, s: System, positions: seq<Position>, s': System)
    requires cfg.gate > cfg.latency + LONGEST_BACKOFF
    requires TimedInv(cfg, s) && StoreInv(s) && Recovers(s, positions, cfg.gate, s')
    ensures forall e | e in InFlight(s) :: e in s.records && e in s'.records && s'.records[e] == s.records[e]
  {
    RecoveryIsSafe(s, positions, cfg.gate, s');
    forall e | e in InFlight(s)
      ensures e in s.records && e in s'.records && s'.records[e] == s.records[e]
    {
      InFlightIsYoung(cfg, s, e);
      assert Kept(s.records[e], s'.records[e], cfg.gate, s.now);
    }
  }

  lemma UntouchedKeepsTimed(cfg: Config, s: System, s': System)
    requires TimedInv(cfg, s) && s'.now == s.now
    requires s'.tasks.Keys <= s.tasks.Keys && forall e | e in s'.tasks :: s'.tasks[e] == s.tasks[e]
    requires s'.outstanding <= s.outstanding
    requires forall e | e in InFlight(s') :: e in s.records && e in s'.records && s'.records[e] == s.records[e]
    ensures TimedInv(cfg, s')
  {
    forall q | q in s'.outstanding ensures q.exec in s'.records && Undecided(cfg, s'.records[q.exec], q, s'.now) {
      assert q.exec in InFlight(s');
    }
  }

  lemma SubmitKeepsTimed(cfg: Config, s: System, exec: ExecId, attempt: nat)
    requires TimedInv(cfg, s) && exec in s.records
    requires s.records[exec].state == SUBMISSION_PENDING && s.records[exec].brokerOrderId == ""
    requires s.now - LONGEST_BACKOFF <= s.records[exec].updatedAt <= s.now
    ensures TimedInv(cfg, Submit(s, exec, attempt))
  {
  }

  lemma OpenKeepsTimed(cfg: Config, s: System, a: Action, s': System)
    requires TimedInv(cfg, s) && StoreInv(s) && SubmissionInv(s) && a.Open? && Opens(s, a, s')
    ensures TimedInv(cfg, s')
  {
    OpeningOutcome(s.records, a.id, a.strategyId, a.signalId, a.meta, a.governed, a.permitted, s.now);
    var (records, o) := OpenSegment(s.records, a.id, a.strategyId, a.signalId, a.meta, a.governed, a.permitted, s.now);
    var mid := s.(records := records);
    assert a.id !in InFlight(s);
    UntouchedKeepsTimed(cfg, s, mid);
    if o == Submitted {
      SubmitKeepsTimed(cfg, mid, a.id, 1);
    }
  }

  /** How an answer leaves a record that was waiting for it. */
  lemma PromptReply(r: Record, attempt: nat, reply: Reply, now: int)
    requires r.state == SUBMISSION_PENDING && 1 <= attempt <= RETRY_ATTEMPTS
    ensures var (r', next) := ReplySegment(r, attempt, reply, now);
      && r'.updatedAt == now
      && (next.RetryAfter? <==> reply == Failed(Transient) && attempt < RETRY_ATTEMPTS)
      && (next.RetryAfter?
        ==> next.delay <= LONGEST_BACKOFF && r'.state == SUBMISSION_PENDING && r'.brokerOrderId == r.brokerOrderId)
      && (reply == Failed(Ambiguous) ==> r'.state == RECOVERY_PENDING && r'.brokerOrderId == r.brokerOrderId)
  {
    assert Delay(1) == 1 && Delay(2) == 2;
  }

  /** Only an ambiguous answer may leave its own request undecided. */
  lemma AnswerKeepsRequests(cfg: Config, s: System, exec: ExecId, reply: Reply, s': System, q: Request)
    requires TimedInv(cfg, s) && SubmissionInv(s) && Answers(s, exec, reply, s') && q in s'.outstanding
    ensures q.exec in s'.records && Undecided(cfg, s'.records[q.exec], q, s'.now)
  {
    assert q in Live(s);
    if q.exec == exec {
      PromptReply(s.records[exec], s.tasks[exec].attempt, reply, s.now);
      assert q == CurrentRequest(exec, s.tasks[exec]) && reply == Failed(Ambiguous);
    }
  }

  lemma AnswerKeepsTimed(cfg: Config, s: System, exec: ExecId, reply: Reply, s': System)
    requires TimedInv(cfg, s) && SubmissionInv(s) && Answers(s, exec, reply, s')
    ensures TimedInv(cfg, s')
  {
    forall q | q in s'.outstanding ensures q.exec in s'.records && Undecided(cfg, s'.records[q.exec], q, s'.now) {
      AnswerKeepsRequests(cfg, s, exec, reply, s', q);
    }
    PromptReply(s.records[exec], s.tasks[exec].attempt, reply, s.now);
  }

  lemma WakeKeepsTimed(cfg: Config, s: System, exec: ExecId, s': System)
    requires TimedInv(cfg, s) && Step(s, Wake(exec), s')
    ensures TimedInv(cfg, s')
  {
    SubmitKeepsTimed(cfg, s, exec, s.tasks[exec].attempt + 1);
  }

  lemma RecoverKeepsTimed(cfg: Config, s: System, a: Action, s': System)
    requires cfg.gate > cfg.latency + LONGEST_BACKOFF
    requires TimedInv(cfg, s) && StoreInv(s) && a.Recover? && Recovers(s, a.positions, a.gate, s') && Timely(cfg, s, a)
    ensures TimedInv(cfg, s')
  {
    if a.gate == cfg.gate {
      PassSparesInFlight(cfg, s, a.positions, s');
      UntouchedKeepsTimed(cfg, s, s');
    }
  }

  lemma MarkKeepsTimed(cfg: Config, s: System, a: Action, s': System)
    requires TimedInv(cfg, s) && a.Mark? && Step(s, a, s') && Timely(cfg, s, a)
    ensures TimedInv(cfg, s')
  {
    assert a.exec !in InFlight(s);
    UntouchedKeepsTimed(cfg, s, s');
  }

  /** The steps that leave the records alone and start nothing. */
  lemma OtherKeepsTimed(cfg: Config, s: System, a: Action, s': System)
    requires TimedInv(cfg, s) && Step(s, a, s')
    requires a.Accept? || a.Drop? || a.Journal? || a.CloseRow? || a.Crash?
    ensures TimedInv(cfg, s')
  {
    assert s'.records == s.records && s'.outstanding <= s.outstanding;
  }

  lemma ElapseKeepsTimed(cfg: Config, s: System, a: Action, s': System)
    requires TimedInv(cfg, s) && a.Elapse? && Step(s, a, s') && Timely(cfg, s, a)
    ensures TimedInv(cfg, s')
  {
  }

  lemma StepKeepsTimed(cfg: Config, s: System, a: Action, s': System)
    requires cfg.gate > cfg.latency + LONGEST_BACKOFF
    requires TimedInv(cfg, s) && StoreInv(s) && SubmissionInv(s) && Step(s, a, s') && Timely(cfg, s, a)
    ensures TimedInv(cfg, s')
  {
    if a.Open? {
      OpenKeepsTimed(cfg, s, a, s');
    } else if a.Answer? {
      AnswerKeepsTimed(cfg, s, a.exec, a.reply, s');
    } else if a.Wake? {
      WakeKeepsTimed(cfg, s, a.exec, s');
    } else if a.Recover? {
      RecoverKeepsTimed(cfg, s, a, s');
    } else if a.Mark? {
      MarkKeepsTimed(cfg, s, a, s');
    } else if a.Elapse? {
      ElapseKeepsTimed(cfg, s, a, s');
    } else {
      OtherKeepsTimed(cfg, s, a, s');
    }
  }

  lemma TimedGoesOn(cfg: Config, ss: seq<System>, acts: seq<Action>, i: nat)
    requires cfg.gate > cfg.latency + LONGEST_BACKOFF && TimelyRun(cfg, ss, acts) && i < |acts|
    requires TimedInv(cfg, ss[i])
    ensures TimedInv(cfg, ss[i + 1])
  {
    OneActiveRecordInEveryRun(ss, acts, i);
    SubmissionsInEveryRun(ss, acts, i);
    assert StepAt(ss, acts, i);
    StepKeepsTimed(cfg, ss[i], acts[i], ss[i + 1]);
  }

  lemma {:induction false} TimedThroughout(cfg: Config, ss: seq<System>, acts: seq<Action>, i: nat)
    requires cfg.gate > cfg.latency + LONGEST_BACKOFF && TimelyRun(cfg, ss, acts) && i < |ss|
    ensures TimedInv(cfg, ss[i])
    decreases i
  {
    if i > 0 {
      TimedThroughout(cfg, ss, acts, i - 1);
      TimedGoesOn(cfg, ss, acts, i - 1);
    }
  }

  lemma TimedInEveryRun(cfg: Config, ss: seq<System>, acts: seq<Action>, i: nat)
    requires cfg.gate > cfg.latency + LONGEST_BACKOFF && TimelyRun(cfg, ss, acts) && i < |ss|
    ensures TimedInv(cfg, ss[i]) && StoreInv(ss[i]) && SubmissionInv(ss[i])
  {
    TimedThroughout(cfg, ss, acts, i);
    OneActiveRecordInEveryRun(ss, acts, i);
    SubmissionsInEveryRun(ss, acts, i);
  }

  /** The broker never accepts an order whose record has already ended, so the duplicate gate still holds its intent. */
  lemma AcceptedWhileActive(cfg: Config, ss: seq<System>, acts: seq<Action>, i: nat)
    requires cfg.gate > cfg.latency + LONGEST_BACKOFF && TimelyRun(cfg, ss, acts)
    requires i < |acts| && acts[i].Accept?
    ensures var e := acts[i].request.exec; e in ss[i].records && ss[i].records[e].Incomplete()
  {
    TimedInEveryRun(cfg, ss, acts, i);
    InFlightAreActive(cfg, ss[i]);
    assert StepAt(ss, acts, i);
  }

  // ---- The gate is exact ----

  ghost predicate Safe(cfg: Config) {
    forall ss: seq<System>, acts: seq<Action> | TimelyRun(cfg, ss, acts) :: OneInFlightPerIntent(ss[|ss| - 1])
  }

  /** Some punctual run ends in this state. */
  ghost predicate Arrives(cfg: Config, s: System) {
    exists ss: seq<System>, acts: seq<Action> | TimelyRun(cfg, ss, acts) :: ss[|ss| - 1] == s
  }

  lemma Continue(cfg: Config, s: System, a: Action, s': System)
    requires Arrives(cfg, s) && Step(s, a, s') && Timely(cfg, s, a)
    ensures Arrives(cfg, s')
  {
    var ss: seq<System>, acts: seq<Action> :| TimelyRun(cfg, ss, acts) && ss[|ss| - 1] == s;
    var ss', acts' := ss + [s'], acts + [a];
    forall i | 0 <= i < |acts'| ensures StepAt(ss', acts', i) && Timely(cfg, ss'[i], acts'[i]) {
      if i < |acts| {
        assert StepAt(ss, acts, i);
      }
    }
    assert TimelyRun(cfg, ss', acts');
  }

  /** The only session of `s` waits for its third attempt, which it made after the longest backoff. */
  ghost predicate ThirdAttempt(s: System, id: ExecId, signalId: string, since: int) {
    && s.records.Keys == {id} && ValidStore(s.records)
    && s.records[id].state == SUBMISSION_PENDING && s.records[id].brokerOrderId == ""
    && s.records[id].signalId == signalId && s.records[id].updatedAt == since - LONGEST_BACKOFF
    && s.tasks == map[id := Waiting(3, since)]
    && s.outstanding == {Request(id, 3, since)}
    && s.rows == []
  }

  /** Two attempts fail for a transient reason, each at once, and the third one goes out. */
  lemma ReachThirdAttempt(cfg: Config, id: ExecId, signalId: string) returns (s: System)
    ensures Arrives(cfg, s) && ThirdAttempt(s, id, signalId, s.now)
  {
    var s0 := System(map[], [], map[], multiset{}, {}, map[], 0);
    assert TimelyRun(cfg, [s0], []);
    var open := Open(id, "", signalId, NO_META, false, false);
    s := AfterOpening(s0, open);
    Continue(cfg, s0, open, s);
    s := FailAndRetry(cfg, s, id, 1);
    s := FailAndRetry(cfg, s, id, 2);
  }

  lemma AfterOpening(s: System, a: Action) returns (s': System)
    requires a.Open? && ValidStore(s.records) && a.id !in s.records && ActiveIds(s.records, a.signalId) == {}
      && !a.governed
    ensures Step(s, a, s') && a.id in s'.records
    ensures s' == Submit(s.(records := s.records[a.id := s'.records[a.id]]), a.id, 1) && ValidStore(s'.records)
    ensures var r := s'.records[a.id];
      r.state == SUBMISSION_PENDING && r.brokerOrderId == "" && r.signalId == a.signalId && r.updatedAt == s.now
  {
    OpeningOutcome(s.records, a.id, a.strategyId, a.signalId, a.meta, a.governed, a.permitted, s.now);
    var (records, o) := OpenSegment(s.records, a.id, a.strategyId, a.signalId, a.meta, a.governed, a.permitted, s.now);
    s' := Submit(s.(records := records), a.id, 1);
  }

  /** The store holds one record, which waits for its submission. */
  ghost predicate OnlyPending(records: map<ExecId, Record>, id: ExecId) {
    && records.Keys == {id} && ValidStore(records)
    && records[id].state == SUBMISSION_PENDING && records[id].brokerOrderId == ""
  }

  /** A session whose latest attempt is out, and nothing else. */
  ghost predicate Alone(s: System, id: ExecId, attempt: nat) {
    && OnlyPending(s.records, id)
    && s.tasks == map[id := Waiting(attempt, s.now)] && s.outstanding == {Request(id, attempt, s.now)}
    && s.accepted == map[] && s.rows == []
  }

  /** The same session after a transient failure: it sleeps until the next attempt. */
  ghost predicate Resting(s: System, id: ExecId, attempt: nat) {
    && OnlyPending(s.records, id)
    && s.tasks == map[id := Sleeping(attempt, s.now + Delay(attempt))] && s.outstanding == {}
    && s.accepted == map[] && s.rows == []
  }

  /** The session asleep, with its record as the reply to a transient error leaves it. */
  function Asleep(s: System, id: ExecId, attempt: nat, r: Record): System {
    s.(records := s.records[id := r], tasks := map[id := Sleeping(attempt, s.now + Delay(attempt))], outstanding := {})
  }

  /** The reply to a transient error while attempts are left. */
  lemma TransientReply(r: Record, attempt: nat, now: int)
    requires 1 <= attempt <= 2 && r.state == SUBMISSION_PENDING && LegalHistory(r)
    ensures var (r', next) := ReplySegment(r, attempt, Failed(Transient), now);
      && next == RetryAfter(Delay(attempt)) && SafeAfter(r, r') && r'.state == SUBMISSION_PENDING
      && r'.brokerOrderId == r.brokerOrderId && r'.updatedAt == now
  {
    ReplyIsSafe(r, attempt, Failed(Transient), now);
  }

  lemma AsleepAnswers(s: System, id: ExecId, attempt: nat, r: Record)
    requires 1 <= attempt <= 2 && Alone(s, id, attempt)
    requires ReplySegment(s.records[id], attempt, Failed(Transient), s.now) == (r, RetryAfter(Delay(attempt)))
    ensures Answers(s, id, Failed(Transient), Asleep(s, id, attempt, r))
  {
    assert s.tasks[id := Sleeping(attempt, s.now + Delay(attempt))]
      == map[id := Sleeping(attempt, s.now + Delay(attempt))];
    assert s.outstanding - {Request(id, attempt, s.now)} == {};
  }

  lemma StaysOnlyPending(records: map<ExecId, Record>, id: ExecId, r: Record)
    requires OnlyPending(records, id) && r.id == id && LegalHistory(r)
    requires r.state == SUBMISSION_PENDING && r.brokerOrderId == ""
    ensures OnlyPending(records[id := r], id)
  {
    assert records[id := r].Keys == records.Keys + {id};
  }

  lemma AsleepRests(s: System, id: ExecId, attempt: nat, r: Record)
    requires OnlyPending(s.records[id := r], id) && s.accepted == map[] && s.rows == []
    ensures Resting(Asleep(s, id, attempt, r), id, attempt)
  {
  }

  lemma FailAtOnce(s: System, id: ExecId, attempt: nat) returns (s': System)
    requires 1 <= attempt <= 2 && Alone(s, id, attempt)
    ensures Step(s, Answer(id, Failed(Transient)), s') && Resting(s', id, attempt) && s'.now == s.now
    ensures s'.records[id].updatedAt == s.now && s'.records[id].signalId == s.records[id].signalId
  {
    TransientReply(s.records[id], attempt, s.now);
    var r := ReplySegment(s.records[id], attempt, Failed(Transient), s.now).0;
    s' := Asleep(s, id, attempt, r);
    AsleepAnswers(s, id, attempt, r);
    StaysOnlyPending(s.records, id, r);
    AsleepRests(s, id, attempt, r);
  }

  /** The session sleeps until its time comes, and then submits again. */
  lemma WakeOnTime(cfg: Config, s: System, id: ExecId, attempt: nat) returns (rested: System, s': System)
    requires attempt >= 1 && Resting(s, id, attempt)
    ensures Step(s, Elapse(Delay(attempt)), rested) && Timely(cfg, s, Elapse(Delay(attempt)))
    ensures Step(rested, Wake(id), s') && Alone(s', id, attempt + 1)
    ensures s'.now == s.now + Delay(attempt) && s'.records == s.records
  {
    rested := s.(now := s.now + Delay(attempt));
    s' := Submit(rested, id, attempt + 1);
  }

  lemma FailAndRetry(cfg: Config, s: System, id: ExecId, attempt: nat) returns (s': System)
    requires Arrives(cfg, s) && 1 <= attempt <= 2 && Alone(s, id, attempt)
    ensures Arrives(cfg, s') && Alone(s', id, attempt + 1) && s'.now == s.now + Delay(attempt)
    ensures s'.records[id].updatedAt == s.now && s'.records[id].signalId == s.records[id].signalId
  {
    var failed := FailAtOnce(s, id, attempt);
    var rested;
    rested, s' := WakeOnTime(cfg, failed, id, attempt);
    Continue(cfg, s, Answer(id, Failed(Transient)), failed);
    Continue(cfg, failed, Elapse(Delay(attempt)), rested);
    Continue(cfg, rested, Wake(id), s');
  }

  /** The third attempt is out for the whole latency; a pass whose gate is no larger than its age fails the record. */
  lemma FailedInFlight(cfg: Config, s: System, id: ExecId, signalId: string) returns (s': System)
    requires cfg.gate <= cfg.latency + LONGEST_BACKOFF && Arrives(cfg, s) && ThirdAttempt(s, id, signalId, s.now)
    ensures Arrives(cfg, s') && s'.records.Keys == {id} && ValidStore(s'.records) && !s'.records[id].Incomplete()
    ensures s'.records[id].signalId == signalId && id in s'.tasks
  {
    var late := s.(now := s.now + cfg.latency);
    Continue(cfg, s, Elapse(cfg.latency), late);
    s' := PassFails(late, id, cfg.gate);
    Continue(cfg, late, Recover([], cfg.gate), s');
  }

  lemma PassFails(s: System, id: ExecId, gate: int) returns (s': System)
    requires s.records.Keys == {id} && ValidStore(s.records) && s.rows == []
    requires s.records[id].state == SUBMISSION_PENDING && s.records[id].brokerOrderId == ""
    requires PastAgeGate(s.records[id], gate, s.now)
    ensures Recovers(s, [], gate, s') && s'.tasks == s.tasks
    ensures s'.records.Keys == {id} && ValidStore(s'.records) && s'.records[id].state == FAILED_TERMINAL
    ensures s'.records[id].signalId == s.records[id].signalId
  {
    var begin := Begin(s.records, s.rows);
    var r := s.records[id];
    FailureReachable(r.state);
    var r' := AdvanceExists(r, FAILED_TERMINAL, s.now);
    AdvancedIsSafe(r, r', FAILED_TERMINAL, s.now);
    var t := Resolve(begin, id, r', s.rows, "");
    assert Indexed([]) == [];
    assert Turn(begin, id, [], gate, s.now, t);
    assert Lists([id], IncompleteIds(s.records));
    var tr := FirstTurn(s.records, s.rows, [id], [], gate, s.now, t);
    s' := s.(records := tr[|tr| - 1].records, rows := tr[|tr| - 1].rows);
  }

  /** The record has ended, so the duplicate gate lets the same intent through while its first order is in flight. */
  lemma SecondOrder(s: System, id: ExecId, other: ExecId, signalId: string) returns (s': System)
    requires s.records.Keys == {id} && ValidStore(s.records) && !s.records[id].Incomplete()
    requires s.records[id].signalId == signalId && id in s.tasks && id != other
    ensures Step(s, Open(other, "", signalId, NO_META, false, false), s') && !OneInFlightPerIntent(s')
  {
    assert ActiveIds(s.records, signalId) == {};
    s' := AfterOpening(s, Open(other, "", signalId, NO_META, false, false));
    assert id in InFlight(s') && other in InFlight(s');
    assert s'.records[id].signalId == s'.records[other].signalId;
  }

  /** With a gate that small a run exists in which one intent has two orders in flight. */
  lemma SmallGateIsUnsafe(cfg: Config)
    requires cfg.gate <= cfg.latency + LONGEST_BACKOFF
    ensures !Safe(cfg)
  {
    var id, other, signalId := "a", "b", "intent";
    var s := ReachThirdAttempt(cfg, id, signalId);
    s := FailedInFlight(cfg, s, id, signalId);
    var s' := SecondOrder(s, id, other, signalId);
    Continue(cfg, s, Open(other, "", signalId, NO_META, false, false), s');
    assert !OneInFlightPerIntent(s');
  }

  /**
    A trading intent never has two orders in flight, whatever happens, exactly when the gate outlasts latency plus
    backoff.
   */
  lemma GateIsExact(cfg: Config)
    ensures Safe(cfg) <==> cfg.gate > cfg.latency + 2
  {
    if cfg.gate > cfg.latency + LONGEST_BACKOFF {
      forall ss: seq<System>, acts: seq<Action> | TimelyRun(cfg, ss, acts)
        ensures OneInFlightPerIntent(ss[|ss| - 1])
      {
        TimedInEveryRun(cfg, ss, acts, |ss| - 1);
        InFlightAreActive(cfg, ss[|ss| - 1]);
      }
    } else {
      SmallGateIsUnsafe(cfg);
    }
  }
}
