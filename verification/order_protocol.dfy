/**
  The order protocol as a transition system. Any number of sessions are opening positions while
  the broker accepts or drops what was submitted, the runtime marks records, recovery passes run,
  and the process may crash at any point. A step is one stretch of code between two awaits.
 */
module OrderProtocol {
  import opened Wrappers
  import opened ExecutionState
  import opened TradeJournal
  import opened Positions
  import opened StartupRecovery
  import opened RecoveryCrash
  import opened TradeManagement

  /** A running session: one attempt is out, or it sleeps before the next one. */
  datatype Task = Waiting(attempt: nat, sentAt: int) | Sleeping(attempt: nat, wakeAt: int)

  /** One submission to the broker. */
  datatype Request = Request(exec: ExecId, attempt: nat, sentAt: int)

  datatype System = System(
    records: map<ExecId, Record>, rows: seq<Row>,
    tasks: map<ExecId, Task>,
    submitted: multiset<ExecId>,         // every submission ever made, by record
    outstanding: set<Request>,           // at the broker and undecided
    accepted: map<string, Request>,      // by broker order id
    now: int)

  datatype Action =
    | Elapse(time: nat)
    | Open(id: ExecId, strategyId: string, signalId: string, meta: Meta, governed: bool, permitted: bool)
    | Answer(exec: ExecId, reply: Reply)
    | Wake(exec: ExecId)
    | Accept(request: Request, orderId: string)
    | Drop(request: Request)
    | Mark(exec: ExecId, target: State)
    | Journal(draft: Draft)
    | CloseRow(rowId: nat, close: Close)
    | Recover(positions: seq<Position>, gate: int)
    | Crash

  function Submit(s: System, exec: ExecId, attempt: nat): System {
    s.(tasks := s.tasks[exec := Waiting(attempt, s.now)],
       submitted := s.submitted + multiset{exec},
       outstanding := s.outstanding + {Request(exec, attempt, s.now)})
  }

  /** The request that the session is waiting for. */
  function CurrentRequest(exec: ExecId, t: Task): Request
    requires t.Waiting?
  {
    Request(exec, t.attempt, t.sentAt)
  }

  /**
    What the broker may answer: success names the order it accepted; an error that is not ambiguous
    means that the request was not accepted and never will be.
   */
  ghost predicate Truthful(s: System, request: Request, reply: Reply) {
    match reply
    case Placed(orderId) => orderId in s.accepted && s.accepted[orderId] == request
    case Failed(error) => error != Ambiguous ==> request !in s.accepted.Values
  }

  ghost predicate Answers(s: System, exec: ExecId, reply: Reply, s': System) {
    && exec in s.tasks && s.tasks[exec].Waiting? && exec in s.records
    && var request := CurrentRequest(exec, s.tasks[exec]);
       var (r, next) := ReplySegment(s.records[exec], s.tasks[exec].attempt, reply, s.now);
       && Truthful(s, request, reply)
       && s' == s.(records := s.records[exec := r],
                   tasks := if next.RetryAfter? then
                              s.tasks[exec := Sleeping(s.tasks[exec].attempt, s.now + next.delay)]
                            else s.tasks - {exec},
                   outstanding := if reply == Failed(Ambiguous) then s.outstanding else s.outstanding - {request})
  }

  ghost predicate Opens(s: System, a: Action, s': System)
    requires a.Open?
  {
    && a.id !in s.records
    && var (records, o) := OpenSegment(s.records, a.id, a.strategyId, a.signalId, a.meta, a.governed, a.permitted,
                                       s.now);
       s' == if o == Submitted then Submit(s.(records := records), a.id, 1) else s.(records := records)
  }

  /**
    A recovery pass over any snapshot of the positions; an exception may end it, and a crash may cut it short
    after any single write. The sessions that a crash ends go in a step of their own.
   */
  ghost predicate Recovers(s: System, positions: seq<Position>, gate: int, s': System) {
    && s' == s.(records := s'.records, rows := s'.rows)
    && exists tr: seq<Pass>, order | Trace(tr, s.records, s.rows, order, Indexed(positions), gate, s.now) ::
         Stops(tr, order, Indexed(positions), gate, s.now, s'.records, s'.rows)
  }

  lemma RecoveryIsSafe(s: System, positions: seq<Position>, gate: int, s': System)
    requires ValidStore(s.records) && ValidRows(s.rows) && Recovers(s, positions, gate, s')
    ensures StopInv(s.records, s.rows, gate, s.now, s'.records, s'.rows)
  {
    var tr: seq<Pass>, order :| Trace(tr, s.records, s.rows, order, Indexed(positions), gate, s.now)
      && Stops(tr, order, Indexed(positions), gate, s.now, s'.records, s'.rows);
    StopIsSafe(tr, s.records, s.rows, order, Indexed(positions), gate, s.now, s'.records, s'.rows);
  }

  ghost predicate Step(s: System, a: Action, s': System) {
    match a
    case Elapse(time) => s' == s.(now := s.now + time)
    case Open(_, _, _, _, _, _) => Opens(s, a, s')
    case Answer(exec, reply) => Answers(s, exec, reply, s')
    case Wake(exec) =>
      && exec in s.tasks && s.tasks[exec].Sleeping? && s.tasks[exec].wakeAt <= s.now
      && s' == Submit(s, exec, s.tasks[exec].attempt + 1)
    case Accept(request, orderId) =>
      && request in s.outstanding && orderId != "" && orderId !in s.accepted
      && s' == s.(outstanding := s.outstanding - {request}, accepted := s.accepted[orderId := request])
    case Drop(request) => s' == s.(outstanding := s.outstanding - {request})
    case Mark(exec, target) =>
      && exec in s.records
      && var m := Move(s.records[exec], target, None, s.now);
         s' == if m.Ok? then s.(records := s.records[exec := m.value]) else s
    case Journal(draft) => s' == s.(rows := Inserted(s.rows, draft))
    case CloseRow(rowId, close) => s' == s.(rows := Updated(s.rows, rowId, close))
    case Recover(positions, gate) => Recovers(s, positions, gate, s')
    case Crash => s' == s.(tasks := map[])
  }

  ghost predicate Initial(s: System) {
    s.records == map[] && s.rows == [] && s.tasks == map[] && s.submitted == multiset{}
    && s.outstanding == {} && s.accepted == map[]
  }

  ghost predicate StepAt(ss: seq<System>, acts: seq<Action>, i: nat) {
    i < |acts| && i + 1 < |ss| && Step(ss[i], acts[i], ss[i + 1])
  }

  ghost predicate IsRun(ss: seq<System>, acts: seq<Action>) {
    |ss| == |acts| + 1 && Initial(ss[0]) && forall i | 0 <= i < |acts| :: StepAt(ss, acts, i)
  }

  // ---- One active record per trading intent ----

  ghost predicate OneActivePerIntent(records: map<ExecId, Record>) {
    forall e, f | e in records && f in records && records[e].Incomplete() && records[f].Incomplete()
               && records[e].signalId == records[f].signalId :: e == f
  }

  /** Records keep their intent and never come back to life; a new one has an intent that nothing active holds. */
  ghost predicate Evolves(before: map<ExecId, Record>, after: map<ExecId, Record>) {
    && (forall e | e in before :: e in after && after[e].signalId == before[e].signalId
                              && (!before[e].Incomplete() ==> !after[e].Incomplete()))
    && (forall e, f | e in after && e !in before && f in after && f !in before :: e == f)
    && (forall e, f | e in after && e !in before && f in before && before[f].Incomplete() ::
         before[f].signalId != after[e].signalId)
  }

  lemma EvolutionKeepsOneActive(before: map<ExecId, Record>, after: map<ExecId, Record>)
    requires OneActivePerIntent(before) && Evolves(before, after)
    ensures OneActivePerIntent(after)
  {
  }

  ghost predicate StoreInv(s: System) {
    ValidStore(s.records) && ValidRows(s.rows) && OneActivePerIntent(s.records)
  }

  lemma RecoverKeepsStore(s: System, positions: seq<Position>, gate: int, s': System)
    requires StoreInv(s) && Recovers(s, positions, gate, s')
    ensures StoreInv(s') && s'.records.Keys == s.records.Keys
  {
    RecoveryIsSafe(s, positions, gate, s');
    assert Evolves(s.records, s'.records);
    EvolutionKeepsOneActive(s.records, s'.records);
  }

  /** The store has one new record, for an intent that nothing active holds. */
  ghost predicate AddsRecord(before: map<ExecId, Record>, after: map<ExecId, Record>, id: ExecId, signalId: string) {
    && id !in before && id in after && after == before[id := after[id]]
    && after[id].signalId == signalId && after[id].brokerOrderId == ""
    && after[id].state in {SUBMISSION_PENDING, GOVERNANCE_VALIDATED}
    && forall e | e in before && before[e].Incomplete() :: before[e].signalId != signalId
  }

  /** An opening leaves everything as it is or adds one record; it never touches the journal or what was accepted. */
  lemma OpeningAdds(s: System, a: Action, s': System)
    requires ValidStore(s.records) && a.Open? && Opens(s, a, s')
    ensures ValidStore(s'.records) && s'.rows == s.rows && s'.accepted == s.accepted
    ensures s'.records == s.records || AddsRecord(s.records, s'.records, a.id, a.signalId)
  {
    OpeningOutcome(s.records, a.id, a.strategyId, a.signalId, a.meta, a.governed, a.permitted, s.now);
  }

  lemma AdditionKeepsOneActive(before: map<ExecId, Record>, after: map<ExecId, Record>, id: ExecId, signalId: string)
    requires OneActivePerIntent(before) && AddsRecord(before, after, id, signalId)
    ensures OneActivePerIntent(after)
  {
    assert Evolves(before, after);
    EvolutionKeepsOneActive(before, after);
  }

  lemma OpenKeepsStore(s: System, a: Action, s': System)
    requires StoreInv(s) && a.Open? && Opens(s, a, s')
    ensures StoreInv(s') && s.records.Keys <= s'.records.Keys
  {
    OpeningAdds(s, a, s');
    if s'.records != s.records {
      AdditionKeepsOneActive(s.records, s'.records, a.id, a.signalId);
    }
  }

  lemma OneRecordKeepsStore(s: System, exec: ExecId, r: Record, s': System)
    requires StoreInv(s) && exec in s.records && s'.records == s.records[exec := r] && s'.rows == s.rows
    requires r.id == exec && LegalHistory(r) && r.signalId == s.records[exec].signalId
    requires !s.records[exec].Incomplete() ==> !r.Incomplete()
    ensures StoreInv(s')
  {
    assert Evolves(s.records, s'.records);
    EvolutionKeepsOneActive(s.records, s'.records);
  }

  lemma StepKeepsStore(s: System, a: Action, s': System)
    requires StoreInv(s) && Step(s, a, s')
    ensures StoreInv(s') && s.records.Keys <= s'.records.Keys
  {
    match a
    case Open(_, _, _, _, _, _) => OpenKeepsStore(s, a, s');
    case Recover(positions, gate) => RecoverKeepsStore(s, positions, gate, s');
    case Answer(exec, reply) =>
      ReplyIsSafe(s.records[exec], s.tasks[exec].attempt, reply, s.now);
      OneRecordKeepsStore(s, exec, s'.records[exec], s');
    case Mark(exec, target) =>
      if Move(s.records[exec], target, None, s.now).Ok? {
        MoveIsSafe(s.records[exec], target, None, s.now);
        OneRecordKeepsStore(s, exec, s'.records[exec], s');
      }
    case _ =>
  }

  /**
    Whatever is interleaved with whatever, at most one record that has not ended exists for a trading
    intent, and the history of every record is a legal walk.
   */
  lemma {:induction false} OneActiveRecordInEveryRun(ss: seq<System>, acts: seq<Action>, i: nat)
    requires IsRun(ss, acts) && i < |ss|
    ensures StoreInv(ss[i])
  {
    if i > 0 {
      OneActiveRecordInEveryRun(ss, acts, i - 1);
      assert StepAt(ss, acts, i - 1);
      StepKeepsStore(ss[i - 1], acts[i - 1], ss[i]);
    }
  }
}
