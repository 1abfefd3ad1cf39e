/**
  Where the records of the order protocol come from. Whatever is interleaved with whatever, a record keeps what its
  opening asked for, and its history only ever grows along legal transitions.
 */
module OrderOrigins {
  import opened Wrappers
  import opened ExecutionState
  import opened ExecutionPaths
  import opened TradeJournal
  import opened Positions
  import opened StartupRecovery
  import opened RecoveryCrash
  import opened TradeManagement
  import opened OrderProtocol

  /** The same record, later: it still belongs to the same strategy and intent, and no event is lost or changed. */
  ghost predicate Continues(r: Record, r': Record) {
    r'.id == r.id && r'.strategyId == r.strategyId && r'.signalId == r.signalId && r.history <= r'.history
  }

  ghost predicate AllContinue(records: map<ExecId, Record>, records': map<ExecId, Record>) {
    forall id | id in records :: id in records' && Continues(records[id], records'[id])
  }

  lemma AndOn(records: map<ExecId, Record>, records': map<ExecId, Record>, records'': map<ExecId, Record>)
    requires AllContinue(records, records') && AllContinue(records', records'')
    ensures AllContinue(records, records'')
  {
    forall id | id in records ensures id in records'' && Continues(records[id], records''[id]) {
      assert Continues(records'[id], records''[id]);
    }
  }

  // ---- A recovery pass ----

  lemma AdvancedContinues(before: Record, after: Record, goal: State, now: int)
    requires Advanced(before, after, goal, now)
    ensures Continues(before, after)
  {
  }

  lemma TurnContinues(s: Pass, id: ExecId, table: seq<Position>, gate: int, now: int, t: Pass)
    requires Turn(s, id, table, gate, now, t)
    ensures AllContinue(s.records, t.records)
  {
    var r, found := s.records[id], FindMatch(table, s.linked, s.records[id].Metadata());
    if !Defers(r, gate, now) {
      if r.brokerOrderId != "" {
        AdvancedContinues(r, t.records[id], COMPLETED, now);
      } else if found.Some? {
        AdvancedContinues(r.(brokerOrderId := found.value.id, updatedAt := now), t.records[id], COMPLETED, now);
      } else {
        AdvancedContinues(r, t.records[id], FAILED_TERMINAL, now);
      }
    }
  }

  lemma TraceTurnContinues(tr: seq<Pass>, records: map<ExecId, Record>, rows: seq<Row>, order: seq<ExecId>,
                           table: seq<Position>, gate: int, now: int, i: nat)
    requires Trace(tr, records, rows, order, table, gate, now) && i + 1 < |tr|
    ensures AllContinue(tr[i].records, tr[i + 1].records)
  {
    assert TurnAt(tr, order, table, gate, now, i);
    TurnContinues(tr[i], order[i], table, gate, now, tr[i + 1]);
  }

  lemma {:induction false} TraceContinues(tr: seq<Pass>, records: map<ExecId, Record>, rows: seq<Row>,
                                          order: seq<ExecId>, table: seq<Position>, gate: int, now: int, i: nat)
    requires Trace(tr, records, rows, order, table, gate, now) && i < |tr|
    ensures AllContinue(records, tr[i].records)
  {
    if i > 0 {
      TraceContinues(tr, records, rows, order, table, gate, now, i - 1);
      TraceTurnContinues(tr, records, rows, order, table, gate, now, i - 1);
      AndOn(records, tr[i - 1].records, tr[i].records);
    }
  }

  lemma TornContinues(s: Pass, id: ExecId, table: seq<Position>, gate: int, now: int, records': map<ExecId, Record>,
                      rows': seq<Row>)
    requires Torn(s, id, table, gate, now, records', rows')
    ensures AllContinue(s.records, records')
  {
  }

  lemma RecoverContinues(s: System, positions: seq<Position>, gate: int, s': System)
    requires Recovers(s, positions, gate, s')
    ensures AllContinue(s.records, s'.records)
  {
    var table := Indexed(positions);
    var tr: seq<Pass>, order :| Trace(tr, s.records, s.rows, order, table, gate, s.now)
      && Stops(tr, order, table, gate, s.now, s'.records, s'.rows);
    var n := |tr| - 1;
    TraceContinues(tr, s.records, s.rows, order, table, gate, s.now, n);
    if s'.records != tr[n].records || s'.rows != tr[n].rows {
      TornContinues(tr[n], order[n], table, gate, s.now, s'.records, s'.rows);
      AndOn(s.records, tr[n].records, s'.records);
    }
  }

  // ---- Every step ----

  lemma StepContinues(s: System, a: Action, s': System)
    requires StoreInv(s) && Step(s, a, s')
    ensures AllContinue(s.records, s'.records)
  {
    if a.Open? {
      OpenContinues(s, a, s');
    } else if a.Recover? {
      RecoverContinues(s, a.positions, a.gate, s');
    } else if a.Answer? {
      AnswerContinues(s, a.exec, a.reply, s');
    } else if a.Mark? {
      MarkContinues(s, a, s');
    } else {
      assert s'.records == s.records;
    }
  }

  lemma OpenContinues(s: System, a: Action, s': System)
    requires StoreInv(s) && a.Open? && Opens(s, a, s')
    ensures AllContinue(s.records, s'.records)
  {
    OpeningAdds(s, a, s');
  }

  lemma MarkContinues(s: System, a: Action, s': System)
    requires a.Mark? && Step(s, a, s')
    ensures AllContinue(s.records, s'.records)
  {
  }

  lemma AnswerContinues(s: System, exec: ExecId, reply: Reply, s': System)
    requires Answers(s, exec, reply, s')
    ensures AllContinue(s.records, s'.records)
  {
  }

  /** From any moment of a run to any later one. */
  lemma {:induction false} RecordsContinue(ss: seq<System>, acts: seq<Action>, i: nat, j: nat)
    requires IsRun(ss, acts) && i <= j < |ss|
    ensures AllContinue(ss[i].records, ss[j].records)
  {
    if i < j {
      RecordsContinue(ss, acts, i, j - 1);
      OneActiveRecordInEveryRun(ss, acts, j - 1);
      assert StepAt(ss, acts, j - 1);
      StepContinues(ss[j - 1], acts[j - 1], ss[j]);
      AndOn(ss[i].records, ss[j - 1].records, ss[j].records);
    }
  }

  // ---- The opening behind a record ----

  /** This step of the run made a record: it is an opening, and the store did not have its id before. */
  ghost predicate Created(ss: seq<System>, acts: seq<Action>, k: nat) {
    && k < |acts| && k + 1 < |ss| && acts[k].Open?
    && acts[k].id !in ss[k].records && acts[k].id in ss[k + 1].records
  }

  /** The record is what became of this opening, made at that time. */
  ghost predicate CameFrom(r: Record, a: Action, now: int)
    requires a.Open?
  {
    && r.id == a.id && r.strategyId == a.strategyId && r.signalId == a.signalId && r.Metadata() == a.meta
    && StartsWith(r.history, [SIGNAL_RECEIVED]
                             + (if a.governed then [GOVERNANCE_VALIDATED] else [])
                             + (if a.permitted then [PERMISSION_VALIDATED] else [])
                             + (if a.governed && !a.permitted then [] else [RISK_APPROVED, SUBMISSION_PENDING]), now)
  }

  ghost predicate StartsWith(h: seq<Event>, way: seq<State>, now: int) {
    |way| <= |h| && forall k | 0 <= k < |way| :: h[k].state == way[k] && h[k].at == now
  }

  lemma WholeIsStart(h: seq<Event>, way: seq<State>, now: int)
    requires StatesOf(h) == way && forall k | 0 <= k < |h| :: h[k].at == now
    ensures StartsWith(h, way, now)
  {
    forall k | 0 <= k < |way| ensures h[k].state == way[k] {
      assert StatesOf(h)[k] == way[k];
    }
  }

  lemma CreationIsOpening(s: System, a: Action, s': System)
    requires StoreInv(s) && a.Open? && Opens(s, a, s') && a.id in s'.records
    ensures s'.records.Keys == s.records.Keys + {a.id} && s'.records[a.id].id == a.id
    ensures OpenedBy(s'.records[a.id], a.strategyId, a.signalId, a.meta, a.governed, a.permitted, s.now)
  {
    OpensRecords(s, a, s');
    SegmentIsOpening(s.records, s'.records, a, s.now);
  }

  lemma OpensRecords(s: System, a: Action, s': System)
    requires a.Open? && Opens(s, a, s')
    ensures a.id !in s.records
    ensures s'.records
      == OpenSegment(s.records, a.id, a.strategyId, a.signalId, a.meta, a.governed, a.permitted, s.now).0
  {
  }

  lemma SegmentIsOpening(records: map<ExecId, Record>, records': map<ExecId, Record>, a: Action, now: int)
    requires ValidStore(records) && a.Open? && a.id !in records && a.id in records'
    requires records'
      == OpenSegment(records, a.id, a.strategyId, a.signalId, a.meta, a.governed, a.permitted, now).0
    ensures records'.Keys == records.Keys + {a.id} && records'[a.id].id == a.id
    ensures OpenedBy(records'[a.id], a.strategyId, a.signalId, a.meta, a.governed, a.permitted, now)
  {
    OpeningOutcome(records, a.id, a.strategyId, a.signalId, a.meta, a.governed, a.permitted, now);
  }

  lemma CreationCameFrom(s: System, a: Action, s': System)
    requires StoreInv(s) && a.Open? && Opens(s, a, s') && a.id in s'.records
    ensures s'.records.Keys == s.records.Keys + {a.id} && CameFrom(s'.records[a.id], a, s.now)
  {
    CreationIsOpening(s, a, s');
    var r := s'.records[a.id];
    WholeIsStart(r.history, StatesOf(r.history), s.now);
  }

  lemma OriginStays(r: Record, r': Record, a: Action, now: int)
    requires a.Open? && CameFrom(r, a, now) && Continues(r, r')
    ensures CameFrom(r', a, now)
  {
    forall k | 0 <= k < |r.history| ensures r'.history[k] == r.history[k] { }
  }

  /** Only openings make records. */
  lemma NoOtherRecords(s: System, a: Action, s': System)
    requires StoreInv(s) && Step(s, a, s') && !a.Open?
    ensures s'.records.Keys == s.records.Keys
  {
    match a
    case Recover(positions, gate) => RecoverKeepsStore(s, positions, gate, s');
    case _ =>
  }

  lemma StepOfRun(ss: seq<System>, acts: seq<Action>, k: nat)
    requires IsRun(ss, acts) && k < |acts|
    ensures k + 1 < |ss| && StoreInv(ss[k]) && Step(ss[k], acts[k], ss[k + 1])
  {
    OneActiveRecordInEveryRun(ss, acts, k);
    assert StepAt(ss, acts, k);
  }

  /**
    At every moment after its opening, a record has the metadata, the strategy and the intent of that opening, and its
    history goes on from the way the opening took.
   */
  lemma OriginIsKept(ss: seq<System>, acts: seq<Action>, k: nat, i: nat)
    requires IsRun(ss, acts) && Created(ss, acts, k) && k < i < |ss|
    ensures acts[k].id in ss[i].records && CameFrom(ss[i].records[acts[k].id], acts[k], ss[k].now)
  {
    StepOfRun(ss, acts, k);
    CreationCameFrom(ss[k], acts[k], ss[k + 1]);
    RecordsContinue(ss, acts, k + 1, i);
    OriginStays(ss[k + 1].records[acts[k].id], ss[i].records[acts[k].id], acts[k], ss[k].now);
  }

  /** Every record of every run has such an opening. */
  lemma {:induction false} EveryRecordHasItsOpening(ss: seq<System>, acts: seq<Action>, i: nat, id: ExecId)
    returns (k: nat)
    requires IsRun(ss, acts) && i < |ss| && id in ss[i].records
    ensures k < i && Created(ss, acts, k) && acts[k].id == id
    ensures CameFrom(ss[i].records[id], acts[k], ss[k].now)
  {
    StepOfRun(ss, acts, i - 1);
    if id in ss[i - 1].records {
      k := EveryRecordHasItsOpening(ss, acts, i - 1, id);
    } else {
      k := i - 1;
      NewIsOpened(ss[k], acts[k], ss[i], id);
    }
    OriginIsKept(ss, acts, k, i);
  }

  lemma NewIsOpened(s: System, a: Action, s': System, id: ExecId)
    requires StoreInv(s) && Step(s, a, s') && id in s'.records && id !in s.records
    ensures a.Open? && a.id == id
  {
    if a.Open? {
      OpeningAdds(s, a, s');
    } else {
      NoOtherRecords(s, a, s');
    }
  }

  /** And only one. */
  lemma OpenedOnce(ss: seq<System>, acts: seq<Action>, k: nat, m: nat)
    requires IsRun(ss, acts) && Created(ss, acts, k) && Created(ss, acts, m) && acts[k].id == acts[m].id
    ensures k == m
  {
    if k < m {
      RecordsContinue(ss, acts, k + 1, m);
    } else if m < k {
      RecordsContinue(ss, acts, m + 1, k);
    }
  }

  /** In no reachable store does a history enter a state from where it cannot be entered. */
  lemma HistoriesAreLegal(ss: seq<System>, acts: seq<Action>, i: nat, id: ExecId, k: nat)
    requires IsRun(ss, acts) && i < |ss| && id in ss[i].records && 0 < k < |ss[i].records[id].history|
    ensures ss[i].records[id].history[0].state == SIGNAL_RECEIVED
    ensures ss[i].records[id].history[k - 1].state in Before(ss[i].records[id].history[k].state)
  {
    OneActiveRecordInEveryRun(ss, acts, i);
    HistoryEnters(ss[i].records[id], k);
  }
}
