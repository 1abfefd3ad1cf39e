/**
  Recovery of the execution records an interrupted run left behind.
  A pass takes the incomplete records in some order and resolves each one against the
  journal and the open positions; it never submits an order. The records, the journal
  rows and the working sets of a pass form its state, and a pass is a trace of such states.
 */
module StartupRecovery {
  import opened Wrappers
  import opened GraphSearch
  import opened ExecutionState
  import opened TradeJournal
  import opened Positions

  /**
    `linked` holds the order ids known to be journaled, `deferred` the positions set aside for records too young to
    resolve.
   */
  datatype Pass = Pass(
    records: map<ExecId, Record>, rows: seq<Row>, linked: set<string>,
    resolved: seq<Resolved>, deferred: set<string>)

  datatype Resolved = Resolved(id: ExecId, finalState: State, orderId: string)

  datatype Report = Report(resolved: seq<Resolved>, orphaned: seq<Position>)

  predicate PastAgeGate(r: Record, gate: int, now: int) {
    gate <= 0 || now - r.updatedAt >= gate
  }

  /** A record without an order id is left alone until it is old enough. */
  predicate Defers(r: Record, gate: int, now: int) {
    r.brokerOrderId == "" && !PastAgeGate(r, gate, now)
  }

  /** A field that the record or the position does not carry matches everything. */
  predicate Compatible(meta: Meta, p: Position) {
    && (meta.symbol == "" || p.symbol == meta.symbol)
    && (meta.direction == "" || p.direction == meta.direction)
    && (meta.lots.None? || p.lots.None? || p.lots == meta.lots)
  }

  /** Every field that the record carries is kept, and the others are filled in. */
  ghost predicate FillsIn(meta: Meta, full: Meta) {
    && meta.symbol in {"", full.symbol} && meta.direction in {"", full.direction}
    && (meta.lots == None || meta.lots == full.lots)
  }

  /** A position is compatible exactly if what the record leaves open can be filled in to describe it. */
  lemma CompatibleMeans(meta: Meta, p: Position)
    ensures Compatible(meta, p) <==> exists full | FillsIn(meta, full) ::
      full.symbol == p.symbol && full.direction == p.direction && (p.lots.Some? ==> full.lots == p.lots)
  {
    if Compatible(meta, p) {
      var full := Meta(p.symbol, p.direction, if p.lots.Some? then p.lots else meta.lots);
      assert FillsIn(meta, full);
    }
  }

  predicate Fits(p: Position, linked: set<string>, meta: Meta) {
    p.id !in linked && Compatible(meta, p)
  }

  /** The first position of the table that is not linked yet and fits the record. */
  function FindMatch(table: seq<Position>, linked: set<string>, meta: Meta): (r: Option<Position>)
    ensures r.Some? ==> r.value in table && Fits(r.value, linked, meta)
    ensures r.None? <==> forall p | p in table :: !Fits(p, linked, meta)
  {
    if table == [] then None
    else if Fits(table[0], linked, meta) then Some(table[0])
    else
      assert table == [table[0]] + table[1..];
      FindMatch(table[1..], linked, meta)
  }

  /** Among the positions that fit, the one that the snapshot lists first is taken. */
  lemma {:induction false} FirstFitWins(table: seq<Position>, linked: set<string>, meta: Meta, i: nat)
    requires i < |table| && Fits(table[i], linked, meta)
    ensures exists j | 0 <= j <= i ::
      FindMatch(table, linked, meta) == Some(table[j]) && forall k | 0 <= k < j :: !Fits(table[k], linked, meta)
  {
    if Fits(table[0], linked, meta) {
      assert FindMatch(table, linked, meta) == Some(table[0]);
    } else {
      FirstFitWins(table[1..], linked, meta, i - 1);
      var j :| 0 <= j <= i - 1 && FindMatch(table[1..], linked, meta) == Some(table[1..][j])
        && forall k | 0 <= k < j :: !Fits(table[1..][k], linked, meta);
      assert table[1..][j] == table[j + 1];
      forall k | 0 <= k < j + 1 ensures !Fits(table[k], linked, meta) {
        assert k > 0 ==> table[k] == table[1..][k - 1];
      }
    }
  }

  function ActionOf(direction: string): string {
    if direction == "buy" then "BUY"
    else if direction == "sell" then "SELL"
    else if direction == "" then "BUY"
    else direction
  }

  const DEFAULT_RISK_PERCENT: real := 0.25

  /** The best-effort row for an order that only recovery discovered. */
  function Backfill(r: Record, orderId: string, p: Option<Position>): Draft {
    var meta := r.Metadata();
    Draft(if r.strategyId == "" then "unknown" else r.strategyId, meta.symbol, ActionOf(meta.direction),
          if p.Some? then p.value.entry else 0.0, DEFAULT_RISK_PERCENT,
          if meta.lots.Some? then meta.lots.value else 0, orderId, Opened)
  }

  /** The state of the pass once record `id` has become `r'`, owning `orderId` unless that is empty. */
  function Resolve(s: Pass, id: ExecId, r': Record, rows': seq<Row>, orderId: string): Pass {
    Pass(s.records[id := r'], rows',
         if orderId == "" then s.linked else s.linked + {orderId},
         s.resolved + [Resolved(id, r'.state, orderId)], s.deferred)
  }

  /** `_reconcile_one`: what resolving the record at `id` may do. */
  ghost predicate Reconciled(s: Pass, id: ExecId, table: seq<Position>, now: int, t: Pass)
    requires id in s.records
  {
    var r := s.records[id];
    var found := FindMatch(table, s.linked, r.Metadata());
    id in t.records &&
    var r' := t.records[id];
    if r.brokerOrderId != "" then
      && Advanced(r, r', COMPLETED, now)
      && t == Resolve(s, id, r',
                      if r.brokerOrderId in s.linked then s.rows
                      else Inserted(s.rows, Backfill(r, r.brokerOrderId, Lookup(table, r.brokerOrderId))),
                      r.brokerOrderId)
    else if found.Some? then
      var p := found.value;
      && Advanced(r.(brokerOrderId := p.id, updatedAt := now), r', COMPLETED, now)
      && t == Resolve(s, id, r', Inserted(s.rows, Backfill(r, p.id, Some(p))), p.id)
    else
      && Advanced(r, r', FAILED_TERMINAL, now)
      && t == Resolve(s, id, r', s.rows, "")
  }

  /** One turn of the loop over the incomplete records. */
  ghost predicate Turn(s: Pass, id: ExecId, table: seq<Position>, gate: int, now: int, t: Pass) {
    id in s.records &&
    var r := s.records[id];
    if Defers(r, gate, now) then
      var m := FindMatch(table, s.linked, r.Metadata());
      t == s.(deferred := s.deferred + if m.Some? then {m.value.id} else {})
    else
      Reconciled(s, id, table, now, t)
  }

  function Begin(records: map<ExecId, Record>, rows: seq<Row>): Pass {
    Pass(records, rows, OrderIds(rows), [], {})
  }

  ghost predicate TurnAt(tr: seq<Pass>, order: seq<ExecId>, table: seq<Position>, gate: int, now: int, i: nat) {
    i + 1 < |tr| && i < |order| && Turn(tr[i], order[i], table, gate, now, tr[i + 1])
  }

  /** A pass over `order`, or the part of it before an exception. */
  ghost predicate Trace(tr: seq<Pass>, records: map<ExecId, Record>, rows: seq<Row>, order: seq<ExecId>,
                        table: seq<Position>, gate: int, now: int)
  {
    && 1 <= |tr| <= |order| + 1
    && tr[0] == Begin(records, rows)
    && Lists(order, IncompleteIds(records))
    && DistinctIds(table) && !HasId(table, "")
    && forall i | 0 <= i < |tr| - 1 :: TurnAt(tr, order, table, gate, now, i)
  }

  /** The record at `id` must fail but cannot: the pass raises. */
  ghost predicate Stuck(s: Pass, id: ExecId, table: seq<Position>, gate: int, now: int) {
    id in s.records &&
    var r := s.records[id];
    && r.brokerOrderId == "" && !Defers(r, gate, now)
    && FindMatch(table, s.linked, r.Metadata()).None?
    && !Reachable(Allowed, r.state, FAILED_TERMINAL)
  }

  ghost predicate Completes(tr: seq<Pass>, order: seq<ExecId>) {
    |tr| == |order| + 1
  }

  ghost predicate Raises(tr: seq<Pass>, order: seq<ExecId>, table: seq<Position>, gate: int, now: int) {
    1 <= |tr| <= |order| && Stuck(tr[|tr| - 1], order[|tr| - 1], table, gate, now)
  }

  /** The positions that nothing accounts for after the pass. */
  function Orphans(table: seq<Position>, s: Pass): (orphans: seq<Position>)
    ensures forall p :: p in orphans <==> p in table && p.id !in s.linked && p.id !in s.deferred
  {
    if table == [] then []
    else
      assert table == [table[0]] + table[1..];
      var rest := Orphans(table[1..], s);
      if table[0].id !in s.linked && table[0].id !in s.deferred then [table[0]] + rest else rest
  }

  // ---- What every point of a pass keeps ----

  /** What the pass has done to record `id`, if it has been its turn. */
  ghost predicate Treated(before: Record, after: Record, done: bool, gate: int, now: int) {
    if !done || !before.Incomplete() || Defers(before, gate, now) then after == before
    else
      && after.state == (if after.brokerOrderId == "" then FAILED_TERMINAL else COMPLETED)
      && after.signalId == before.signalId
      && (before.brokerOrderId != "" ==> after.brokerOrderId == before.brokerOrderId)
  }

  /** The journal only grows, the linked ids are exactly the journaled ones, and they stay unique. */
  ghost predicate JournalInv(rows: seq<Row>, s: Pass) {
    && ValidRows(s.rows) && |rows| <= |s.rows| && s.rows[..|rows|] == rows
    && s.linked == OrderIds(s.rows)
    && (OrderIdsUnique(rows) ==> OrderIdsUnique(s.rows))
  }

  ghost predicate RecordsInv(records: map<ExecId, Record>, done: seq<ExecId>, gate: int, now: int, s: Pass) {
    && s.records.Keys == records.Keys && ValidStore(s.records)
    && forall id | id in records :: Treated(records[id], s.records[id], id in done, gate, now)
  }

  ghost predicate SetsInv(table: seq<Position>, gate: int, s: Pass) {
    && (forall id | id in s.deferred :: HasId(table, id))
    && (gate <= 0 ==> s.deferred == {})
    && forall o | o in s.resolved :: o.orderId == "" || o.orderId in s.linked
  }

  ghost predicate PassInv(records: map<ExecId, Record>, rows: seq<Row>, done: seq<ExecId>,
                          table: seq<Position>, gate: int, now: int, s: Pass)
  {
    JournalInv(rows, s) && RecordsInv(records, done, gate, now, s) && SetsInv(table, gate, s)
  }

  lemma BeginInv(records: map<ExecId, Record>, rows: seq<Row>, table: seq<Position>, gate: int, now: int)
    requires ValidStore(records) && ValidRows(rows)
    ensures PassInv(records, rows, [], table, gate, now, Begin(records, rows))
  {
  }

  /** Journaling an order id that is not linked yet, and linking it. */
  lemma JournalKeeps(rows: seq<Row>, s: Pass, d: Draft, t: Pass)
    requires JournalInv(rows, s)
    requires t.rows == if d.orderId == "" || d.orderId in s.linked then s.rows else Inserted(s.rows, d)
    requires t.linked == if d.orderId == "" then s.linked else s.linked + {d.orderId}
    ensures JournalInv(rows, t)
  {
    InsertedOrderIds(s.rows, d);
  }

  lemma RecordsKeep(records: map<ExecId, Record>, done: seq<ExecId>, gate: int, now: int, s: Pass, id: ExecId,
                    r': Record, t: Pass)
    requires RecordsInv(records, done, gate, now, s)
    requires id in records && id !in done && r'.id == id && LegalHistory(r')
    requires Treated(records[id], r', true, gate, now) && t.records == s.records[id := r']
    ensures RecordsInv(records, done + [id], gate, now, t)
  {
    forall other | other in records
      ensures Treated(records[other], t.records[other], other in done + [id], gate, now)
    {
    }
  }

  /** Resolving one record, with the row that its order id needs. */
  lemma ResolveKeepsInv(records: map<ExecId, Record>, rows: seq<Row>, done: seq<ExecId>, id: ExecId,
                        table: seq<Position>, gate: int, now: int, s: Pass, r': Record, d: Draft, t: Pass)
    requires PassInv(records, rows, done, table, gate, now, s)
    requires id in records && id !in done && records[id].Incomplete() && !Defers(records[id], gate, now)
    requires r'.id == id && LegalHistory(r') && d.orderId == r'.brokerOrderId
    requires r'.signalId == records[id].signalId
    requires records[id].brokerOrderId != "" ==> r'.brokerOrderId == records[id].brokerOrderId
    requires r'.state == if d.orderId == "" then FAILED_TERMINAL else COMPLETED
    requires t == Resolve(s, id, r', if d.orderId == ""
      || d.orderId in s.linked then s.rows else Inserted(s.rows, d), d.orderId)
    ensures PassInv(records, rows, done + [id], table, gate, now, t)
  {
    JournalKeeps(rows, s, d, t);
    RecordsKeep(records, done, gate, now, s, id, r', t);
  }

  lemma TurnKeepsInv(records: map<ExecId, Record>, rows: seq<Row>, done: seq<ExecId>, id: ExecId,
                     table: seq<Position>, gate: int, now: int, s: Pass, t: Pass)
    requires id in records && id !in done && records[id].Incomplete() && !HasId(table, "")
    requires PassInv(records, rows, done, table, gate, now, s) && Turn(s, id, table, gate, now, t)
    ensures PassInv(records, rows, done + [id], table, gate, now, t)
  {
    var r := s.records[id];
    assert r == records[id];
    var m := FindMatch(table, s.linked, r.Metadata());
    if Defers(r, gate, now) {
      assert RecordsInv(records, done + [id], gate, now, t);
      assert m.Some? ==> HasId(table, m.value.id);
    } else if r.brokerOrderId != "" {
      AdvancedIsSafe(r, t.records[id], COMPLETED, now);
      ResolveKeepsInv(records, rows, done, id, table, gate, now, s, t.records[id],
                      Backfill(r, r.brokerOrderId, Lookup(table, r.brokerOrderId)), t);
    } else if m.Some? {
      assert HasId(table, m.value.id);
      AdvancedIsSafe(r.(brokerOrderId := m.value.id, updatedAt := now), t.records[id], COMPLETED, now);
      ResolveKeepsInv(records, rows, done, id, table, gate, now, s, t.records[id], Backfill(r, m.value.id, m), t);
    } else {
      AdvancedIsSafe(r, t.records[id], FAILED_TERMINAL, now);
      ResolveKeepsInv(records, rows, done, id, table, gate, now, s, t.records[id], Backfill(r, "", None), t);
    }
  }

  lemma ListedOnce(order: seq<ExecId>, ids: set<ExecId>, i: nat)
    requires Lists(order, ids) && i < |order|
    ensures order[i] in ids && order[i] !in order[..i] && order[..i + 1] == order[..i] + [order[i]]
  {
    assert order[i] in order;
  }

  /** The records come up once each, and each was incomplete when the pass began. */
  lemma TraceTurn(tr: seq<Pass>, records: map<ExecId, Record>, rows: seq<Row>, order: seq<ExecId>,
                  table: seq<Position>, gate: int, now: int, i: nat)
    requires Trace(tr, records, rows, order, table, gate, now) && i + 1 < |tr|
    ensures order[i] in records && records[order[i]].Incomplete() && order[i] !in order[..i]
    ensures order[..i + 1] == order[..i] + [order[i]] && !HasId(table, "")
    ensures Turn(tr[i], order[i], table, gate, now, tr[i + 1])
  {
    ListedOnce(order, IncompleteIds(records), i);
    assert TurnAt(tr, order, table, gate, now, i);
  }

  lemma TraceTurnKeepsInv(tr: seq<Pass>, records: map<ExecId, Record>, rows: seq<Row>, order: seq<ExecId>,
                          table: seq<Position>, gate: int, now: int, i: nat)
    requires Trace(tr, records, rows, order, table, gate, now) && i + 1 < |tr|
    requires PassInv(records, rows, order[..i], table, gate, now, tr[i])
    ensures PassInv(records, rows, order[..i + 1], table, gate, now, tr[i + 1])
  {
    TraceTurn(tr, records, rows, order, table, gate, now, i);
    TurnKeepsInv(records, rows, order[..i], order[i], table, gate, now, tr[i], tr[i + 1]);
  }

  lemma {:induction false} TraceInv(tr: seq<Pass>, records: map<ExecId, Record>, rows: seq<Row>, order: seq<ExecId>,
                                    table: seq<Position>, gate: int, now: int, i: nat)
    requires Trace(tr, records, rows, order, table, gate, now) && ValidStore(records) && ValidRows(rows)
    requires i < |tr|
    ensures PassInv(records, rows, order[..i], table, gate, now, tr[i])
  {
    if i == 0 {
      assert order[..0] == [];
      BeginInv(records, rows, table, gate, now);
    } else {
      TraceInv(tr, records, rows, order, table, gate, now, i - 1);
      TraceTurnKeepsInv(tr, records, rows, order, table, gate, now, i - 1);
    }
  }

  /** A record whose turn has not come is still as it was when the pass began. */
  lemma Untouched(tr: seq<Pass>, records: map<ExecId, Record>, rows: seq<Row>, order: seq<ExecId>,
                  table: seq<Position>, gate: int, now: int)
    requires Trace(tr, records, rows, order, table, gate, now) && ValidStore(records) && ValidRows(rows)
      && |tr| <= |order|
    ensures var id := order[|tr| - 1];
      id in records && records[id].Incomplete() && id in tr[|tr| - 1].records && tr[|tr| - 1].records[id] == records[id]
  {
    var i := |tr| - 1;
    TraceInv(tr, records, rows, order, table, gate, now, i);
    assert order[i] in order && order[i] !in order[..i];
  }

  lemma AtTurn(tr: seq<Pass>, records: map<ExecId, Record>, rows: seq<Row>, order: seq<ExecId>,
               table: seq<Position>, gate: int, now: int, i: nat)
    requires Trace(tr, records, rows, order, table, gate, now) && ValidStore(records) && ValidRows(rows)
    requires i + 1 < |tr|
    ensures order[i] in records && records[order[i]].Incomplete()
    ensures order[i] in tr[i].records && tr[i].records[order[i]] == records[order[i]]
    ensures Turn(tr[i], order[i], table, gate, now, tr[i + 1])
  {
    TraceInv(tr, records, rows, order, table, gate, now, i);
    TraceTurn(tr, records, rows, order, table, gate, now, i);
  }

  /** A pass that was interrupted after its first record. */
  lemma FirstTurn(records: map<ExecId, Record>, rows: seq<Row>, order: seq<ExecId>, table: seq<Position>,
                  gate: int, now: int, t: Pass) returns (tr: seq<Pass>)
    requires Lists(order, IncompleteIds(records)) && order != [] && DistinctIds(table) && !HasId(table, "")
    requires Turn(Begin(records, rows), order[0], table, gate, now, t)
    ensures tr == [Begin(records, rows), t] && Trace(tr, records, rows, order, table, gate, now)
  {
    tr := [Begin(records, rows), t];
    assert TurnAt(tr, order, table, gate, now, 0);
  }

  // ---- The pass itself ----

  /** Takes record `id` to its end once its row is written; the record may have just been given its order id. */
  method Finish(store: ExecutionStateStore, id: ExecId, orderId: Option<string>, goal: State, now: int)
    returns (r: Result<Record, StoreError>)
    requires ValidStore(store.records) && id in store.records
    modifies store
    ensures ValidStore(store.records)
    ensures var first := old(store.records)[id];
      var given := if orderId.Some? then first.(brokerOrderId := orderId.value, updatedAt := now) else first;
      && (r.Ok? <==> Reachable(Allowed, first.state, goal))
      && (r.Ok? ==> Advanced(given, r.value, goal, now) && store.records == old(store.records)[id := r.value])
      && (r.Err? && orderId.None? ==> store.records == old(store.records))
  {
    if orderId.Some? {
      var _ := store.Transition(id, store.records[id].state, orderId, now);
    }
    r := store.AdvanceToTerminal(id, goal, now);
  }

  /** What resolving the record at `id` returns, and the state of the pass afterwards. */
  ghost predicate OneOutcome(s: Pass, id: ExecId, table: seq<Position>, gate: int, now: int,
                             r: Result<Resolved, StoreError>, t: Pass)
    requires id in s.records
  {
    if r.Ok? then
      && Reconciled(s, id, table, now, t)
      && t == Pass(t.records, t.rows, if r.value.orderId == "" then s.linked else s.linked + {r.value.orderId},
                   s.resolved + [r.value], s.deferred)
    else
      t == s && Stuck(s, id, table, gate, now)
  }

  /** Resolves one record, or raises when the record would have to fail but is past the point of failing. */
  method ReconcileOne(store: ExecutionStateStore, journal: TradeJournalDB, id: ExecId, table: seq<Position>,
                      linked: set<string>, gate: int, now: int, ghost s: Pass)
    returns (r: Result<Resolved, StoreError>, ghost t: Pass)
    requires ValidStore(store.records) && ValidRows(journal.rows) && id in store.records
    requires store.records[id].Incomplete() && !Defers(store.records[id], gate, now)
    requires s.records == store.records && s.rows == journal.rows && s.linked == linked
    modifies store, journal
    ensures ValidStore(store.records) && ValidRows(journal.rows)
    ensures store.records == t.records && journal.rows == t.rows
    ensures OneOutcome(s, id, table, gate, now, r, t)
  {
    var first := store.records[id];
    var found := FindMatch(table, linked, first.Metadata());
    CompletionReachable(first.state);
    if first.brokerOrderId != "" {
      if first.brokerOrderId !in linked {
        var _ := journal.RecordSignal(Backfill(first, first.brokerOrderId, Lookup(table, first.brokerOrderId)));
      }
      var done := Finish(store, id, None, COMPLETED, now);
      r := Ok(Resolved(id, COMPLETED, first.brokerOrderId));
      t := Resolve(s, id, done.value, journal.rows, first.brokerOrderId);
    } else if found.Some? {
      var _ := journal.RecordSignal(Backfill(first, found.value.id, found));
      var done := Finish(store, id, Some(found.value.id), COMPLETED, now);
      r := Ok(Resolved(id, COMPLETED, found.value.id));
      t := Resolve(s, id, done.value, journal.rows, found.value.id);
    } else {
      var failed := Finish(store, id, None, FAILED_TERMINAL, now);
      if failed.Err? {
        return Err(failed.error), s;
      }
      r := Ok(Resolved(id, FAILED_TERMINAL, ""));
      t := Resolve(s, id, failed.value, journal.rows, "");
    }
  }

  lemma TraceOn(tr: seq<Pass>, records: map<ExecId, Record>, rows: seq<Row>, order: seq<ExecId>,
                table: seq<Position>, gate: int, now: int, t: Pass)
    requires Trace(tr, records, rows, order, table, gate, now) && |tr| <= |order|
    requires Turn(tr[|tr| - 1], order[|tr| - 1], table, gate, now, t)
    ensures Trace(tr + [t], records, rows, order, table, gate, now)
  {
    forall i | 0 <= i < |tr| ensures TurnAt(tr + [t], order, table, gate, now, i) {
      assert i < |tr| - 1 ==> TurnAt(tr, order, table, gate, now, i);
    }
  }

  lemma ResolvedAreLinked(tr: seq<Pass>, records: map<ExecId, Record>, rows: seq<Row>, order: seq<ExecId>,
                          table: seq<Position>, gate: int, now: int)
    requires Trace(tr, records, rows, order, table, gate, now) && ValidStore(records) && ValidRows(rows)
    ensures var s := tr[|tr| - 1]; forall o | o in s.resolved :: o.orderId == "" || o.orderId in s.linked
  {
    TraceInv(tr, records, rows, order, table, gate, now, |tr| - 1);
  }

  /** One recovery pass over everything that is incomplete. */
  method ReconcilePendingExecutions(store: ExecutionStateStore, journal: TradeJournalDB, positions: seq<Position>,
                                    gate: int, now: int)
    returns (report: Result<Report, StoreError>, ghost order: seq<ExecId>, ghost tr: seq<Pass>)
    requires ValidStore(store.records) && ValidRows(journal.rows)
    modifies store, journal
    ensures Trace(tr, old(store.records), old(journal.rows), order, Indexed(positions), gate, now)
    ensures store.records == tr[|tr| - 1].records && journal.rows == tr[|tr| - 1].rows
    ensures report.Ok? ==> Completes(tr, order)
    ensures report.Ok? ==> report.value == Report(tr[|tr| - 1].resolved, Orphans(Indexed(positions), tr[|tr| - 1]))
    ensures report.Err? ==> Raises(tr, order, Indexed(positions), gate, now)
  {
    var incomplete := store.RecoverIncomplete();
    var snapshot := store.records;
    var linked := journal.GetBrokerOrderIds();
    var table := Indexed(positions);
    var resolved: seq<Resolved> := [];
    var deferred: set<string> := {};
    ghost var rows := journal.rows;
    order := incomplete;
    tr := [Begin(snapshot, rows)];
    for i := 0 to |incomplete|
      invariant |tr| == i + 1 && Trace(tr, snapshot, rows, order, table, gate, now)
      invariant ValidStore(store.records) && ValidRows(journal.rows)
      invariant tr[i] == Pass(store.records, journal.rows, linked, resolved, deferred)
    {
      var id := incomplete[i];
      Untouched(tr, snapshot, rows, order, table, gate, now);
      var record := snapshot[id];
      ghost var t;
      if record.brokerOrderId == "" && !PastAgeGate(record, gate, now) {
        var found := FindMatch(table, linked, record.Metadata());
        deferred := deferred + if found.Some? then {found.value.id} else {};
        t := Pass(store.records, journal.rows, linked, resolved, deferred);
      } else {
        var outcome;
        outcome, t := ReconcileOne(store, journal, id, table, linked, gate, now, tr[i]);
        if outcome.Err? {
          return Err(outcome.error), order, tr;
        }
        resolved := resolved + [outcome.value];
        linked := if outcome.value.orderId == "" then linked else linked + {outcome.value.orderId};
      }
      TraceOn(tr, snapshot, rows, order, table, gate, now, t);
      tr := tr + [t];
    }
    ResolvedAreLinked(tr, snapshot, rows, order, table, gate, now);
    var orphaned := ReportOrphans(table, linked, resolved, deferred, tr[|incomplete|]);
    return Ok(Report(resolved, orphaned)), order, tr;
  }

  method ReportOrphans(table: seq<Position>, linked: set<string>, resolved: seq<Resolved>, deferred: set<string>,
                       ghost s: Pass)
    returns (orphaned: seq<Position>)
    requires s.linked == linked && s.deferred == deferred
    requires forall o | o in resolved :: o.orderId == "" || o.orderId in linked
    ensures orphaned == Orphans(table, s)
  {
    var claimed := set o | o in resolved && o.orderId != "" :: o.orderId;
    orphaned := [];
    var j := |table|;
    while j > 0
      invariant 0 <= j <= |table| && orphaned == Orphans(table[j..], s)
    {
      j := j - 1;
      assert table[j..] == [table[j]] + table[j + 1..];
      if table[j].id !in linked && table[j].id !in claimed && table[j].id !in deferred {
        orphaned := [table[j]] + orphaned;
      }
    }
    assert table[0..] == table;
  }
}
