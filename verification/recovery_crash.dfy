/**
  A recovery pass that a crash stops. Each write of the pass is durable on its own: the journal row,
  the order id attached to the record, and every single transition on the record's way to its end.
 */
module RecoveryCrash {
  import opened Wrappers
  import opened GraphSearch
  import opened ExecutionState
  import opened TradeJournal
  import opened Positions
  import opened StartupRecovery
  import opened RecoveryTheorems
  import opened RecoveryOwnership

  /** `after` is `before` some of the way to `full`. */
  ghost predicate OnTheWay(before: Record, after: Record, full: Record, now: int) {
    && before.history <= after.history <= full.history
    && after == if after.history == before.history then before
                else before.(state := after.history[|after.history| - 1].state, history := after.history,
                             updatedAt := now)
  }

  /** Some of the transitions of a walk to `goal` are made. */
  ghost predicate PartWay(before: Record, after: Record, goal: State, now: int) {
    exists full | Advanced(before, full, goal, now) :: OnTheWay(before, after, full, now)
  }

  /** Which order the record would get in this turn; none when it would fail. */
  function OwnerOf(s: Pass, r: Record, table: seq<Position>): string {
    var found := FindMatch(table, s.linked, r.Metadata());
    if r.brokerOrderId != "" then r.brokerOrderId else if found.Some? then found.value.id else ""
  }

  /** The rows once the turn has made sure that the order is journaled. */
  function JournaledFor(s: Pass, r: Record, table: seq<Position>): seq<Row> {
    var found := FindMatch(table, s.linked, r.Metadata());
    var owner := OwnerOf(s, r, table);
    if owner == "" || owner in s.linked then s.rows
    else Inserted(s.rows, Backfill(r, owner, if r.brokerOrderId != "" then Lookup(table, owner) else found))
  }

  /** A crash stopped the turn of record `id` after some of its writes: the row, the attached id, some transitions. */
  ghost predicate Torn(s: Pass, id: ExecId, table: seq<Position>, gate: int, now: int, records': map<ExecId, Record>,
                       rows': seq<Row>)
  {
    id in s.records && id in records' && records' == s.records[id := records'[id]] &&
    var r := s.records[id];
    var owner := OwnerOf(s, r, table);
    && !Defers(r, gate, now) && rows' == JournaledFor(s, r, table)
    && (records'[id] == r
        || PartWay(if r.brokerOrderId == owner then r else r.(brokerOrderId := owner, updatedAt := now), records'[id],
                   if owner == "" then FAILED_TERMINAL else COMPLETED, now))
  }

  /** What the store and the journal hold when a pass has got this far, between two records or within one. */
  ghost predicate Stops(tr: seq<Pass>, order: seq<ExecId>, table: seq<Position>, gate: int, now: int,
                        records': map<ExecId, Record>, rows': seq<Row>)
    requires tr != []
  {
    var s := tr[|tr| - 1];
    || (records' == s.records && rows' == s.rows)
    || (|tr| <= |order| && Torn(s, order[|tr| - 1], table, gate, now, records', rows'))
  }

  lemma OnTheWayIsSafe(before: Record, after: Record, full: Record, goal: State, now: int)
    requires LegalHistory(before) && Advanced(before, full, goal, now) && OnTheWay(before, after, full, now)
    ensures LegalHistory(after)
  {
    if after.history != before.history {
      AdvancedIsSafe(before, full, goal, now);
      var walk, all := StatesOf(after.history), StatesOf(full.history);
      forall i | 0 <= i < |walk| ensures walk[i] == all[i] {
        assert after.history[i] == full.history[i];
      }
      assert forall i | 0 <= i < |walk| - 1 :: all[i + 1] in Allowed(all[i]);
    }
  }

  /** From a state next to failure the way to failure is one transition at most. */
  lemma FailureIsNext(before: Record, full: Record, now: int)
    requires FAILED_TERMINAL in Allowed(before.state) && Advanced(before, full, FAILED_TERMINAL, now)
    ensures |full.history| <= |before.history| + 1
    ensures |full.history| > |before.history| ==> full.history[|before.history|].state == FAILED_TERMINAL
  {
    var n := |before.history|;
    var path := [before.state] + StatesOf(full.history[n..]);
    assert Joins(Allowed, [before.state, FAILED_TERMINAL], before.state, FAILED_TERMINAL);
    if |full.history| > n {
      assert path[1] == full.history[n].state;
    }
  }

  lemma NoStopBeforeFailure(before: Record, after: Record, now: int)
    requires FAILED_TERMINAL in Allowed(before.state) && PartWay(before, after, FAILED_TERMINAL, now)
    ensures after.state in {before.state, FAILED_TERMINAL}
  {
    var full :| Advanced(before, full, FAILED_TERMINAL, now) && OnTheWay(before, after, full, now);
    FailureIsNext(before, full, now);
    StopsAtOneOfTwo(before, after, full, now);
  }

  lemma StopsAtOneOfTwo(before: Record, after: Record, full: Record, now: int)
    requires OnTheWay(before, after, full, now) && |full.history| <= |before.history| + 1
    requires |full.history| > |before.history| ==> full.history[|before.history|].state == FAILED_TERMINAL
    ensures after.state in {before.state, FAILED_TERMINAL}
  {
    if |after.history| == |before.history| {
      assert after.history == before.history;
    }
  }

  /** What a pass may have done to a record, wherever it stopped. */
  ghost predicate Kept(before: Record, after: Record, gate: int, now: int) {
    && after.signalId == before.signalId
    && (!before.Incomplete() || Defers(before, gate, now) ==> after == before)
    && (before.brokerOrderId != "" ==> after.brokerOrderId == before.brokerOrderId)
    && (after.brokerOrderId == "" && FAILED_TERMINAL in Allowed(before.state)
      ==> after.state in {before.state, FAILED_TERMINAL})
  }

  ghost predicate StopInv(records: map<ExecId, Record>, rows: seq<Row>, gate: int, now: int,
                          records': map<ExecId, Record>, rows': seq<Row>)
  {
    && ValidStore(records') && records'.Keys == records.Keys
    && (forall id | id in records :: Kept(records[id], records'[id], gate, now))
    && ValidRows(rows') && rows <= rows' && (OrderIdsUnique(rows) ==> OrderIdsUnique(rows'))
  }

  lemma TornRecord(s: Pass, id: ExecId, table: seq<Position>, gate: int, now: int, records': map<ExecId, Record>,
                   rows': seq<Row>)
    requires Torn(s, id, table, gate, now, records', rows') && !HasId(table, "")
    requires s.records[id].id == id && LegalHistory(s.records[id]) && s.records[id].Incomplete()
    ensures records'[id].id == id && LegalHistory(records'[id]) && Kept(s.records[id], records'[id], gate, now)
  {
    var r, r' := s.records[id], records'[id];
    if r' != r {
      var owner := OwnerOf(s, r, table);
      var owned := if r.brokerOrderId == owner then r else r.(brokerOrderId := owner, updatedAt := now);
      var goal := if owner == "" then FAILED_TERMINAL else COMPLETED;
      var full :| Advanced(owned, full, goal, now) && OnTheWay(owned, r', full, now);
      OnTheWayIsSafe(owned, r', full, goal, now);
      if owner == "" && FAILED_TERMINAL in Allowed(r.state) {
        NoStopBeforeFailure(r, r', now);
      }
    }
  }

  lemma TornRows(s: Pass, id: ExecId, table: seq<Position>, gate: int, now: int, records': map<ExecId, Record>,
                 rows': seq<Row>)
    requires Torn(s, id, table, gate, now, records', rows') && ValidRows(s.rows) && s.linked == OrderIds(s.rows)
    ensures ValidRows(rows') && s.rows <= rows' && (OrderIdsUnique(s.rows) ==> OrderIdsUnique(rows'))
  {
    var r := s.records[id];
    var owner := OwnerOf(s, r, table);
    InsertedOrderIds(s.rows, Backfill(r, owner, Lookup(table, owner)));
    InsertedOrderIds(s.rows, Backfill(r, owner, FindMatch(table, s.linked, r.Metadata())));
  }

  /** Wherever a pass stops, it has kept the store and the journal in order. */
  lemma StopIsSafe(tr: seq<Pass>, records: map<ExecId, Record>, rows: seq<Row>, order: seq<ExecId>,
                   table: seq<Position>, gate: int, now: int, records': map<ExecId, Record>, rows': seq<Row>)
    requires ValidStore(records) && ValidRows(rows) && Trace(tr, records, rows, order, table, gate, now)
    requires Stops(tr, order, table, gate, now, records', rows')
    ensures StopInv(records, rows, gate, now, records', rows')
  {
    var n := |tr| - 1;
    BetweenRecordsIsSafe(tr, records, rows, order, table, gate, now, n);
    if records' != tr[n].records || rows' != tr[n].rows {
      WithinRecordIsSafe(tr, records, rows, order, table, gate, now, records', rows');
    }
  }

  lemma BetweenRecordsIsSafe(tr: seq<Pass>, records: map<ExecId, Record>, rows: seq<Row>, order: seq<ExecId>,
                             table: seq<Position>, gate: int, now: int, i: nat)
    requires ValidStore(records) && ValidRows(rows) && Trace(tr, records, rows, order, table, gate, now) && i < |tr|
    ensures StopInv(records, rows, gate, now, tr[i].records, tr[i].rows) && tr[i].linked == OrderIds(tr[i].rows)
  {
    TraceInv(tr, records, rows, order, table, gate, now, i);
    forall id | id in records ensures Kept(records[id], tr[i].records[id], gate, now) {
      assert Treated(records[id], tr[i].records[id], id in order[..i], gate, now);
    }
  }

  lemma WithinRecordIsSafe(tr: seq<Pass>, records: map<ExecId, Record>, rows: seq<Row>, order: seq<ExecId>,
                           table: seq<Position>, gate: int, now: int, records': map<ExecId, Record>, rows': seq<Row>)
    requires ValidStore(records) && ValidRows(rows) && Trace(tr, records, rows, order, table, gate, now)
      && |tr| <= |order|
    requires Torn(tr[|tr| - 1], order[|tr| - 1], table, gate, now, records', rows')
    ensures StopInv(records, rows, gate, now, records', rows')
  {
    var n := |tr| - 1;
    var s, id := tr[n], order[n];
    BetweenRecordsIsSafe(tr, records, rows, order, table, gate, now, n);
    Untouched(tr, records, rows, order, table, gate, now);
    assert !HasId(table, "");
    TornRecord(s, id, table, gate, now, records', rows');
    TornRows(s, id, table, gate, now, records', rows');
    OneRecordMore(records, rows, gate, now, s.records, s.rows, id, records'[id], rows');
  }

  lemma OneRecordMore(records: map<ExecId, Record>, rows: seq<Row>, gate: int, now: int, records1: map<ExecId, Record>,
                      rows1: seq<Row>, id: ExecId, r': Record, rows': seq<Row>)
    requires StopInv(records, rows, gate, now, records1, rows1) && id in records
    requires r'.id == id && LegalHistory(r') && Kept(records[id], r', gate, now)
    requires ValidRows(rows') && rows1 <= rows' && (OrderIdsUnique(rows1) ==> OrderIdsUnique(rows'))
    ensures StopInv(records, rows, gate, now, records1[id := r'], rows')
  {
  }

  // ---- What a crash between two writes costs ----

  /** Every open position that the record could adopt is journaled already. */
  ghost predicate NothingLeft(rows: seq<Row>, table: seq<Position>, r: Record) {
    forall q | q in table && Compatible(r.Metadata(), q) :: q.id in OrderIds(rows)
  }

  /**
    A pass that finds every position journaled which a seeking record could adopt fails the record, when its turn has
    come.
   */
  lemma SeekerFails(tr: seq<Pass>, records: map<ExecId, Record>, rows: seq<Row>, order: seq<ExecId>,
                    table: seq<Position>, gate: int, now: int, id: ExecId, i: nat)
    requires ValidStore(records) && ValidRows(rows) && Trace(tr, records, rows, order, table, gate, now) && i < |tr|
    requires id in records && Seeks(records[id], gate, now) && NothingLeft(rows, table, records[id]) && id in order[..i]
    ensures id in tr[i].records && tr[i].records[id].state == FAILED_TERMINAL
  {
    var k :| 0 <= k < i && order[..i][k] == id;
    AtTurn(tr, records, rows, order, table, gate, now, k);
    TraceInv(tr, records, rows, order, table, gate, now, k);
    JournaledStaysJournaled(rows, tr[k].rows);
    var r := records[id];
    forall q | q in table ensures !Fits(q, tr[k].linked, r.Metadata()) { }
    assert tr[k + 1].records[id].state == FAILED_TERMINAL && tr[k + 1].records[id].brokerOrderId == "";
    EndsStay(tr, records, rows, order, table, gate, now, k + 1, i, id);
  }

  lemma JournaledStaysJournaled(rows: seq<Row>, rows': seq<Row>)
    requires rows <= rows'
    ensures OrderIds(rows) <= OrderIds(rows')
  {
    forall r | r in rows ensures r in rows' {
      var i :| 0 <= i < |rows| && rows[i] == r;
      assert rows'[i] == r;
    }
  }

  lemma EndStays(s: Pass, taken: ExecId, table: seq<Position>, gate: int, now: int, t: Pass, id: ExecId)
    requires Turn(s, taken, table, gate, now, t) && s.records[taken].Incomplete()
    requires id in s.records && !s.records[id].Incomplete()
    ensures id in t.records && t.records[id] == s.records[id]
  {
  }

  lemma EndStaysAt(tr: seq<Pass>, records: map<ExecId, Record>, rows: seq<Row>, order: seq<ExecId>,
                   table: seq<Position>, gate: int, now: int, i: nat, id: ExecId)
    requires ValidStore(records) && ValidRows(rows) && Trace(tr, records, rows, order, table, gate, now) && i + 1 < |tr|
    requires id in tr[i].records && !tr[i].records[id].Incomplete()
    ensures id in tr[i + 1].records && tr[i + 1].records[id] == tr[i].records[id]
  {
    AtTurn(tr, records, rows, order, table, gate, now, i);
    EndStays(tr[i], order[i], table, gate, now, tr[i + 1], id);
  }

  lemma {:induction false} EndsStay(tr: seq<Pass>, records: map<ExecId, Record>, rows: seq<Row>, order: seq<ExecId>,
                                    table: seq<Position>, gate: int, now: int, i: nat, j: nat, id: ExecId)
    requires ValidStore(records) && ValidRows(rows) && Trace(tr, records, rows, order, table, gate, now)
      && i <= j < |tr|
    requires id in tr[i].records && !tr[i].records[id].Incomplete()
    ensures id in tr[j].records && tr[j].records[id] == tr[i].records[id]
    decreases j - i
  {
    if i < j {
      EndStaysAt(tr, records, rows, order, table, gate, now, i, id);
      EndsStay(tr, records, rows, order, table, gate, now, i + 1, j, id);
    }
  }

  /** The journal when a crash comes right after the row of the position that the record adopts. */
  function RowOnly(rows: seq<Row>, r: Record, p: Position): seq<Row> {
    Inserted(rows, Backfill(r, p.id, Some(p)))
  }

  /** The record seeks, and `p` is the position that it takes when its turn comes first. */
  ghost predicate Adopts(records: map<ExecId, Record>, rows: seq<Row>, table: seq<Position>, gate: int, now: int,
                         id: ExecId, p: Position)
  {
    && DistinctIds(table) && !HasId(table, "") && id in records && Seeks(records[id], gate, now)
    && FindMatch(table, OrderIds(rows), records[id].Metadata()) == Some(p)
  }

  /** Such a crash is possible: the order is journaled, and the record does not know it. */
  lemma CrashAfterRow(records: map<ExecId, Record>, rows: seq<Row>, table: seq<Position>, gate: int, now: int,
                      id: ExecId, p: Position)
    returns (tr: seq<Pass>, order: seq<ExecId>)
    requires Adopts(records, rows, table, gate, now, id, p)
    ensures Trace(tr, records, rows, order, table, gate, now)
    ensures Stops(tr, order, table, gate, now, records, RowOnly(rows, records[id], p))
    ensures p.id in OrderIds(RowOnly(rows, records[id], p)) && records[id].brokerOrderId == ""
  {
    order := ListingFrom(IncompleteIds(records), id);
    var s := Begin(records, rows);
    tr := [s];
    InsertedOrderIds(rows, Backfill(records[id], p.id, Some(p)));
    assert HasId(table, p.id);
    assert records == s.records[id := records[id]];
    assert Torn(s, id, table, gate, now, records, RowOnly(rows, records[id], p));
  }

  /** Some pass has completed the record. */
  ghost predicate HasCompleted(tr: seq<Pass>, records: map<ExecId, Record>, rows: seq<Row>, order: seq<ExecId>,
                               table: seq<Position>, gate: int, now: int, i: nat, id: ExecId)
  {
    && Trace(tr, records, rows, order, table, gate, now) && i < |tr|
    && id in tr[i].records && tr[i].records[id].state == COMPLETED
  }

  /** No pass over these positions, at any later time and in any order, completes the record. */
  ghost predicate NeverCompletes(records: map<ExecId, Record>, rows: seq<Row>, table: seq<Position>, gate: int,
                                 id: ExecId)
  {
    forall tr, order, now, i :: !HasCompleted(tr, records, rows, order, table, gate, now, i, id)
  }

  lemma NothingLeftNeverCompletes(records: map<ExecId, Record>, rows: seq<Row>, table: seq<Position>, gate: int,
                                  id: ExecId)
    requires ValidStore(records) && ValidRows(rows)
    requires id in records && records[id].Incomplete() && records[id].brokerOrderId == ""
      && NothingLeft(rows, table, records[id])
    ensures NeverCompletes(records, rows, table, gate, id)
  {
    forall tr: seq<Pass>, order, now: int, i: nat | Trace(tr, records, rows, order, table, gate, now) && i < |tr|
      ensures !HasCompleted(tr, records, rows, order, table, gate, now, i, id)
    {
      if id in order[..i] && Seeks(records[id], gate, now) {
        SeekerFails(tr, records, rows, order, table, gate, now, id, i);
      } else {
        TraceInv(tr, records, rows, order, table, gate, now, i);
        assert Treated(records[id], tr[i].records[id], id in order[..i], gate, now);
      }
    }
  }

  /** A free position that fits is adopted by a pass that takes the record first. */
  lemma FreeFitCompletes(records: map<ExecId, Record>, rows: seq<Row>, table: seq<Position>, gate: int, now: int,
                         id: ExecId, q: Position)
    requires ValidStore(records) && DistinctIds(table) && !HasId(table, "")
    requires id in records && Seeks(records[id], gate, now) && q in table
      && Fits(q, OrderIds(rows), records[id].Metadata())
    ensures !NeverCompletes(records, rows, table, gate, id)
  {
    var s, r := Begin(records, rows), records[id];
    var order := ListingFrom(IncompleteIds(records), id);
    var p := FindMatch(table, s.linked, r.Metadata()).value;
    CompletionReachable(r.state);
    var r' := AdvanceExists(r.(brokerOrderId := p.id, updatedAt := now), COMPLETED, now);
    var t := Resolve(s, id, r', Inserted(rows, Backfill(r, p.id, Some(p))), p.id);
    var tr := FirstTurn(records, rows, order, table, gate, now, t);
    assert HasCompleted(tr, records, rows, order, table, gate, now, 1, id);
  }

  /**
    After a crash between the row of the adopted position and the attachment of its id, no pass over the same positions
    ever completes the record, although its order lives and is journaled, exactly when no other free position fits it.
   */
  lemma CrashLosesTheOrder(records: map<ExecId, Record>, rows: seq<Row>, table: seq<Position>, gate: int, now: int,
                           id: ExecId, p: Position)
    requires ValidStore(records) && ValidRows(rows) && Adopts(records, rows, table, gate, now, id, p)
    ensures NeverCompletes(records, RowOnly(rows, records[id], p), table, gate, id)
      <==> forall q | q in table && Fits(q, OrderIds(rows), records[id].Metadata()) :: q == p
  {
    var rows' := RowOnly(rows, records[id], p);
    InsertedOrderIds(rows, Backfill(records[id], p.id, Some(p)));
    if forall q | q in table && Fits(q, OrderIds(rows), records[id].Metadata()) :: q == p {
      assert HasId(table, p.id);
      NothingLeftNeverCompletes(records, rows', table, gate, id);
    } else {
      var q :| q in table && Fits(q, OrderIds(rows), records[id].Metadata()) && q != p;
      DistinctPositions(table, p, q);
      FreeFitCompletes(records, rows', table, gate, now, id, q);
    }
  }

  lemma DistinctPositions(table: seq<Position>, p: Position, q: Position)
    requires DistinctIds(table) && p in table && q in table && p != q
    ensures p.id != q.id
  {
  }
}
