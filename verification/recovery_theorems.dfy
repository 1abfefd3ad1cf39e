/** What a recovery pass guarantees, for every order in which it may take the records. */
module RecoveryTheorems {
  import opened ExecutionState
  import opened TradeJournal
  import opened Positions
  import opened StartupRecovery

  // ---- Every record ends, or the pass raises ----

  /** A record that would have to fail although failure is out of its reach. */
  predicate PastRescue(r: Record, gate: int, now: int) {
    r.Incomplete() && r.brokerOrderId == "" && !Defers(r, gate, now) && r.state in PAST_FAILURE
  }

  ghost predicate CanRaise(records: map<ExecId, Record>, rows: seq<Row>, gate: int, now: int) {
    exists tr, order, table | Trace(tr, records, rows, order, table, gate, now) :: Raises(tr, order, table, gate, now)
  }

  lemma {:induction false} ListingExists(s: set<ExecId>) returns (xs: seq<ExecId>)
    ensures Lists(xs, s)
  {
    if s == {} {
      xs := [];
    } else {
      var x :| x in s;
      var rest := ListingExists(s - {x});
      xs := [x] + rest;
      assert forall y :: y in xs <==> y == x || y in rest;
    }
  }

  lemma {:induction false} ListingSize(xs: seq<ExecId>, s: set<ExecId>)
    requires Lists(xs, s)
    ensures |xs| == |s|
  {
    if xs != [] {
      var x, rest := xs[0], xs[1..];
      assert forall y :: y in xs <==> y == x || y in rest;
      ListingSize(rest, s - {x});
    }
  }

  lemma ListingFrom(s: set<ExecId>, first: ExecId) returns (xs: seq<ExecId>)
    requires first in s
    ensures Lists(xs, s) && xs != [] && xs[0] == first
  {
    var rest := ListingExists(s - {first});
    xs := [first] + rest;
    assert forall y :: y in xs <==> y == first || y in rest;
  }

  /** A pass that took record `id` first and was interrupted after it. */
  lemma PassTakingFirst(records: map<ExecId, Record>, rows: seq<Row>, table: seq<Position>, gate: int, now: int,
                        id: ExecId, t: Pass)
    returns (order: seq<ExecId>)
    requires id in records && records[id].Incomplete() && DistinctIds(table) && !HasId(table, "")
    requires Turn(Begin(records, rows), id, table, gate, now, t)
    ensures Trace([Begin(records, rows), t], records, rows, order, table, gate, now)
  {
    order := ListingFrom(IncompleteIds(records), id);
    var tr := FirstTurn(records, rows, order, table, gate, now, t);
  }

  lemma RaisingRecord(tr: seq<Pass>, records: map<ExecId, Record>, rows: seq<Row>, order: seq<ExecId>,
                      table: seq<Position>, gate: int, now: int)
    requires ValidStore(records) && ValidRows(rows)
    requires Trace(tr, records, rows, order, table, gate, now) && Raises(tr, order, table, gate, now)
    ensures order[|tr| - 1] in records && PastRescue(records[order[|tr| - 1]], gate, now)
  {
    Untouched(tr, records, rows, order, table, gate, now);
    FailureReachable(records[order[|tr| - 1]].state);
  }

  lemma PastRescueRaises(records: map<ExecId, Record>, rows: seq<Row>, gate: int, now: int, id: ExecId)
    requires ValidStore(records) && ValidRows(rows) && id in records && PastRescue(records[id], gate, now)
    ensures CanRaise(records, rows, gate, now)
  {
    var order := ListingFrom(IncompleteIds(records), id);
    FailureReachable(records[id].state);
    var tr, table: seq<Position> := [Begin(records, rows)], [];
    assert Trace(tr, records, rows, order, table, gate, now);
    assert Raises(tr, order, table, gate, now);
  }

  /**
    Whatever the broker reports and in whatever order the records are taken, no pass raises, exactly when
    no incomplete record that is old enough lacks an order id although it is past the point of failing.
   */
  lemma PassRaisesOnlyPastRescue(records: map<ExecId, Record>, rows: seq<Row>, gate: int, now: int)
    requires ValidStore(records) && ValidRows(rows)
    ensures !CanRaise(records, rows, gate, now) <==> forall id | id in records :: !PastRescue(records[id], gate, now)
  {
    if CanRaise(records, rows, gate, now) {
      var tr: seq<Pass>, order, table :| Trace(tr, records, rows, order, table, gate, now)
        && Raises(tr, order, table, gate, now);
      RaisingRecord(tr, records, rows, order, table, gate, now);
    }
    forall id | id in records && PastRescue(records[id], gate, now)
      ensures CanRaise(records, rows, gate, now)
    {
      PastRescueRaises(records, rows, gate, now, id);
    }
  }

  /**
    After a complete pass every record that was not set aside has ended, and it succeeded exactly if it has an order id.
   */
  lemma PassResolvesEverything(tr: seq<Pass>, records: map<ExecId, Record>, rows: seq<Row>, order: seq<ExecId>,
                               table: seq<Position>, gate: int, now: int, id: ExecId)
    requires ValidStore(records) && ValidRows(rows) && id in records
    requires Trace(tr, records, rows, order, table, gate, now) && Completes(tr, order)
    ensures id in tr[|order|].records
    ensures var after := tr[|order|].records[id];
      if !records[id].Incomplete() || Defers(records[id], gate, now) then after == records[id]
      else after.state == if after.brokerOrderId == "" then FAILED_TERMINAL else COMPLETED
  {
    TraceInv(tr, records, rows, order, table, gate, now, |order|);
    assert order[..|order|] == order;
  }

  /** Every point of every pass keeps the journal free of shared order ids. */
  lemma PassKeepsOrderIdsUnique(tr: seq<Pass>, records: map<ExecId, Record>, rows: seq<Row>, order: seq<ExecId>,
                                table: seq<Position>, gate: int, now: int, i: nat)
    requires ValidStore(records) && ValidRows(rows) && OrderIdsUnique(rows)
    requires Trace(tr, records, rows, order, table, gate, now) && i < |tr|
    ensures OrderIdsUnique(tr[i].rows) && rows <= tr[i].rows
  {
    TraceInv(tr, records, rows, order, table, gate, now, i);
  }

  // ---- Every position is accounted for ----

  /**
    After a pass an open position is journaled, reported as an orphan, or held for a deferred record: exactly one of
    them.
   */
  lemma PositionsPartitioned(tr: seq<Pass>, records: map<ExecId, Record>, rows: seq<Row>, order: seq<ExecId>,
                             table: seq<Position>, gate: int, now: int, p: Position)
    requires ValidStore(records) && ValidRows(rows) && p in table
    requires Trace(tr, records, rows, order, table, gate, now) && Completes(tr, order)
    ensures var s := tr[|order|];
      var journaled, orphaned, held := p.id in OrderIds(s.rows), p in Orphans(table, s),
                                       p.id in s.deferred && p.id !in OrderIds(s.rows);
      (journaled || orphaned || held) && !(journaled && orphaned) && !(journaled && held) && !(orphaned && held)
  {
    TraceInv(tr, records, rows, order, table, gate, now, |order|);
  }

  /** With no age gate a second pass over the same positions finds nothing to do and reports the same orphans. */
  lemma SecondPassChangesNothing(tr: seq<Pass>, records: map<ExecId, Record>, rows: seq<Row>, order: seq<ExecId>,
                                 table: seq<Position>, now: int,
                                 tr2: seq<Pass>, order2: seq<ExecId>, gate2: int, now2: int)
    requires ValidStore(records) && ValidRows(rows)
    requires Trace(tr, records, rows, order, table, 0, now) && Completes(tr, order)
    requires Trace(tr2, tr[|order|].records, tr[|order|].rows, order2, table, gate2, now2)
    ensures Completes(tr2, order2)
    ensures var first, second := tr[|order|], tr2[|order2|];
      && second.records == first.records && second.rows == first.rows && second.resolved == []
      && Orphans(table, second) == Orphans(table, first)
  {
    TraceInv(tr, records, rows, order, table, 0, now, |order|);
    assert order[..|order|] == order;
    var after := tr[|order|];
    forall id | id in after.records ensures !after.records[id].Incomplete() {
      assert Treated(records[id], after.records[id], id in order, 0, now);
    }
    assert IncompleteIds(after.records) == {};
    ListingSize(order2, {});
    SameOrphans(table, after, tr2[0]);
  }

  lemma {:induction false} SameOrphans(table: seq<Position>, s: Pass, t: Pass)
    requires s.linked == t.linked && s.deferred == t.deferred
    ensures Orphans(table, s) == Orphans(table, t)
  {
    if table != [] {
      SameOrphans(table[1..], s, t);
    }
  }
}
