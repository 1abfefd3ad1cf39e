/**
  What a recovery pass reports: which records it resolved and how, and which positions it holds back for records that
  are too young.
 */
module RecoveryReport {
  import opened ExecutionState
  import opened TradeJournal
  import opened Positions
  import opened StartupRecovery
  import opened RecoveryTheorems

  /** The pass has to resolve this record. */
  predicate Due(r: Record, gate: int, now: int) {
    r.Incomplete() && !(r.brokerOrderId == "" && gate > 0 && now - r.updatedAt < gate)
  }

  ghost predicate Reported(resolved: seq<Resolved>, id: ExecId) {
    exists k | 0 <= k < |resolved| :: resolved[k].id == id
  }

  /** Every due record among these is reported once, with the state and the order id that the store has for it. */
  ghost predicate ReportInv(records: map<ExecId, Record>, done: seq<ExecId>, gate: int, now: int, s: Pass) {
    && (forall id | id in records :: Reported(s.resolved, id) <==> id in done && Due(records[id], gate, now))
    && (forall k | 0 <= k < |s.resolved| ::
          && s.resolved[k].id in records && s.resolved[k].id in s.records
          && s.records[s.resolved[k].id].state == s.resolved[k].finalState
          && s.records[s.resolved[k].id].brokerOrderId == s.resolved[k].orderId)
    && forall j, k | 0 <= j < k < |s.resolved| :: s.resolved[j].id != s.resolved[k].id
  }

  lemma ReportedWithOneMore(resolved: seq<Resolved>, o: Resolved, id: ExecId)
    ensures Reported(resolved + [o], id) <==> Reported(resolved, id) || id == o.id
  {
    var all := resolved + [o];
    assert all[|resolved|] == o;
    if k :| 0 <= k < |resolved| && resolved[k].id == id {
      assert all[k].id == id;
    }
  }

  /** Resolving one record adds its line and leaves the others true. */
  lemma LineAdded(records: map<ExecId, Record>, done: seq<ExecId>, gate: int, now: int, s: Pass, id: ExecId,
                  r': Record, t: Pass)
    requires ReportInv(records, done, gate, now, s)
    requires id in records && id !in done && Due(records[id], gate, now)
    requires t.records == s.records[id := r'] && t.resolved == s.resolved + [Resolved(id, r'.state, r'.brokerOrderId)]
    ensures ReportInv(records, done + [id], gate, now, t)
  {
    var o := Resolved(id, r'.state, r'.brokerOrderId);
    forall other | other in records
      ensures Reported(t.resolved, other) <==> other in done + [id] && Due(records[other], gate, now)
    {
      ReportedWithOneMore(s.resolved, o, other);
    }
    forall k | 0 <= k < |s.resolved| ensures s.resolved[k].id != id {
      assert Reported(s.resolved, s.resolved[k].id);
    }
  }

  lemma TurnKeepsReport(records: map<ExecId, Record>, done: seq<ExecId>, id: ExecId, table: seq<Position>, gate: int,
                        now: int, s: Pass, t: Pass)
    requires id in records && id !in done && records[id].Incomplete()
    requires id in s.records && s.records[id] == records[id] && !HasId(table, "")
    requires ReportInv(records, done, gate, now, s) && Turn(s, id, table, gate, now, t)
    ensures ReportInv(records, done + [id], gate, now, t)
  {
    var m := FindMatch(table, s.linked, records[id].Metadata());
    if Defers(records[id], gate, now) {
      forall other | other in records
        ensures Reported(t.resolved, other) <==> other in done + [id] && Due(records[other], gate, now)
      {
      }
    } else {
      assert m.Some? ==> HasId(table, m.value.id);
      LineAdded(records, done, gate, now, s, id, t.records[id], t);
    }
  }

  /** At every point of a pass the report so far is true of the store. */
  lemma {:induction false} ReportIsTrue(tr: seq<Pass>, records: map<ExecId, Record>, rows: seq<Row>,
                                        order: seq<ExecId>, table: seq<Position>, gate: int, now: int, i: nat)
    requires Trace(tr, records, rows, order, table, gate, now) && ValidStore(records) && ValidRows(rows)
    requires i < |tr|
    ensures ReportInv(records, order[..i], gate, now, tr[i])
  {
    if i > 0 {
      ReportIsTrue(tr, records, rows, order, table, gate, now, i - 1);
      AtTurn(tr, records, rows, order, table, gate, now, i - 1);
      TraceTurn(tr, records, rows, order, table, gate, now, i - 1);
      TurnKeepsReport(records, order[..i - 1], order[i - 1], table, gate, now, tr[i - 1], tr[i]);
    } else {
      assert order[..0] == [];
    }
  }

  /**
    A complete pass reports every record that was due, and no other, once: as completed with its order id, or as failed
    without one, which is how the store has it.
   */
  lemma ReportIsExact(tr: seq<Pass>, records: map<ExecId, Record>, rows: seq<Row>, order: seq<ExecId>,
                      table: seq<Position>, gate: int, now: int)
    requires Trace(tr, records, rows, order, table, gate, now) && ValidStore(records) && ValidRows(rows)
    requires Completes(tr, order)
    ensures var s := tr[|order|];
      && s.records.Keys == records.Keys
      && (forall id | id in records :: Reported(s.resolved, id) <==> Due(records[id], gate, now))
      && (forall j, k | 0 <= j < k < |s.resolved| :: s.resolved[j].id != s.resolved[k].id)
      && forall o | o in s.resolved ::
           && o.id in records && s.records[o.id].state == o.finalState && s.records[o.id].brokerOrderId == o.orderId
           && o.finalState == if o.orderId == "" then FAILED_TERMINAL else COMPLETED
  {
    ReportIsTrue(tr, records, rows, order, table, gate, now, |order|);
    TraceInv(tr, records, rows, order, table, gate, now, |order|);
    assert order[..|order|] == order;
    DueIsListed(records, order, gate, now);
    forall k | 0 <= k < |tr[|order|].resolved| ensures LineTells(records, tr[|order|], k) {
      LineIsTrue(tr, records, rows, order, table, gate, now, k);
    }
  }

  /** Line `k` names a record, and the state and order id that the store has for it. */
  ghost predicate LineTells(records: map<ExecId, Record>, s: Pass, k: nat) {
    && k < |s.resolved|
    && var o := s.resolved[k];
       && o.id in records && o.id in s.records
       && s.records[o.id].state == o.finalState && s.records[o.id].brokerOrderId == o.orderId
       && o.finalState == if o.orderId == "" then FAILED_TERMINAL else COMPLETED
  }

  lemma LineIsTrue(tr: seq<Pass>, records: map<ExecId, Record>, rows: seq<Row>, order: seq<ExecId>,
                   table: seq<Position>, gate: int, now: int, k: nat)
    requires Trace(tr, records, rows, order, table, gate, now) && ValidStore(records) && ValidRows(rows)
    requires Completes(tr, order) && ReportInv(records, order, gate, now, tr[|order|]) && k < |tr[|order|].resolved|
    ensures LineTells(records, tr[|order|], k)
  {
    var id := tr[|order|].resolved[k].id;
    assert Reported(tr[|order|].resolved, id);
    PassResolvesEverything(tr, records, rows, order, table, gate, now, id);
  }

  lemma DueIsListed(records: map<ExecId, Record>, order: seq<ExecId>, gate: int, now: int)
    requires Lists(order, IncompleteIds(records))
    ensures forall id | id in records && Due(records[id], gate, now) :: id in order && !Defers(records[id], gate, now)
  {
  }

  // ---- The counts ----

  /** How many lines of the report have this state. */
  function CountOf(resolved: seq<Resolved>, state: State): nat {
    if resolved == [] then 0
    else CountOf(resolved[..|resolved| - 1], state) + if resolved[|resolved| - 1].finalState == state then 1 else 0
  }

  /** The records reported with this state. */
  function ReportedAs(resolved: seq<Resolved>, state: State): set<ExecId> {
    set o | o in resolved && o.finalState == state :: o.id
  }

  lemma ReportedAsAppended(rest: seq<Resolved>, o: Resolved, state: State)
    requires forall k | 0 <= k < |rest| :: rest[k].id != o.id
    ensures o.id !in ReportedAs(rest, state)
    ensures ReportedAs(rest + [o], state) == ReportedAs(rest, state) + if o.finalState == state then {o.id} else {}
  {
    var all := rest + [o];
    assert forall x :: x in all <==> x in rest || x == o;
  }

  lemma {:induction false} CountIsNumber(resolved: seq<Resolved>, state: State)
    requires forall j, k | 0 <= j < k < |resolved| :: resolved[j].id != resolved[k].id
    ensures CountOf(resolved, state) == |ReportedAs(resolved, state)|
  {
    if resolved != [] {
      var n := |resolved| - 1;
      CountIsNumber(resolved[..n], state);
      ReportedAsAppended(resolved[..n], resolved[n], state);
      assert resolved == resolved[..n] + [resolved[n]];
    }
  }

  lemma {:induction false} CountsAddUp(resolved: seq<Resolved>)
    requires forall o | o in resolved :: o.finalState in {COMPLETED, FAILED_TERMINAL}
    ensures CountOf(resolved, COMPLETED) + CountOf(resolved, FAILED_TERMINAL) == |resolved|
  {
    if resolved != [] {
      var n := |resolved| - 1;
      assert resolved[n] in resolved;
      CountsAddUp(resolved[..n]);
    }
  }

  /** The due records that own an order after the pass, or that do not. */
  ghost function EndedWith(records: map<ExecId, Record>, after: map<ExecId, Record>, gate: int, now: int, owns: bool):
    set<ExecId>
  {
    set id | id in records && id in after && Due(records[id], gate, now) && (after[id].brokerOrderId != "") == owns
  }

  /**
    The recovered and the lost orders are counted right: as many are recovered as due records own an order after the
    pass, as many are lost as do not, and no line counts as neither.
   */
  lemma CountsAreExact(tr: seq<Pass>, records: map<ExecId, Record>, rows: seq<Row>, order: seq<ExecId>,
                       table: seq<Position>, gate: int, now: int)
    requires Trace(tr, records, rows, order, table, gate, now) && ValidStore(records) && ValidRows(rows)
    requires Completes(tr, order)
    ensures var s := tr[|order|];
      var recovered, lost := CountOf(s.resolved, COMPLETED), CountOf(s.resolved, FAILED_TERMINAL);
      && recovered == |EndedWith(records, s.records, gate, now, true)|
      && lost == |EndedWith(records, s.records, gate, now, false)|
      && recovered + lost == |s.resolved|
  {
    var s := tr[|order|];
    ReportIsExact(tr, records, rows, order, table, gate, now);
    CountIsNumber(s.resolved, COMPLETED);
    CountIsNumber(s.resolved, FAILED_TERMINAL);
    CountsAddUp(s.resolved);
    LinesOfEnd(records, s.records, s.resolved, gate, now, true);
    LinesOfEnd(records, s.records, s.resolved, gate, now, false);
  }

  lemma LinesOfEnd(records: map<ExecId, Record>, after: map<ExecId, Record>, resolved: seq<Resolved>, gate: int,
                   now: int, owns: bool)
    requires records.Keys == after.Keys
    requires forall id | id in records :: Reported(resolved, id) <==> Due(records[id], gate, now)
    requires forall o | o in resolved ::
      && o.id in records && after[o.id].brokerOrderId == o.orderId
      && o.finalState == if o.orderId == "" then FAILED_TERMINAL else COMPLETED
    ensures ReportedAs(resolved, if owns then COMPLETED else FAILED_TERMINAL)
      == EndedWith(records, after, gate, now, owns)
  {
    var state := if owns then COMPLETED else FAILED_TERMINAL;
    forall id | id in ReportedAs(resolved, state) ensures id in EndedWith(records, after, gate, now, owns) {
      var o :| o in resolved && o.finalState == state && o.id == id;
      var k :| 0 <= k < |resolved| && resolved[k] == o;
      assert Reported(resolved, id);
    }
    forall id | id in EndedWith(records, after, gate, now, owns) ensures id in ReportedAs(resolved, state) {
      assert Reported(resolved, id);
      var k :| 0 <= k < |resolved| && resolved[k].id == id;
      assert resolved[k] in resolved;
    }
  }

  // ---- What is held back ----

  /** Some record among these is too young, and this position would do for it. */
  ghost predicate HeldFor(records: map<ExecId, Record>, done: seq<ExecId>, gate: int, now: int, p: Position) {
    exists id | id in done && id in records :: Defers(records[id], gate, now) && Compatible(records[id].Metadata(), p)
  }

  /**
    Held back are only unjournaled positions that would do for a record too young to resolve, and each such record has
    one held back for it unless all that would do are journaled.
   */
  ghost predicate HeldInv(records: map<ExecId, Record>, rows: seq<Row>, done: seq<ExecId>, table: seq<Position>,
                          gate: int, now: int, s: Pass)
  {
    && (forall h | h in s.deferred ::
          h !in OrderIds(rows) && exists p | p in table && p.id == h :: HeldFor(records, done, gate, now, p))
    && forall id, p | id in done && id in records && Defers(records[id], gate, now)
         && p in table && Compatible(records[id].Metadata(), p) && p.id !in s.linked ::
         exists q | q in table && q.id in s.deferred :: Compatible(records[id].Metadata(), q)
  }

  lemma TurnHolds(records: map<ExecId, Record>, rows: seq<Row>, done: seq<ExecId>, id: ExecId, table: seq<Position>,
                  gate: int, now: int, s: Pass, t: Pass)
    requires id in records && id in s.records && s.records[id] == records[id]
    requires OrderIds(rows) <= s.linked
    requires HeldInv(records, rows, done, table, gate, now, s) && Turn(s, id, table, gate, now, t)
    ensures HeldInv(records, rows, done + [id], table, gate, now, t)
  {
    var m := FindMatch(table, s.linked, records[id].Metadata());
    forall h | h in t.deferred
      ensures h !in OrderIds(rows) && exists p | p in table && p.id == h :: HeldFor(records, done + [id], gate, now, p)
    {
      if h in s.deferred {
        var p :| p in table && p.id == h && HeldFor(records, done, gate, now, p);
        var other :| other in done && other in records && Defers(records[other], gate, now)
          && Compatible(records[other].Metadata(), p);
        assert other in done + [id];
      } else {
        assert id in done + [id] && HeldFor(records, done + [id], gate, now, m.value);
      }
    }
  }

  lemma {:induction false} HeldIsExact(tr: seq<Pass>, records: map<ExecId, Record>, rows: seq<Row>,
                                       order: seq<ExecId>, table: seq<Position>, gate: int, now: int, i: nat)
    requires Trace(tr, records, rows, order, table, gate, now) && ValidStore(records) && ValidRows(rows)
    requires i < |tr|
    ensures HeldInv(records, rows, order[..i], table, gate, now, tr[i])
  {
    if i > 0 {
      HeldIsExact(tr, records, rows, order, table, gate, now, i - 1);
      AtTurn(tr, records, rows, order, table, gate, now, i - 1);
      TraceTurn(tr, records, rows, order, table, gate, now, i - 1);
      LinkedFromStart(tr, records, rows, order, table, gate, now, i - 1);
      TurnHolds(records, rows, order[..i - 1], order[i - 1], table, gate, now, tr[i - 1], tr[i]);
    } else {
      assert order[..0] == [];
    }
  }

  lemma LinkedFromStart(tr: seq<Pass>, records: map<ExecId, Record>, rows: seq<Row>, order: seq<ExecId>,
                        table: seq<Position>, gate: int, now: int, i: nat)
    requires Trace(tr, records, rows, order, table, gate, now) && ValidStore(records) && ValidRows(rows)
    requires i < |tr|
    ensures OrderIds(rows) <= tr[i].linked
  {
    TraceInv(tr, records, rows, order, table, gate, now, i);
    RowsKeepIds(rows, tr[i].rows);
  }

  lemma RowsKeepIds(rows: seq<Row>, rows': seq<Row>)
    requires |rows| <= |rows'| && rows'[..|rows|] == rows
    ensures OrderIds(rows) <= OrderIds(rows')
  {
    forall r | r in rows ensures r in rows' {
      assert r in rows'[..|rows|];
    }
  }
}
