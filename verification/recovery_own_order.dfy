/**
  Whether recovery gives a record its own order back. A position is matched by what it looks like,
  so a record gets the order that the broker accepted for it only if nothing else could be meant.
 */
module RecoveryOwnOrder {
  import opened Wrappers
  import opened ExecutionState
  import opened TradeJournal
  import opened Positions
  import opened StartupRecovery
  import opened RecoveryTheorems
  import opened RecoveryOwnership
  import opened RecoveryCrash
  import opened TradeManagement
  import opened OrderProtocol
  import opened OrderOrigins

  /** The same positions, listed in any order. */
  ghost predicate SamePositions(table: seq<Position>, other: seq<Position>) {
    forall p :: p in table <==> p in other
  }

  /** A record that may come to own the order of `p`. */
  predicate Wants(r: Record, gate: int, now: int, p: Position) {
    r.brokerOrderId == p.id || (Seeks(r, gate, now) && Compatible(r.Metadata(), p))
  }

  /** No other record may come to own the order of `p`, and no other free position fits the record. */
  ghost predicate Unmistakable(records: map<ExecId, Record>, rows: seq<Row>, table: seq<Position>, gate: int, now: int,
                               id: ExecId, p: Position)
    requires id in records
  {
    && (forall other | other in records && other != id :: !Wants(records[other], gate, now, p))
    && forall q | q in table && Fits(q, OrderIds(rows), records[id].Metadata()) :: q == p
  }

  /** At this point of a pass no other record owns the order of `p`, and the record does if its turn has come. */
  ghost predicate HasOwn(s: Pass, done: seq<ExecId>, id: ExecId, p: Position) {
    && (forall other | other in s.records && other != id :: s.records[other].brokerOrderId != p.id)
    && (id in done ==> id in s.records && s.records[id].brokerOrderId == p.id)
  }

  /** The record is after an order that is open, not journaled, and unknown to it. */
  ghost predicate Seeking(records: map<ExecId, Record>, rows: seq<Row>, table: seq<Position>, gate: int, now: int,
                          id: ExecId, p: Position)
  {
    && ValidStore(records) && ValidRows(rows) && DistinctIds(table) && !HasId(table, "")
    && id in records && Seeks(records[id], gate, now)
    && p in table && Fits(p, OrderIds(rows), records[id].Metadata())
  }

  // ---- When nothing else could be meant ----

  /** The turn of another record leaves the order of `p` alone. */
  lemma OthersLeave(s: Pass, other: ExecId, table: seq<Position>, gate: int, now: int, t: Pass, p: Position)
    requires Turn(s, other, table, gate, now, t) && DistinctIds(table) && p in table
    requires s.records[other].Incomplete() && !Wants(s.records[other], gate, now, p)
    ensures other in t.records && t.records == s.records[other := t.records[other]]
    ensures t.records[other].brokerOrderId != p.id
    ensures p.id in t.linked ==> p.id in s.linked
  {
    var found := FindMatch(table, s.linked, s.records[other].Metadata());
    if found.Some? {
      SameIdSamePosition(table, p, found.value);
    }
  }

  lemma SameIdSamePosition(table: seq<Position>, p: Position, q: Position)
    requires DistinctIds(table) && p in table && q in table
    ensures p.id == q.id ==> p == q
  {
  }

  /** The record's own turn takes `p`. */
  lemma OwnTurnTakes(s: Pass, id: ExecId, table: seq<Position>, gate: int, now: int, t: Pass, p: Position)
    requires Turn(s, id, table, gate, now, t) && Seeks(s.records[id], gate, now)
    requires p in table && Fits(p, s.linked, s.records[id].Metadata())
    requires forall q | q in table && Fits(q, s.linked, s.records[id].Metadata()) :: q == p
    ensures id in t.records && t.records == s.records[id := t.records[id]] && t.records[id].brokerOrderId == p.id
  {
    assert FindMatch(table, s.linked, s.records[id].Metadata()) == Some(p);
  }

  /** What every point of a pass keeps while the order of `p` waits for its record. */
  ghost predicate WaitsForOwn(s: Pass, done: seq<ExecId>, id: ExecId, p: Position) {
    HasOwn(s, done, id, p) && (id !in done ==> p.id !in s.linked)
  }

  lemma WaitsOn(records: map<ExecId, Record>, rows: seq<Row>, table: seq<Position>, gate: int, now: int, id: ExecId,
                p: Position, s: Pass, done: seq<ExecId>, taken: ExecId, t: Pass)
    requires Seeking(records, rows, table, gate, now, id, p) && Unmistakable(records, rows, table, gate, now, id, p)
    requires Turn(s, taken, table, gate, now, t) && taken in records && taken !in done
    requires s.records[taken] == records[taken] && records[taken].Incomplete()
    requires WaitsForOwn(s, done, id, p) && OrderIds(rows) <= s.linked
    ensures WaitsForOwn(t, done + [taken], id, p)
  {
    if taken == id {
      OwnTurnTakes(s, id, table, gate, now, t, p);
    } else {
      OthersLeave(s, taken, table, gate, now, t, p);
    }
  }

  lemma {:induction false} WaitsThroughout(tr: seq<Pass>, records: map<ExecId, Record>, rows: seq<Row>,
                                           order: seq<ExecId>, table: seq<Position>, gate: int, now: int, id: ExecId,
                                           p: Position, i: nat)
    requires Seeking(records, rows, table, gate, now, id, p) && Unmistakable(records, rows, table, gate, now, id, p)
    requires Trace(tr, records, rows, order, table, gate, now) && i < |tr|
    ensures WaitsForOwn(tr[i], order[..i], id, p)
    decreases i
  {
    if i == 0 {
      assert order[..0] == [];
    } else {
      WaitsThroughout(tr, records, rows, order, table, gate, now, id, p, i - 1);
      TakeWaiting(tr, records, rows, order, table, gate, now, id, p, i - 1);
    }
  }

  lemma TakeWaiting(tr: seq<Pass>, records: map<ExecId, Record>, rows: seq<Row>, order: seq<ExecId>,
                    table: seq<Position>, gate: int, now: int, id: ExecId, p: Position, i: nat)
    requires Seeking(records, rows, table, gate, now, id, p) && Unmistakable(records, rows, table, gate, now, id, p)
    requires Trace(tr, records, rows, order, table, gate, now) && i + 1 < |tr|
    requires WaitsForOwn(tr[i], order[..i], id, p)
    ensures WaitsForOwn(tr[i + 1], order[..i + 1], id, p)
  {
    AtTurn(tr, records, rows, order, table, gate, now, i);
    ListedOnce(order, IncompleteIds(records), i);
    LinkedGrows(tr, records, rows, order, table, gate, now, i);
    WaitsOn(records, rows, table, gate, now, id, p, tr[i], order[..i], order[i], tr[i + 1]);
  }

  lemma LinkedGrows(tr: seq<Pass>, records: map<ExecId, Record>, rows: seq<Row>, order: seq<ExecId>,
                    table: seq<Position>, gate: int, now: int, i: nat)
    requires ValidStore(records) && ValidRows(rows) && Trace(tr, records, rows, order, table, gate, now) && i < |tr|
    ensures OrderIds(rows) <= tr[i].linked
  {
    BetweenRecordsIsSafe(tr, records, rows, order, table, gate, now, i);
    JournaledStaysJournaled(rows, tr[i].rows);
  }

  // ---- When something else could be meant ----

  /** The table with one position brought to the front. */
  lemma BringToFront(table: seq<Position>, q: Position) returns (front: seq<Position>)
    requires DistinctIds(table) && !HasId(table, "") && q in table
    ensures front != [] && front[0] == q && SamePositions(front, table) && DistinctIds(front) && !HasId(front, "")
  {
    var i :| 0 <= i < |table| && table[i] == q;
    front := [q] + table[..i] + table[i + 1..];
    forall p ensures p in front <==> p in table {
      if p in table {
        var j :| 0 <= j < |table| && table[j] == p;
        assert j < i ==> table[..i][j] == p;
        assert j > i ==> table[i + 1..][j - i - 1] == p;
      }
    }
    forall j | 0 <= j < |front| ensures front[j].id != "" {
      assert front[j] in front && front[j] in table;
    }
  }

  /** The first turn of a pass that takes record `id` first and finds a position that fits it first in the table. */
  lemma TakesFront(records: map<ExecId, Record>, rows: seq<Row>, table: seq<Position>, gate: int, now: int, id: ExecId)
    returns (order: seq<ExecId>, t: Pass)
    requires DistinctIds(table) && !HasId(table, "") && table != []
    requires id in records && Seeks(records[id], gate, now) && Fits(table[0], OrderIds(rows), records[id].Metadata())
    ensures Trace([Begin(records, rows), t], records, rows, order, table, gate, now) && order != [] && order[0] == id
    ensures id in t.records && t.records == records[id := t.records[id]] && t.records[id].brokerOrderId == table[0].id
  {
    var s, r, p := Begin(records, rows), records[id], table[0];
    CompletionReachable(r.state);
    var r' := AdvanceExists(r.(brokerOrderId := p.id, updatedAt := now), COMPLETED, now);
    t := Resolve(s, id, r', Inserted(rows, Backfill(r, p.id, Some(p))), p.id);
    assert HasId(table, p.id);
    order := ListingFrom(IncompleteIds(records), id);
    var tr := FirstTurn(records, rows, order, table, gate, now, t);
  }

  /** The record gets its own order, and nobody else does, at every point of every pass over these positions. */
  ghost predicate AlwaysOwn(records: map<ExecId, Record>, rows: seq<Row>, table: seq<Position>, gate: int, now: int,
                            id: ExecId, p: Position)
  {
    forall tr, order, listed, i ::
      PassPoint(tr, records, rows, order, listed, gate, now, i) && SamePositions(listed, table) ==>
        HasOwn(tr[i], order[..i], id, p)
  }

  ghost predicate PassPoint(tr: seq<Pass>, records: map<ExecId, Record>, rows: seq<Row>, order: seq<ExecId>,
                            table: seq<Position>, gate: int, now: int, i: nat)
  {
    Trace(tr, records, rows, order, table, gate, now) && i < |tr| && i <= |order|
  }

  lemma MistakableIsMistaken(records: map<ExecId, Record>, rows: seq<Row>, table: seq<Position>, gate: int, now: int,
                             id: ExecId, p: Position)
    requires Seeking(records, rows, table, gate, now, id, p) && !Unmistakable(records, rows, table, gate, now, id, p)
    ensures !AlwaysOwn(records, rows, table, gate, now, id, p)
  {
    if other :| other in records && other != id && Wants(records[other], gate, now, p) {
      OtherTakes(records, rows, table, gate, now, id, p, other);
    } else {
      var q :| q in table && Fits(q, OrderIds(rows), records[id].Metadata()) && q != p;
      SameIdSamePosition(table, p, q);
      var front := BringToFront(table, q);
      var order, t := TakesFront(records, rows, front, gate, now, id);
      var tr := [Begin(records, rows), t];
      assert PassPoint(tr, records, rows, order, front, gate, now, 1);
      assert id in order[..1] by { assert order[..1][0] == id; }
    }
  }

  lemma OtherTakes(records: map<ExecId, Record>, rows: seq<Row>, table: seq<Position>, gate: int, now: int,
                   id: ExecId, p: Position, other: ExecId)
    requires Seeking(records, rows, table, gate, now, id, p)
    requires other in records && other != id && Wants(records[other], gate, now, p)
    ensures !AlwaysOwn(records, rows, table, gate, now, id, p)
  {
    if records[other].brokerOrderId == p.id {
      var order := ListingExists(IncompleteIds(records));
      assert PassPoint([Begin(records, rows)], records, rows, order, table, gate, now, 0);
    } else {
      var front := BringToFront(table, p);
      var order, t := TakesFront(records, rows, front, gate, now, other);
      assert PassPoint([Begin(records, rows), t], records, rows, order, front, gate, now, 1);
    }
  }

  /**
    A seeking record gets back its own order, and no other record gets it, at every point of every pass over these
    positions, in whatever order positions and records are listed, exactly when no other record knows the order or
    seeks and fits its position, and no other free position fits the record.
   */
  lemma OwnOrderIsExact(records: map<ExecId, Record>, rows: seq<Row>, table: seq<Position>, gate: int, now: int,
                        id: ExecId, p: Position)
    requires Seeking(records, rows, table, gate, now, id, p)
    ensures AlwaysOwn(records, rows, table, gate, now, id, p) <==> Unmistakable(records, rows, table, gate, now, id, p)
  {
    if Unmistakable(records, rows, table, gate, now, id, p) {
      forall tr, order, listed, i |
        PassPoint(tr, records, rows, order, listed, gate, now, i) && SamePositions(listed, table)
        ensures HasOwn(tr[i], order[..i], id, p)
      {
        assert Seeking(records, rows, listed, gate, now, id, p)
          && Unmistakable(records, rows, listed, gate, now, id, p);
        WaitsThroughout(tr, records, rows, order, listed, gate, now, id, p, i);
      }
    } else {
      MistakableIsMistaken(records, rows, table, gate, now, id, p);
    }
  }

  // ---- In the order protocol ----

  /** At this moment the broker has accepted order `p.id` for the opening `k`, and its record is after it. */
  ghost predicate AfterItsOrder(ss: seq<System>, acts: seq<Action>, i: nat, table: seq<Position>, gate: int, k: nat,
                                p: Position)
    requires IsRun(ss, acts) && i < |ss|
  {
    && Created(ss, acts, k) && k < i && acts[k].id in ss[i].records
    && p.id in ss[i].accepted && ss[i].accepted[p.id].exec == acts[k].id
    && Seeks(ss[i].records[acts[k].id], gate, ss[i].now) && p.id !in OrderIds(ss[i].rows)
    && DistinctIds(table) && !HasId(table, "") && p in table && Compatible(acts[k].meta, p)
  }

  /**
    No other opening of the run is still behind a record that knows the order, or that looks for one and asked for what
    the position shows; and nothing else that is free shows what this opening asked for.
   */
  ghost predicate NothingElseMeant(ss: seq<System>, acts: seq<Action>, i: nat, table: seq<Position>, gate: int, k: nat,
                                   p: Position)
    requires IsRun(ss, acts) && i < |ss| && k < |acts| && acts[k].Open?
  {
    && (forall m | 0 <= m < i && m != k && Created(ss, acts, m) && acts[m].id in ss[i].records ::
          var r := ss[i].records[acts[m].id];
          r.brokerOrderId != p.id && !(Seeks(r, gate, ss[i].now) && Compatible(acts[m].meta, p)))
    && forall q | q in table && q.id !in OrderIds(ss[i].rows) && Compatible(acts[k].meta, q) :: q == p
  }

  lemma OpeningsAreMeant(ss: seq<System>, acts: seq<Action>, i: nat, table: seq<Position>, gate: int, k: nat,
                         p: Position)
    requires IsRun(ss, acts) && i < |ss| && AfterItsOrder(ss, acts, i, table, gate, k, p)
    ensures NothingElseMeant(ss, acts, i, table, gate, k, p)
      <==> Unmistakable(ss[i].records, ss[i].rows, table, gate, ss[i].now, acts[k].id, p)
  {
    OriginIsKept(ss, acts, k, i);
    if NothingElseMeant(ss, acts, i, table, gate, k, p) {
      forall other | other in ss[i].records && other != acts[k].id
        ensures !Wants(ss[i].records[other], gate, ss[i].now, p)
      {
        var m := EveryRecordHasItsOpening(ss, acts, i, other);
      }
    }
    if Unmistakable(ss[i].records, ss[i].rows, table, gate, ss[i].now, acts[k].id, p) {
      forall m | 0 <= m < i && m != k && Created(ss, acts, m) && acts[m].id in ss[i].records
        ensures var r := ss[i].records[acts[m].id];
          r.brokerOrderId != p.id && !(Seeks(r, gate, ss[i].now) && Compatible(acts[m].meta, p))
      {
        OriginIsKept(ss, acts, m, i);
        if acts[m].id == acts[k].id {
          OpenedOnce(ss, acts, k, m);
        }
        assert !Wants(ss[i].records[acts[m].id], gate, ss[i].now, p);
      }
    }
  }

  /**
    At any moment of any run, the open position of an order that the broker accepted for an opening goes to the record
    of that opening and to no other, in every pass that may follow, exactly when nothing else that the run opened or
    that is open could be meant.
   */
  lemma AcceptedOrderReturns(ss: seq<System>, acts: seq<Action>, i: nat, table: seq<Position>, gate: int, k: nat,
                             p: Position)
    requires IsRun(ss, acts) && i < |ss| && AfterItsOrder(ss, acts, i, table, gate, k, p)
    ensures (forall tr, order, listed, j ::
               PassPoint(tr, ss[i].records, ss[i].rows, order, listed, gate, ss[i].now, j)
               && SamePositions(listed, table) ==>
                 HasOwn(tr[j], order[..j], ss[i].accepted[p.id].exec, p))
      <==> NothingElseMeant(ss, acts, i, table, gate, k, p)
  {
    OneActiveRecordInEveryRun(ss, acts, i);
    OriginIsKept(ss, acts, k, i);
    OpeningsAreMeant(ss, acts, i, table, gate, k, p);
    OwnOrderIsExact(ss[i].records, ss[i].rows, table, gate, ss[i].now, acts[k].id, p);
  }
}
