/**
  Which record owns a broker order. Recovery checks a position only against journaled ids, so
  a record without an id can adopt the order of another record that is known but not journaled yet.
 */
module RecoveryOwnership {
  import opened Wrappers
  import opened ExecutionState
  import opened TradeJournal
  import opened Positions
  import opened StartupRecovery
  import opened RecoveryTheorems

  ghost predicate OwnersDistinct(records: map<ExecId, Record>) {
    forall id, id' | id in records && id' in records && id != id' && records[id].brokerOrderId != "" ::
      records[id].brokerOrderId != records[id'].brokerOrderId
  }

  /** A record whose turn in a pass is to look for an unlinked position. */
  predicate Seeks(r: Record, gate: int, now: int) {
    r.Incomplete() && r.brokerOrderId == "" && !Defers(r, gate, now)
  }

  ghost predicate KnownAreJournaled(records: map<ExecId, Record>, journaled: set<string>) {
    forall id | id in records && records[id].brokerOrderId != "" :: records[id].brokerOrderId in journaled
  }

  /** Some pass, at some point, leaves one broker order with two records. */
  ghost predicate CanShareOrder(records: map<ExecId, Record>, rows: seq<Row>, gate: int, now: int) {
    exists tr: seq<Pass>, order, table, i | Trace(tr, records, rows, order, table, gate, now) && 0 <= i < |tr| ::
      !OwnersDistinct(tr[i].records)
  }

  lemma TurnKeepsOwners(s: Pass, id: ExecId, table: seq<Position>, gate: int, now: int, t: Pass)
    requires Turn(s, id, table, gate, now, t) && id in s.records && s.records[id].Incomplete()
    requires OwnersDistinct(s.records) && KnownAreJournaled(s.records, s.linked)
    ensures OwnersDistinct(t.records) && KnownAreJournaled(t.records, t.linked)
  {
    var r := s.records[id];
    if !Defers(r, gate, now) {
      assert t.records == s.records[id := t.records[id]];
      assert r.brokerOrderId != "" ==> t.records[id].brokerOrderId == r.brokerOrderId;
      assert r.brokerOrderId == "" && t.records[id].brokerOrderId != "" ==> t.records[id].brokerOrderId !in s.linked;
    }
  }

  lemma TurnKeepsIds(s: Pass, id: ExecId, table: seq<Position>, gate: int, now: int, t: Pass)
    requires Turn(s, id, table, gate, now, t) && id in s.records && s.records[id].Incomplete()
      && !Seeks(s.records[id], gate, now)
    ensures t.records.Keys == s.records.Keys
    ensures forall x | x in s.records :: t.records[x].brokerOrderId == s.records[x].brokerOrderId
  {
    if !Defers(s.records[id], gate, now) {
      assert t.records == s.records[id := t.records[id]];
    }
  }

  lemma {:induction false} JournaledOwnersStay(tr: seq<Pass>, records: map<ExecId, Record>, rows: seq<Row>,
                                               order: seq<ExecId>, table: seq<Position>, gate: int, now: int, i: nat)
    requires ValidStore(records) && ValidRows(rows) && OwnersDistinct(records)
      && KnownAreJournaled(records, OrderIds(rows))
    requires Trace(tr, records, rows, order, table, gate, now) && i < |tr|
    ensures OwnersDistinct(tr[i].records) && KnownAreJournaled(tr[i].records, tr[i].linked)
  {
    if i > 0 {
      JournaledOwnersStay(tr, records, rows, order, table, gate, now, i - 1);
      AtTurn(tr, records, rows, order, table, gate, now, i - 1);
      TurnKeepsOwners(tr[i - 1], order[i - 1], table, gate, now, tr[i]);
    }
  }

  lemma {:induction false} UnsoughtIdsStay(tr: seq<Pass>, records: map<ExecId, Record>, rows: seq<Row>,
                                           order: seq<ExecId>, table: seq<Position>, gate: int, now: int, i: nat)
    requires ValidStore(records) && ValidRows(rows) && forall id | id in records :: !Seeks(records[id], gate, now)
    requires Trace(tr, records, rows, order, table, gate, now) && i < |tr|
    ensures tr[i].records.Keys == records.Keys
    ensures forall x | x in records :: tr[i].records[x].brokerOrderId == records[x].brokerOrderId
  {
    if i > 0 {
      UnsoughtIdsStay(tr, records, rows, order, table, gate, now, i - 1);
      AtTurn(tr, records, rows, order, table, gate, now, i - 1);
      TurnKeepsIds(tr[i - 1], order[i - 1], table, gate, now, tr[i]);
    }
  }

  /** What the pass does to a seeking record when the only open position is the order `orderId`. */
  lemma AdoptionTurn(s: Pass, seeker: ExecId, orderId: string, gate: int, now: int) returns (p: Position, t: Pass)
    requires seeker in s.records && Seeks(s.records[seeker], gate, now)
    requires orderId != "" && orderId !in s.linked
    ensures p.id == orderId && Turn(s, seeker, [p], gate, now, t)
    ensures seeker in t.records && t.records == s.records[seeker := t.records[seeker]]
    ensures t.records[seeker].brokerOrderId == orderId
  {
    var r := s.records[seeker];
    var meta := r.Metadata();
    p := Position(orderId, meta.symbol, meta.direction, meta.lots, 0.0, 0.0, None);
    assert p in [p] && Fits(p, s.linked, meta);
    assert FindMatch([p], s.linked, meta) == Some(p);
    CompletionReachable(r.state);
    var r' := AdvanceExists(r.(brokerOrderId := orderId, updatedAt := now), COMPLETED, now);
    t := Resolve(s, seeker, r', Inserted(s.rows, Backfill(r, orderId, Some(p))), orderId);
  }

  /** A seeking record that is taken first adopts the unjournaled order of record `owner`. */
  lemma SeekerTakesKnownOrder(records: map<ExecId, Record>, rows: seq<Row>, gate: int, now: int, seeker: ExecId,
                              owner: ExecId)
    requires ValidStore(records) && ValidRows(rows)
    requires seeker in records && Seeks(records[seeker], gate, now)
    requires owner in records && records[owner].brokerOrderId != "" && records[owner].brokerOrderId !in OrderIds(rows)
    ensures CanShareOrder(records, rows, gate, now)
  {
    var order := ListingFrom(IncompleteIds(records), seeker);
    var s := Begin(records, rows);
    var p, t := AdoptionTurn(s, seeker, records[owner].brokerOrderId, gate, now);
    var table := [p];
    var tr := FirstTurn(records, rows, order, table, gate, now, t);
    assert t.records[seeker].brokerOrderId == t.records[owner].brokerOrderId;
    assert !OwnersDistinct(tr[1].records);
  }

  /**
    No pass ever gives one broker order to two records, exactly when nothing seeks a position
    or every order id the store knows is already journaled.
   */
  lemma OrdersKeepOneOwner(records: map<ExecId, Record>, rows: seq<Row>, gate: int, now: int)
    requires ValidStore(records) && ValidRows(rows) && OwnersDistinct(records)
    ensures !CanShareOrder(records, rows, gate, now) <==>
      (forall id | id in records :: !Seeks(records[id], gate, now)) || KnownAreJournaled(records, OrderIds(rows))
  {
    var quiet := forall id | id in records :: !Seeks(records[id], gate, now);
    if !quiet && !KnownAreJournaled(records, OrderIds(rows)) {
      var seeker :| seeker in records && Seeks(records[seeker], gate, now);
      var owner :| owner in records && records[owner].brokerOrderId != ""
        && records[owner].brokerOrderId !in OrderIds(rows);
      SeekerTakesKnownOrder(records, rows, gate, now, seeker, owner);
    } else {
      forall tr: seq<Pass>, order, table, i | Trace(tr, records, rows, order, table, gate, now) && 0 <= i < |tr|
        ensures OwnersDistinct(tr[i].records)
      {
        if KnownAreJournaled(records, OrderIds(rows)) {
          JournaledOwnersStay(tr, records, rows, order, table, gate, now, i);
        } else {
          UnsoughtIdsStay(tr, records, rows, order, table, gate, now, i);
        }
      }
    }
  }
}
