/**
  A pass that a crash stopped, and the pass that takes up what is left. Without an age gate the two
  together end every record as one uninterrupted pass would, unless the crash came between the row
  of an adopted position and the attachment of its id.
 */
module RecoveryResume {
  import opened Wrappers
  import opened GraphSearch
  import opened ExecutionState
  import opened TradeJournal
  import opened Positions
  import opened StartupRecovery
  import opened RecoveryCrash

  // ---- What a pass decides ----

  /** The order a record gets when these ids are linked; none when it fails. */
  function OwnerIn(linked: set<string>, r: Record, table: seq<Position>): string {
    var found := FindMatch(table, linked, r.Metadata());
    if r.brokerOrderId != "" then r.brokerOrderId else if found.Some? then found.value.id else ""
  }

  function Link(linked: set<string>, owner: string): set<string> {
    if owner == "" then linked else linked + {owner}
  }

  ghost predicate AllStored(records: map<ExecId, Record>, order: seq<ExecId>) {
    forall i | 0 <= i < |order| :: order[i] in records
  }

  /** The linked ids after `i` records of a pass without an age gate. */
  function LinkedAfter(records: map<ExecId, Record>, table: seq<Position>, linked: set<string>, order: seq<ExecId>,
                       i: nat):
    set<string>
    requires AllStored(records, order) && i <= |order|
  {
    if i == 0 then linked
    else
      var before := LinkedAfter(records, table, linked, order, i - 1);
      Link(before, OwnerIn(before, records[order[i - 1]], table))
  }

  /** The order that the record at `i` gets in such a pass. */
  function OwnerAt(records: map<ExecId, Record>, table: seq<Position>, linked: set<string>, order: seq<ExecId>, i: nat):
    string
    requires AllStored(records, order) && i < |order|
  {
    OwnerIn(LinkedAfter(records, table, linked, order, i), records[order[i]], table)
  }

  predicate EndsAs(r: Record, owner: string) {
    r.brokerOrderId == owner && r.state == if owner == "" then FAILED_TERMINAL else COMPLETED
  }

  /** What both passes work on. */
  ghost predicate Pass0(tr: seq<Pass>, records: map<ExecId, Record>, rows: seq<Row>, order: seq<ExecId>,
                        table: seq<Position>, now: int)
  {
    ValidStore(records) && ValidRows(rows) && Trace(tr, records, rows, order, table, 0, now)
  }

  lemma OrderIsCovered(tr: seq<Pass>, records: map<ExecId, Record>, rows: seq<Row>, order: seq<ExecId>,
                       table: seq<Position>, now: int)
    requires Pass0(tr, records, rows, order, table, now)
    ensures AllStored(records, order)
  {
    forall i | 0 <= i < |order| ensures order[i] in records {
      ListedOnce(order, IncompleteIds(records), i);
    }
  }

  lemma TurnDecides(s: Pass, id: ExecId, table: seq<Position>, now: int, t: Pass)
    requires Turn(s, id, table, 0, now, t) && !HasId(table, "")
    ensures id in t.records && t.records == s.records[id := t.records[id]]
    ensures EndsAs(t.records[id], OwnerIn(s.linked, s.records[id], table))
    ensures t.linked == Link(s.linked, OwnerIn(s.linked, s.records[id], table))
  {
    var found := FindMatch(table, s.linked, s.records[id].Metadata());
    assert found.Some? ==> HasId(table, found.value.id);
  }

  lemma {:induction false} LinkedAlong(tr: seq<Pass>, records: map<ExecId, Record>, rows: seq<Row>, order: seq<ExecId>,
                                       table: seq<Position>, now: int, i: nat)
    requires Pass0(tr, records, rows, order, table, now) && AllStored(records, order) && i < |tr|
    ensures tr[i].linked == LinkedAfter(records, table, OrderIds(rows), order, i)
    decreases i
  {
    if i > 0 {
      var k := i - 1;
      LinkedAlong(tr, records, rows, order, table, now, k);
      TurnAlong(tr, records, rows, order, table, now, k);
      LinkedNext(records, table, OrderIds(rows), order, k);
    }
  }

  lemma TurnAlong(tr: seq<Pass>, records: map<ExecId, Record>, rows: seq<Row>, order: seq<ExecId>, table: seq<Position>,
                  now: int, i: nat)
    requires Pass0(tr, records, rows, order, table, now) && AllStored(records, order) && i + 1 < |tr|
    ensures var owner := OwnerIn(tr[i].linked, records[order[i]], table);
      && tr[i + 1].linked == Link(tr[i].linked, owner)
      && order[i] in tr[i + 1].records && EndsAs(tr[i + 1].records[order[i]], owner)
  {
    AtTurn(tr, records, rows, order, table, 0, now, i);
    TurnDecides(tr[i], order[i], table, now, tr[i + 1]);
  }

  /** A record that was taken has ended as its owner says, and stays so. */
  lemma EndsAlong(tr: seq<Pass>, records: map<ExecId, Record>, rows: seq<Row>, order: seq<ExecId>, table: seq<Position>,
                  now: int, i: nat, j: nat)
    requires Pass0(tr, records, rows, order, table, now) && AllStored(records, order) && i < j < |tr|
    ensures order[i] in tr[j].records
    ensures EndsAs(tr[j].records[order[i]], OwnerAt(records, table, OrderIds(rows), order, i))
  {
    LinkedAlong(tr, records, rows, order, table, now, i);
    TurnAlong(tr, records, rows, order, table, now, i);
    EndsStay(tr, records, rows, order, table, 0, now, i + 1, j, order[i]);
  }

  /** A record that has ended before the pass, or whose turn has not come, is as it was. */
  lemma OthersAlong(tr: seq<Pass>, records: map<ExecId, Record>, rows: seq<Row>, order: seq<ExecId>,
                    table: seq<Position>, now: int, j: nat, id: ExecId)
    requires Pass0(tr, records, rows, order, table, now) && j < |tr| && id in records
    requires !records[id].Incomplete() || id !in order[..j]
    ensures id in tr[j].records && tr[j].records[id] == records[id]
  {
    TraceInv(tr, records, rows, order, table, 0, now, j);
    assert Treated(records[id], tr[j].records[id], id in order[..j], 0, now);
  }

  // ---- The state at the stop ----

  /** The stop came after the row of an adopted position and before its id was attached. */
  ghost predicate RowOnlyStop(tr: seq<Pass>, order: seq<ExecId>, records: map<ExecId, Record>,
                              records': map<ExecId, Record>, rows': seq<Row>)
    requires tr != []
  {
    var n := |tr| - 1;
    && records' == tr[n].records && rows' != tr[n].rows
    && n < |order| && order[n] in records && records[order[n]].brokerOrderId == ""
  }

  /** What is left of the order after the stop. */
  function Rest(order: seq<ExecId>, n: nat, records': map<ExecId, Record>): seq<ExecId>
    requires n <= |order|
  {
    if n < |order| && order[n] in records' && !records'[order[n]].Incomplete() then order[n + 1..] else order[n..]
  }

  lemma LeftIsNoEnd(walk: seq<State>, k: nat)
    requires IsPath(Allowed, walk) && k + 1 < |walk|
    ensures walk[k] !in TERMINAL_STATES
  {
    assert walk[k + 1] in Allowed(walk[k]);
  }

  /** Before the last event of a legal history the state is none that ends a record. */
  lemma EarlierIsNoEnd(full: Record, h: seq<Event>)
    requires LegalHistory(full) && h <= full.history && 0 < |h| < |full.history|
    ensures h[|h| - 1].state !in TERMINAL_STATES
  {
    LeftIsNoEnd(StatesOf(full.history), |h| - 1);
  }

  lemma ProperPrefixIsShorter<T>(xs: seq<T>, ys: seq<T>)
    requires xs <= ys
    ensures |xs| == |ys| ==> xs == ys
  {
  }

  /** A walk that stopped on an end has arrived. */
  lemma EndIsArrival(before: Record, after: Record, full: Record, goal: State, now: int)
    requires LegalHistory(before) && before.Incomplete() && Advanced(before, full, goal, now)
      && OnTheWay(before, after, full, now)
    requires !after.Incomplete()
    ensures after.state == goal
  {
    AdvancedIsSafe(before, full, goal, now);
    ProperPrefixIsShorter(before.history, after.history);
    ProperPrefixIsShorter(after.history, full.history);
    if |after.history| < |full.history| {
      EarlierIsNoEnd(full, after.history);
    }
  }

  /** How a record stands that a crash stopped within its turn. */
  lemma TornStands(s: Pass, id: ExecId, table: seq<Position>, now: int, records': map<ExecId, Record>, rows': seq<Row>)
    requires Torn(s, id, table, 0, now, records', rows') && LegalHistory(s.records[id]) && s.records[id].Incomplete()
    ensures var r, r', owner := s.records[id], records'[id], OwnerIn(s.linked, s.records[id], table);
      && (r' == r || (r'.brokerOrderId == owner && r'.Metadata() == r.Metadata()))
      && (!r'.Incomplete() ==> EndsAs(r', owner))
  {
    var r, r', owner := s.records[id], records'[id], OwnerOf(s, s.records[id], table);
    if r' != r {
      var owned := if r.brokerOrderId == owner then r else r.(brokerOrderId := owner, updatedAt := now);
      var goal := if owner == "" then FAILED_TERMINAL else COMPLETED;
      var full :| Advanced(owned, full, goal, now) && OnTheWay(owned, r', full, now);
      assert r.history != [];
      assert r'.history[0] == r.history[0];
      if !r'.Incomplete() {
        EndIsArrival(owned, r', full, goal, now);
      }
    }
  }

  lemma TornLinks(s: Pass, id: ExecId, table: seq<Position>, now: int, records': map<ExecId, Record>, rows': seq<Row>)
    requires Torn(s, id, table, 0, now, records', rows') && s.linked == OrderIds(s.rows)
    ensures OrderIds(rows') == Link(s.linked, OwnerIn(s.linked, s.records[id], table))
  {
    var r := s.records[id];
    var owner := OwnerOf(s, r, table);
    InsertedOrderIds(s.rows, Backfill(r, owner, Lookup(table, owner)));
    InsertedOrderIds(s.rows, Backfill(r, owner, FindMatch(table, s.linked, r.Metadata())));
    if owner in s.linked {
      assert s.linked + {owner} == s.linked;
    }
  }

  /**
    The second pass takes the record on where the first left it: it gets the same order, and the same ids are linked
    then.
   */
  ghost predicate TakesOn(linked: set<string>, r: Record, owner: string, table: seq<Position>, linked': set<string>,
                          r': Record)
  {
    && OwnerIn(linked', r', table) == owner && Link(linked', owner) == Link(linked, owner)
  }

  lemma TornTakesOn(s: Pass, id: ExecId, table: seq<Position>, now: int, records': map<ExecId, Record>, rows': seq<Row>)
    requires Torn(s, id, table, 0, now, records', rows') && LegalHistory(s.records[id]) && s.records[id].Incomplete()
    requires s.linked == OrderIds(s.rows) && (records'[id] != s.records[id] || s.records[id].brokerOrderId != "")
    ensures TakesOn(s.linked, s.records[id], OwnerIn(s.linked, s.records[id], table), table, OrderIds(rows'),
                    records'[id])
  {
    TornStands(s, id, table, now, records', rows');
    TornLinks(s, id, table, now, records', rows');
  }

  // ---- From the stop on ----

  lemma LinkedNext(records: map<ExecId, Record>, table: seq<Position>, linked: set<string>, order: seq<ExecId>, i: nat)
    requires AllStored(records, order) && i < |order|
    ensures LinkedAfter(records, table, linked, order, i + 1)
      == Link(LinkedAfter(records, table, linked, order, i), OwnerAt(records, table, linked, order, i))
  {
  }

  /** The second pass takes the same record, as it was, at its place `k`. */
  ghost predicate SameAt(records: map<ExecId, Record>, order: seq<ExecId>, records': map<ExecId, Record>,
                         order': seq<ExecId>, m: nat, k: nat)
  {
    && k < |order'| && m + k < |order| && order'[k] == order[m + k]
    && order'[k] in records && order'[k] in records' && records'[order'[k]] == records[order'[k]]
  }

  lemma SameStep(records: map<ExecId, Record>, linked: set<string>, order: seq<ExecId>, records': map<ExecId, Record>,
                 linked': set<string>, order': seq<ExecId>, table: seq<Position>, m: nat, k: nat)
    requires AllStored(records, order) && AllStored(records', order') && k < |order'| && m + |order'| == |order|
    requires SameAt(records, order, records', order', m, k)
    requires LinkedAfter(records', table, linked', order', k) == LinkedAfter(records, table, linked, order, m + k)
    ensures LinkedAfter(records', table, linked', order', k + 1)
      == LinkedAfter(records, table, linked, order, m + k + 1)
  {
    LinkedNext(records', table, linked', order', k);
    LinkedNext(records, table, linked, order, m + k);
  }

  /** From some place on two passes link the same ids, when they take the same records. */
  lemma {:induction false} LinkedShifts(records: map<ExecId, Record>, linked: set<string>, order: seq<ExecId>,
                                        records': map<ExecId, Record>, linked': set<string>, order': seq<ExecId>,
                                        table: seq<Position>, m: nat, start: nat, i: nat)
    requires AllStored(records, order) && AllStored(records', order') && start <= i <= |order'|
      && m + |order'| == |order|
    requires forall k | start <= k < i :: SameAt(records, order, records', order', m, k)
    requires LinkedAfter(records', table, linked', order', start)
      == LinkedAfter(records, table, linked, order, m + start)
    ensures LinkedAfter(records', table, linked', order', i) == LinkedAfter(records, table, linked, order, m + i)
    decreases i
  {
    if i > start {
      var k := i - 1;
      LinkedShifts(records, linked, order, records', linked', order', table, m, start, k);
      SameStep(records, linked, order, records', linked', order', table, m, k);
    }
  }

  /** The second pass takes at its place `i` the record at place `m + i`, and gives it the same order. */
  ghost predicate SameOwnerAt(records: map<ExecId, Record>, linked: set<string>, order: seq<ExecId>,
                              records': map<ExecId, Record>, linked': set<string>, order': seq<ExecId>,
                              table: seq<Position>, m: nat, i: nat)
  {
    && AllStored(records, order) && AllStored(records', order') && i < |order'| && m + i < |order|
    && order'[i] == order[m + i]
    && OwnerAt(records', table, linked', order', i) == OwnerAt(records, table, linked, order, m + i)
  }

  /** The owners of the second pass are those of the uninterrupted one, from record `m` on. */
  ghost predicate OwnersAgree(records: map<ExecId, Record>, linked: set<string>, order: seq<ExecId>,
                              records': map<ExecId, Record>, linked': set<string>, order': seq<ExecId>,
                              table: seq<Position>, m: nat)
  {
    && AllStored(records, order) && AllStored(records', order') && m + |order'| == |order|
    && forall i | 0 <= i < |order'| :: SameOwnerAt(records, linked, order, records', linked', order', table, m, i)
  }

  /** Where the linked ids agree the owners do. */
  lemma SameOwner(records: map<ExecId, Record>, linked: set<string>, order: seq<ExecId>, records': map<ExecId, Record>,
                  linked': set<string>, order': seq<ExecId>, table: seq<Position>, m: nat, k: nat)
    requires AllStored(records, order) && AllStored(records', order') && k < |order'| && m + |order'| == |order|
    requires SameAt(records, order, records', order', m, k)
    requires LinkedAfter(records', table, linked', order', k) == LinkedAfter(records, table, linked, order, m + k)
    ensures OwnerAt(records', table, linked', order', k) == OwnerAt(records, table, linked, order, m + k)
  {
  }

  lemma OwnerShifts(records: map<ExecId, Record>, linked: set<string>, order: seq<ExecId>,
                    records': map<ExecId, Record>, linked': set<string>, order': seq<ExecId>,
                    table: seq<Position>, m: nat, start: nat, i: nat)
    requires AllStored(records, order) && AllStored(records', order') && start <= i < |order'|
      && m + |order'| == |order|
    requires forall k | start <= k < |order'| :: SameAt(records, order, records', order', m, k)
    requires LinkedAfter(records', table, linked', order', start)
      == LinkedAfter(records, table, linked, order, m + start)
    ensures SameOwnerAt(records, linked, order, records', linked', order', table, m, i)
  {
    LinkedShifts(records, linked, order, records', linked', order', table, m, start, i);
    SameOwner(records, linked, order, records', linked', order', table, m, i);
  }

  lemma FreshAgree(records: map<ExecId, Record>, linked: set<string>, order: seq<ExecId>, records': map<ExecId, Record>,
                   linked': set<string>, order': seq<ExecId>, table: seq<Position>, m: nat)
    requires AllStored(records, order) && AllStored(records', order') && m + |order'| == |order|
    requires forall k | 0 <= k < |order'| :: SameAt(records, order, records', order', m, k)
    requires linked' == LinkedAfter(records, table, linked, order, m)
    ensures OwnersAgree(records, linked, order, records', linked', order', table, m)
  {
    forall i | 0 <= i < |order'|
      ensures SameOwnerAt(records, linked, order, records', linked', order', table, m, i)
    {
      OwnerShifts(records, linked, order, records', linked', order', table, m, 0, i);
    }
  }

  lemma TakenOnAgree(records: map<ExecId, Record>, linked: set<string>, order: seq<ExecId>,
                     records': map<ExecId, Record>, linked': set<string>, order': seq<ExecId>, table: seq<Position>,
                     m: nat)
    requires AllStored(records, order) && AllStored(records', order') && m + |order'| == |order| && order' != []
    requires order'[0] == order[m]
    requires forall k | 1 <= k < |order'| :: SameAt(records, order, records', order', m, k)
    requires TakesOn(LinkedAfter(records, table, linked, order, m), records[order[m]],
                     OwnerAt(records, table, linked, order, m), table, linked', records'[order'[0]])
    ensures OwnersAgree(records, linked, order, records', linked', order', table, m)
  {
    LinkedNext(records', table, linked', order', 0);
    LinkedNext(records, table, linked, order, m);
    forall i | 0 <= i < |order'|
      ensures SameOwnerAt(records, linked, order, records', linked', order', table, m, i)
    {
      if i > 0 {
        OwnerShifts(records, linked, order, records', linked', order', table, m, 1, i);
      }
    }
  }

  // ---- The two passes together ----

  /** A pass that stopped, the pass over the rest, and the pass that nothing stopped. */
  ghost predicate Resumed(tr: seq<Pass>, records: map<ExecId, Record>, rows: seq<Row>, order: seq<ExecId>,
                          table: seq<Position>, now: int, records': map<ExecId, Record>, rows': seq<Row>,
                          tr2: seq<Pass>, now2: int, full: seq<Pass>, now3: int)
  {
    && Pass0(tr, records, rows, order, table, now) && Stops(tr, order, table, 0, now, records', rows')
    && Pass0(tr2, records', rows', Rest(order, |tr| - 1, records'), table, now2)
    && Completes(tr2, Rest(order, |tr| - 1, records'))
    && Pass0(full, records, rows, order, table, now3) && Completes(full, order)
  }

  ghost predicate SameEnds(after: map<ExecId, Record>, other: map<ExecId, Record>) {
    && after.Keys == other.Keys
    && forall id | id in after ::
         after[id].state == other[id].state && after[id].brokerOrderId == other[id].brokerOrderId
  }

  /** What the stop leaves of each record. */
  lemma AtStop(tr: seq<Pass>, records: map<ExecId, Record>, rows: seq<Row>, order: seq<ExecId>, table: seq<Position>,
               now: int, records': map<ExecId, Record>, rows': seq<Row>, id: ExecId)
    requires Pass0(tr, records, rows, order, table, now) && Stops(tr, order, table, 0, now, records', rows')
      && id in records
    requires var n := |tr| - 1; n < |order| ==> id != order[n]
    ensures var n := |tr| - 1; id in records' && id in tr[n].records && records'[id] == tr[n].records[id]
  {
    TraceInv(tr, records, rows, order, table, 0, now, |tr| - 1);
  }

  /** Where the turn was stopped, its record as it was before the pass, and the ids linked then. */
  lemma BeforeStop(tr: seq<Pass>, records: map<ExecId, Record>, rows: seq<Row>, order: seq<ExecId>,
                   table: seq<Position>, now: int)
    requires Pass0(tr, records, rows, order, table, now) && AllStored(records, order) && |tr| <= |order|
    ensures var n := |tr| - 1;
      && order[n] in tr[n].records && tr[n].records[order[n]] == records[order[n]]
      && records[order[n]].Incomplete() && LegalHistory(records[order[n]])
      && tr[n].linked == OrderIds(tr[n].rows) == LinkedAfter(records, table, OrderIds(rows), order, n)
  {
    var n := |tr| - 1;
    Untouched(tr, records, rows, order, table, 0, now);
    BetweenRecordsIsSafe(tr, records, rows, order, table, 0, now, n);
    LinkedAlong(tr, records, rows, order, table, now, n);
  }

  /** The records that the second pass takes, but for the one that was stopped, are as they were. */
  lemma RestUntouched(tr: seq<Pass>, records: map<ExecId, Record>, rows: seq<Row>, order: seq<ExecId>,
                      table: seq<Position>, now: int, records': map<ExecId, Record>, rows': seq<Row>, k: nat)
    requires Pass0(tr, records, rows, order, table, now) && Stops(tr, order, table, 0, now, records', rows')
    requires |tr| <= k < |order|
    ensures order[k] in records && order[k] in records' && records'[order[k]] == records[order[k]]
  {
    var n := |tr| - 1;
    ListedOnce(order, IncompleteIds(records), k);
    assert order[k] !in order[..n] by {
      assert forall j | 0 <= j < n :: order[..n][j] == order[j];
    }
    OthersAlong(tr, records, rows, order, table, now, n, order[k]);
    AtStop(tr, records, rows, order, table, now, records', rows', order[k]);
  }

  /** How far the two passes agree: what the second one takes, and what became of the record that was stopped. */
  ghost predicate AgreeAtStop(records: map<ExecId, Record>, rows: seq<Row>, order: seq<ExecId>, table: seq<Position>,
                              n: nat, records': map<ExecId, Record>, rows': seq<Row>, order2: seq<ExecId>, m: nat)
  {
    && OwnersAgree(records, OrderIds(rows), order, records', OrderIds(rows'), order2, table, m)
    && (m == n || (m == n + 1 && n < |order| && order[n] in records'
                   && EndsAs(records'[order[n]], OwnerAt(records, table, OrderIds(rows), order, n))))
  }

  lemma CoversRest(tr: seq<Pass>, records: map<ExecId, Record>, rows: seq<Row>, order: seq<ExecId>,
                   table: seq<Position>, now: int, records': map<ExecId, Record>, rows': seq<Row>)
    requires Pass0(tr, records, rows, order, table, now) && Stops(tr, order, table, 0, now, records', rows')
    ensures AllStored(records, order) && AllStored(records', order)
  {
    OrderIsCovered(tr, records, rows, order, table, now);
    StopIsSafe(tr, records, rows, order, table, 0, now, records', rows');
  }

  /** From place `m` on, after the place of the stop, the records are the same for both passes. */
  lemma RestIsSame(tr: seq<Pass>, records: map<ExecId, Record>, rows: seq<Row>, order: seq<ExecId>,
                   table: seq<Position>, now: int, records': map<ExecId, Record>, rows': seq<Row>, m: nat, k: nat)
    requires Pass0(tr, records, rows, order, table, now) && Stops(tr, order, table, 0, now, records', rows')
    requires m <= |order| && k < |order[m..]| && |tr| <= m + k
    ensures SameAt(records, order, records', order[m..], m, k)
  {
    RestUntouched(tr, records, rows, order, table, now, records', rows', m + k);
  }

  lemma AgreeBetween(tr: seq<Pass>, records: map<ExecId, Record>, rows: seq<Row>, order: seq<ExecId>,
                     table: seq<Position>, now: int, records': map<ExecId, Record>, rows': seq<Row>)
    requires Pass0(tr, records, rows, order, table, now) && AllStored(records, order) && AllStored(records', order)
    requires var n := |tr| - 1; records' == tr[n].records && rows' == tr[n].rows
    ensures Rest(order, |tr| - 1, records') == order[|tr| - 1..]
    ensures AgreeAtStop(records, rows, order, table, |tr| - 1, records', rows', order[|tr| - 1..], |tr| - 1)
  {
    var n := |tr| - 1;
    if n < |order| {
      BeforeStop(tr, records, rows, order, table, now);
      forall k | 0 <= k < |order[n..]| ensures SameAt(records, order, records', order[n..], n, k) {
        if k > 0 {
          RestIsSame(tr, records, rows, order, table, now, records', rows', n, k);
        }
      }
      FreshAgree(records, OrderIds(rows), order, records', OrderIds(rows'), order[n..], table, n);
    }
  }

  /** The stop was within the turn of the record at `n`, and the second pass may take it on. */
  ghost predicate StopsWithin(tr: seq<Pass>, records: map<ExecId, Record>, rows: seq<Row>, order: seq<ExecId>,
                              table: seq<Position>, now: int, records': map<ExecId, Record>, rows': seq<Row>, n: nat)
  {
    && Pass0(tr, records, rows, order, table, now) && AllStored(records, order) && AllStored(records', order)
    && n == |tr| - 1 < |order| && Torn(tr[n], order[n], table, 0, now, records', rows')
    && (records'[order[n]] != records[order[n]] || records[order[n]].brokerOrderId != "")
  }

  lemma TakesOnAtStop(tr: seq<Pass>, records: map<ExecId, Record>, rows: seq<Row>, order: seq<ExecId>,
                      table: seq<Position>, now: int, records': map<ExecId, Record>, rows': seq<Row>, n: nat)
    requires StopsWithin(tr, records, rows, order, table, now, records', rows', n)
    ensures TakesOn(LinkedAfter(records, table, OrderIds(rows), order, n), records[order[n]],
                    OwnerAt(records, table, OrderIds(rows), order, n), table, OrderIds(rows'), records'[order[n]])
  {
    BeforeStop(tr, records, rows, order, table, now);
    TornTakesOn(tr[n], order[n], table, now, records', rows');
  }

  lemma AgreeTakenOn(tr: seq<Pass>, records: map<ExecId, Record>, rows: seq<Row>, order: seq<ExecId>,
                     table: seq<Position>, now: int, records': map<ExecId, Record>, rows': seq<Row>, n: nat)
    requires StopsWithin(tr, records, rows, order, table, now, records', rows', n) && records'[order[n]].Incomplete()
    ensures OwnersAgree(records, OrderIds(rows), order, records', OrderIds(rows'), order[n..], table, n)
  {
    TakesOnAtStop(tr, records, rows, order, table, now, records', rows', n);
    var rest := order[n..];
    forall k | 1 <= k < |rest| ensures SameAt(records, order, records', rest, n, k) {
      RestIsSame(tr, records, rows, order, table, now, records', rows', n, k);
    }
    TakenOnAgree(records, OrderIds(rows), order, records', OrderIds(rows'), rest, table, n);
  }

  lemma AgreeEnded(tr: seq<Pass>, records: map<ExecId, Record>, rows: seq<Row>, order: seq<ExecId>,
                   table: seq<Position>, now: int, records': map<ExecId, Record>, rows': seq<Row>, n: nat)
    requires StopsWithin(tr, records, rows, order, table, now, records', rows', n) && !records'[order[n]].Incomplete()
    ensures OwnersAgree(records, OrderIds(rows), order, records', OrderIds(rows'), order[n + 1..], table, n + 1)
    ensures EndsAs(records'[order[n]], OwnerAt(records, table, OrderIds(rows), order, n))
  {
    BeforeStop(tr, records, rows, order, table, now);
    TornStands(tr[n], order[n], table, now, records', rows');
    TornLinks(tr[n], order[n], table, now, records', rows');
    LinkedNext(records, table, OrderIds(rows), order, n);
    var m, rest := n + 1, order[n + 1..];
    forall k | 0 <= k < |rest| ensures SameAt(records, order, records', rest, m, k) {
      RestIsSame(tr, records, rows, order, table, now, records', rows', m, k);
    }
    FreshAgree(records, OrderIds(rows), order, records', OrderIds(rows'), rest, table, m);
  }

  lemma AgreeWithin(tr: seq<Pass>, records: map<ExecId, Record>, rows: seq<Row>, order: seq<ExecId>,
                    table: seq<Position>, now: int, records': map<ExecId, Record>, rows': seq<Row>, n: nat)
    returns (m: nat)
    requires StopsWithin(tr, records, rows, order, table, now, records', rows', n)
    ensures AgreeAtStop(records, rows, order, table, n, records', rows', Rest(order, n, records'), m)
  {
    m := if records'[order[n]].Incomplete() then n else n + 1;
    if m == n {
      AgreeTakenOn(tr, records, rows, order, table, now, records', rows', n);
    } else {
      AgreeEnded(tr, records, rows, order, table, now, records', rows', n);
    }
  }

  lemma AgreeUnlessRowOnly(tr: seq<Pass>, records: map<ExecId, Record>, rows: seq<Row>, order: seq<ExecId>,
                           table: seq<Position>, now: int, records': map<ExecId, Record>, rows': seq<Row>)
    returns (m: nat)
    requires Pass0(tr, records, rows, order, table, now) && Stops(tr, order, table, 0, now, records', rows')
    requires !RowOnlyStop(tr, order, records, records', rows') && AllStored(records, order)
    ensures AgreeAtStop(records, rows, order, table, |tr| - 1, records', rows', Rest(order, |tr| - 1, records'), m)
  {
    var n := |tr| - 1;
    m := n;
    CoversRest(tr, records, rows, order, table, now, records', rows');
    if records' == tr[n].records && rows' == tr[n].rows {
      AgreeBetween(tr, records, rows, order, table, now, records', rows');
    } else {
      BeforeStop(tr, records, rows, order, table, now);
      assert records'[order[n]] == records[order[n]] ==> records' == tr[n].records;
      m := AgreeWithin(tr, records, rows, order, table, now, records', rows', n);
    }
  }

  /** A record that the second pass finds ended. */
  lemma LeftAlone(tr2: seq<Pass>, records': map<ExecId, Record>, rows': seq<Row>, order2: seq<ExecId>,
                  table: seq<Position>, now2: int, id: ExecId, owner: string)
    requires Pass0(tr2, records', rows', order2, table, now2) && id in records' && EndsAs(records'[id], owner)
    ensures id in tr2[|tr2| - 1].records && EndsAs(tr2[|tr2| - 1].records[id], owner)
  {
    OthersAlong(tr2, records', rows', order2, table, now2, |tr2| - 1, id);
  }

  /** The second pass takes the record. */
  lemma TakenEnds(records: map<ExecId, Record>, rows: seq<Row>, order: seq<ExecId>, table: seq<Position>,
                  records': map<ExecId, Record>, rows': seq<Row>, order2: seq<ExecId>, tr2: seq<Pass>, now2: int,
                  m: nat, i: nat)
    requires Pass0(tr2, records', rows', order2, table, now2) && Completes(tr2, order2)
    requires SameOwnerAt(records, OrderIds(rows), order, records', OrderIds(rows'), order2, table, m, i)
    ensures order[m + i] in tr2[|tr2| - 1].records
    ensures EndsAs(tr2[|tr2| - 1].records[order[m + i]], OwnerAt(records, table, OrderIds(rows), order, m + i))
  {
    EndsAlong(tr2, records', rows', order2, table, now2, i, |order2|);
  }

  /** The stop has left the record at place `k` ended. */
  lemma StoppedEnds(tr: seq<Pass>, records: map<ExecId, Record>, rows: seq<Row>, order: seq<ExecId>,
                    table: seq<Position>, now: int, records': map<ExecId, Record>, rows': seq<Row>, order2: seq<ExecId>,
                    m: nat, k: nat)
    requires Pass0(tr, records, rows, order, table, now) && Stops(tr, order, table, 0, now, records', rows')
    requires AllStored(records, order) && AgreeAtStop(records, rows, order, table, |tr| - 1, records', rows', order2, m)
    requires k < m && k < |order|
    ensures order[k] in records' && EndsAs(records'[order[k]], OwnerAt(records, table, OrderIds(rows), order, k))
  {
    if k < |tr| - 1 {
      EarlierEnds(tr, records, rows, order, table, now, records', rows', k);
    }
  }

  /** The record had ended before the stop, and the second pass leaves it alone. */
  lemma EarlierEnds(tr: seq<Pass>, records: map<ExecId, Record>, rows: seq<Row>, order: seq<ExecId>,
                    table: seq<Position>, now: int, records': map<ExecId, Record>, rows': seq<Row>, k: nat)
    requires Pass0(tr, records, rows, order, table, now) && Stops(tr, order, table, 0, now, records', rows')
    requires AllStored(records, order) && k < |tr| - 1 && k < |order|
    ensures order[k] in records' && EndsAs(records'[order[k]], OwnerAt(records, table, OrderIds(rows), order, k))
  {
    EndsAlong(tr, records, rows, order, table, now, k, |tr| - 1);
    OtherPlace(order, IncompleteIds(records), k, |tr| - 1);
    AtStop(tr, records, rows, order, table, now, records', rows', order[k]);
  }

  lemma OtherPlace(order: seq<ExecId>, ids: set<ExecId>, k: nat, n: nat)
    requires Lists(order, ids) && k < n && k < |order|
    ensures n < |order| ==> order[k] != order[n]
  {
  }

  /** A record that had ended before the first pass is as it was after both ways. */
  lemma EndedStays(tr: seq<Pass>, records: map<ExecId, Record>, rows: seq<Row>, order: seq<ExecId>,
                   table: seq<Position>, now: int, records': map<ExecId, Record>, rows': seq<Row>, tr2: seq<Pass>,
                   now2: int, full: seq<Pass>, now3: int, id: ExecId)
    requires Resumed(tr, records, rows, order, table, now, records', rows', tr2, now2, full, now3)
    requires id in records && !records[id].Incomplete()
    ensures id in full[|order|].records && id in tr2[|tr2| - 1].records
    ensures full[|order|].records[id] == records[id] == tr2[|tr2| - 1].records[id]
  {
    var n := |tr| - 1;
    if n < |order| {
      ListedOnce(order, IncompleteIds(records), n);
    }
    OthersAlong(full, records, rows, order, table, now3, |order|, id);
    OthersAlong(tr, records, rows, order, table, now, n, id);
    AtStop(tr, records, rows, order, table, now, records', rows', id);
    OthersAlong(tr2, records', rows', Rest(order, n, records'), table, now2, |tr2| - 1, id);
  }

  lemma SameKeys(tr: seq<Pass>, records: map<ExecId, Record>, rows: seq<Row>, order: seq<ExecId>, table: seq<Position>,
                 now: int, records': map<ExecId, Record>, rows': seq<Row>, tr2: seq<Pass>, now2: int,
                 full: seq<Pass>, now3: int)
    requires Resumed(tr, records, rows, order, table, now, records', rows', tr2, now2, full, now3)
    ensures full[|order|].records.Keys == records.Keys == tr2[|tr2| - 1].records.Keys
  {
    TraceInv(full, records, rows, order, table, 0, now3, |order|);
    StopIsSafe(tr, records, rows, order, table, 0, now, records', rows');
    TraceInv(tr2, records', rows', Rest(order, |tr| - 1, records'), table, 0, now2, |tr2| - 1);
  }

  /** The row of an adopted position is written, and the record will never find that position again. */
  lemma RowOnlyDiffers(tr: seq<Pass>, records: map<ExecId, Record>, rows: seq<Row>, order: seq<ExecId>,
                       table: seq<Position>, now: int, records': map<ExecId, Record>, rows': seq<Row>, tr2: seq<Pass>,
                       now2: int, full: seq<Pass>, now3: int)
    requires Resumed(tr, records, rows, order, table, now, records', rows', tr2, now2, full, now3)
    requires RowOnlyStop(tr, order, records, records', rows')
    ensures !SameEnds(full[|order|].records, tr2[|tr2| - 1].records)
  {
    var n := |tr| - 1;
    CoversRest(tr, records, rows, order, table, now, records', rows');
    BeforeStop(tr, records, rows, order, table, now);
    var owner := OwnerIn(tr[n].linked, records[order[n]], table);
    TornLinks(tr[n], order[n], table, now, records', rows');
    OwnerChanges(tr[n], order[n], table, now, records', rows');
    EndsAlong(full, records, rows, order, table, now3, n, |order|);
    assert Rest(order, n, records') == order[n..];
    FirstEnds(tr2, records', rows', order[n..], table, now2);
  }

  lemma FirstEnds(tr: seq<Pass>, records: map<ExecId, Record>, rows: seq<Row>, order: seq<ExecId>, table: seq<Position>,
                  now: int)
    requires Pass0(tr, records, rows, order, table, now) && Completes(tr, order) && order != []
    ensures order[0] in records && order[0] in tr[|tr| - 1].records
    ensures EndsAs(tr[|tr| - 1].records[order[0]], OwnerIn(OrderIds(rows), records[order[0]], table))
  {
    OrderIsCovered(tr, records, rows, order, table, now);
    EndsAlong(tr, records, rows, order, table, now, 0, |order|);
  }

  /** A position that has just been journaled is not found again. */
  lemma OwnerChanges(s: Pass, id: ExecId, table: seq<Position>, now: int, records': map<ExecId, Record>,
                     rows': seq<Row>)
    requires Torn(s, id, table, 0, now, records', rows') && s.linked == OrderIds(s.rows)
    requires records' == s.records && rows' != s.rows && s.records[id].brokerOrderId == ""
    ensures OwnerIn(OrderIds(rows'), records'[id], table) != OwnerIn(s.linked, s.records[id], table)
  {
    TornLinks(s, id, table, now, records', rows');
  }

  /**
    After a crash anywhere in a pass without an age gate, the pass over what is left, over the same positions and in
    the same order, ends every record in the state and with the order that the uninterrupted pass gives it, exactly
    when the crash did not come between the row of an adopted position and the attachment of its id.
   */
  lemma ResumeIsExact(tr: seq<Pass>, records: map<ExecId, Record>, rows: seq<Row>, order: seq<ExecId>,
                      table: seq<Position>, now: int, records': map<ExecId, Record>, rows': seq<Row>, tr2: seq<Pass>,
                      now2: int, full: seq<Pass>, now3: int)
    requires Resumed(tr, records, rows, order, table, now, records', rows', tr2, now2, full, now3)
    ensures SameEnds(full[|order|].records, tr2[|tr2| - 1].records)
      <==> !RowOnlyStop(tr, order, records, records', rows')
  {
    if RowOnlyStop(tr, order, records, records', rows') {
      RowOnlyDiffers(tr, records, rows, order, table, now, records', rows', tr2, now2, full, now3);
    } else {
      OrderIsCovered(tr, records, rows, order, table, now);
      var m := AgreeUnlessRowOnly(tr, records, rows, order, table, now, records', rows');
      SameKeys(tr, records, rows, order, table, now, records', rows', tr2, now2, full, now3);
      forall id | id in records
        ensures full[|order|].records[id].state == tr2[|tr2| - 1].records[id].state
        ensures full[|order|].records[id].brokerOrderId == tr2[|tr2| - 1].records[id].brokerOrderId
      {
        EndsSame(tr, records, rows, order, table, now, records', rows', tr2, now2, full, now3, m, id);
      }
    }
  }

  lemma EndsSame(tr: seq<Pass>, records: map<ExecId, Record>, rows: seq<Row>, order: seq<ExecId>, table: seq<Position>,
                 now: int, records': map<ExecId, Record>, rows': seq<Row>, tr2: seq<Pass>, now2: int,
                 full: seq<Pass>, now3: int, m: nat, id: ExecId)
    requires Resumed(tr, records, rows, order, table, now, records', rows', tr2, now2, full, now3)
    requires AllStored(records, order) && id in records
    requires AgreeAtStop(records, rows, order, table, |tr| - 1, records', rows', Rest(order, |tr| - 1, records'), m)
    ensures id in full[|order|].records && id in tr2[|tr2| - 1].records
    ensures full[|order|].records[id].state == tr2[|tr2| - 1].records[id].state
    ensures full[|order|].records[id].brokerOrderId == tr2[|tr2| - 1].records[id].brokerOrderId
  {
    if records[id].Incomplete() {
      assert id in order;
      var k :| 0 <= k < |order| && order[k] == id;
      EndsAlong(full, records, rows, order, table, now3, k, |order|);
      var order2 := Rest(order, |tr| - 1, records');
      SecondEnds(tr, records, rows, order, table, now, records', rows', order2, tr2, now2, m, k);
    } else {
      EndedStays(tr, records, rows, order, table, now, records', rows', tr2, now2, full, now3, id);
    }
  }

  /** How the second pass ends a record that was open for the first one, at place `k` of its order. */
  lemma SecondEnds(tr: seq<Pass>, records: map<ExecId, Record>, rows: seq<Row>, order: seq<ExecId>,
                   table: seq<Position>, now: int, records': map<ExecId, Record>, rows': seq<Row>, order2: seq<ExecId>,
                   tr2: seq<Pass>, now2: int, m: nat, k: nat)
    requires Pass0(tr, records, rows, order, table, now) && Stops(tr, order, table, 0, now, records', rows')
    requires Pass0(tr2, records', rows', order2, table, now2) && Completes(tr2, order2)
    requires AllStored(records, order) && AgreeAtStop(records, rows, order, table, |tr| - 1, records', rows', order2, m)
    requires k < |order|
    ensures order[k] in tr2[|tr2| - 1].records
    ensures EndsAs(tr2[|tr2| - 1].records[order[k]], OwnerAt(records, table, OrderIds(rows), order, k))
  {
    if m <= k {
      var i := k - m;
      assert SameOwnerAt(records, OrderIds(rows), order, records', OrderIds(rows'), order2, table, m, i);
      TakenEnds(records, rows, order, table, records', rows', order2, tr2, now2, m, i);
      assert m + i == k;
    } else {
      StoppedEnds(tr, records, rows, order, table, now, records', rows', order2, m, k);
      LeftAlone(tr2, records', rows', order2, table, now2, order[k], OwnerAt(records, table, OrderIds(rows), order, k));
    }
  }
}
