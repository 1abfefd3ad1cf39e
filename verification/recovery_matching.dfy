/**
  How well the greedy adoption of open positions does. With complete metadata a record and a
  position fit exactly when they agree on symbol, direction and lots; for each such key the
  pass recovers as many pending records as any assignment of positions could.
 */
module RecoveryMatching {
  import opened Wrappers
  import opened ExecutionState
  import opened TradeJournal
  import opened Positions
  import opened StartupRecovery
  import opened RecoveryTheorems

  datatype Key = Key(symbol: string, direction: string, lots: int)

  predicate RecordHasKey(r: Record, k: Key) {
    r.Metadata() == Meta(k.symbol, k.direction, Some(k.lots))
  }

  predicate PositionHasKey(p: Position, k: Key) {
    p.symbol == k.symbol && p.direction == k.direction && p.lots == Some(k.lots)
  }

  /** The incomplete records without an order id that ask for `k`. */
  function Pending(records: map<ExecId, Record>, k: Key): set<ExecId> {
    set id | id in records && records[id].Incomplete() && records[id].brokerOrderId == ""
      && RecordHasKey(records[id], k)
  }

  /** The open positions with key `k` that are not linked to any journaled trade. */
  function Free(table: seq<Position>, linked: set<string>, k: Key): set<Position> {
    set p | p in table && p.id !in linked && PositionHasKey(p, k)
  }

  function Ended(records: map<ExecId, Record>, s: Pass, k: Key, end: State): set<ExecId> {
    set id | id in Pending(records, k) && id in s.records && s.records[id].state == end
  }

  /** Nothing is left to guess: complete metadata, and every known order id of an incomplete record is journaled. */
  ghost predicate Matchable(records: map<ExecId, Record>, rows: seq<Row>, table: seq<Position>) {
    && (forall id | id in records && records[id].Incomplete() ::
         if records[id].brokerOrderId == "" then
           exists k :: RecordHasKey(records[id], k) && k.symbol != "" && k.direction != ""
         else records[id].brokerOrderId in OrderIds(rows))
    && forall p | p in table :: p.lots.Some?
  }

  function Min(a: nat, b: nat): nat {
    if a < b then a else b
  }

  /** Each recovered record has used up one free position, and a record failed only when none was left. */
  ghost predicate MatchInv(records: map<ExecId, Record>, rows: seq<Row>, table: seq<Position>, k: Key, s: Pass) {
    && OrderIds(rows) <= s.linked
    && |Free(table, s.linked, k)| + |Ended(records, s, k, COMPLETED)| == |Free(table, OrderIds(rows), k)|
    && (Ended(records, s, k, FAILED_TERMINAL) != {} ==> Free(table, s.linked, k) == {})
  }

  lemma TakeOne(table: seq<Position>, linked: set<string>, p: Position, k: Key)
    requires DistinctIds(table) && p in table && p.id !in linked
    ensures Free(table, linked + {p.id}, k) == Free(table, linked, k) - {p}
    ensures p in Free(table, linked, k) <==> PositionHasKey(p, k)
  {
  }

  /** The part of a turn that matching depends on: how the record ended and what became linked. */
  ghost predicate Effect(s: Pass, id: ExecId, table: seq<Position>, t: Pass) {
    && id in s.records && id in t.records && t.records == s.records[id := t.records[id]]
    && var r := s.records[id];
       var found := FindMatch(table, s.linked, r.Metadata());
       if r.brokerOrderId != "" then
         t.records[id].state == COMPLETED && t.linked == s.linked + {r.brokerOrderId}
       else if found.Some? then
         t.records[id].state == COMPLETED && t.linked == s.linked + {found.value.id}
       else
         t.records[id].state == FAILED_TERMINAL && t.linked == s.linked
  }

  lemma TurnEffect(table: seq<Position>, now: int, s: Pass, id: ExecId, t: Pass)
    requires id in s.records && Turn(s, id, table, 0, now, t) && !HasId(table, "")
    ensures Effect(s, id, table, t)
  {
    var found := FindMatch(table, s.linked, s.records[id].Metadata());
    assert found.Some? ==> HasId(table, found.value.id);
  }

  lemma EndedStep(records: map<ExecId, Record>, s: Pass, id: ExecId, t: Pass, k: Key, end: State)
    requires id in records && id in s.records && s.records[id] == records[id] && records[id].Incomplete()
    requires id in t.records && t.records == s.records[id := t.records[id]] && end in TERMINAL_STATES
    ensures id !in Ended(records, s, k, end)
    ensures Ended(records, t, k, end) ==
      Ended(records, s, k, end) + if id in Pending(records, k) && t.records[id].state == end then {id} else {}
  {
  }

  /** A complete record fits exactly the positions of its key. */
  lemma FitsByKey(records: map<ExecId, Record>, rows: seq<Row>, table: seq<Position>, id: ExecId) returns (key: Key)
    requires Matchable(records, rows, table) && id in records && records[id].Incomplete()
      && records[id].brokerOrderId == ""
    ensures forall p | p in table :: Compatible(records[id].Metadata(), p) <==> PositionHasKey(p, key)
    ensures forall k :: id in Pending(records, k) <==> k == key
  {
    key :| RecordHasKey(records[id], key) && key.symbol != "" && key.direction != "";
  }

  /** How one incomplete record changes the two counts. */
  ghost predicate CountsMoved(records: map<ExecId, Record>, table: seq<Position>, k: Key, s: Pass, id: ExecId, t: Pass,
                              used: set<Position>, done: set<ExecId>, lost: set<ExecId>)
  {
    && Free(table, t.linked, k) == Free(table, s.linked, k) - used
    && Ended(records, t, k, COMPLETED) == Ended(records, s, k, COMPLETED) + done
    && Ended(records, t, k, FAILED_TERMINAL) == Ended(records, s, k, FAILED_TERMINAL) + lost
    && id !in Ended(records, s, k, COMPLETED)
  }

  lemma KnownMoves(records: map<ExecId, Record>, rows: seq<Row>, table: seq<Position>, k: Key, s: Pass, id: ExecId,
                   t: Pass)
    requires Effect(s, id, table, t) && id in records && s.records[id] == records[id] && records[id].Incomplete()
    requires records[id].brokerOrderId in s.linked && records[id].brokerOrderId != ""
    ensures t.linked == s.linked && CountsMoved(records, table, k, s, id, t, {}, {}, {})
  {
    EndedStep(records, s, id, t, k, COMPLETED);
    EndedStep(records, s, id, t, k, FAILED_TERMINAL);
    assert s.linked + {records[id].brokerOrderId} == s.linked;
  }

  lemma FailureMoves(records: map<ExecId, Record>, table: seq<Position>, k: Key, s: Pass, id: ExecId, t: Pass, key: Key)
    requires Effect(s, id, table, t) && id in records && s.records[id] == records[id] && records[id].Incomplete()
    requires records[id].brokerOrderId == "" && FindMatch(table, s.linked, records[id].Metadata()).None?
    requires id in Pending(records, k) <==> k == key
    ensures t.linked == s.linked && CountsMoved(records, table, k, s, id, t, {}, {}, if k == key then {id} else {})
  {
    EndedStep(records, s, id, t, k, COMPLETED);
    EndedStep(records, s, id, t, k, FAILED_TERMINAL);
  }

  lemma AdoptionMoves(records: map<ExecId, Record>, table: seq<Position>, k: Key, s: Pass, id: ExecId, t: Pass,
                      key: Key, p: Position)
    requires Effect(s, id, table, t) && id in records && s.records[id] == records[id] && records[id].Incomplete()
    requires records[id].brokerOrderId == "" && FindMatch(table, s.linked, records[id].Metadata()) == Some(p)
    requires id in Pending(records, k) <==> k == key
    requires DistinctIds(table)
    ensures t.linked == s.linked + {p.id}
      && CountsMoved(records, table, k, s, id, t, {p}, if k == key then {id} else {}, {})
  {
    TakeOne(table, s.linked, p, k);
    EndedStep(records, s, id, t, k, COMPLETED);
    EndedStep(records, s, id, t, k, FAILED_TERMINAL);
  }

  lemma NoneFree(table: seq<Position>, linked: set<string>, meta: Meta, key: Key)
    requires FindMatch(table, linked, meta).None?
    requires forall p | p in table :: Compatible(meta, p) <==> PositionHasKey(p, key)
    ensures Free(table, linked, key) == {}
  {
  }

  lemma MovedKeepsMatch(records: map<ExecId, Record>, rows: seq<Row>, table: seq<Position>, k: Key, s: Pass, id: ExecId,
                        t: Pass, used: set<Position>, done: set<ExecId>, lost: set<ExecId>)
    requires MatchInv(records, rows, table, k, s) && s.linked <= t.linked
    requires CountsMoved(records, table, k, s, id, t, used, done, lost)
    requires if done == {} then used * Free(table, s.linked, k) == {}
             else done == {id} && exists p :: used == {p} && p in Free(table, s.linked, k)
    requires lost == {} || Free(table, s.linked, k) == {}
    ensures MatchInv(records, rows, table, k, t)
  {
    if done == {} {
      assert Free(table, t.linked, k) == Free(table, s.linked, k);
    }
  }

  lemma TurnKeepsMatch(records: map<ExecId, Record>, rows: seq<Row>, table: seq<Position>, k: Key, s: Pass, id: ExecId,
                       t: Pass)
    requires Matchable(records, rows, table) && DistinctIds(table) && MatchInv(records, rows, table, k, s)
    requires id in s.records && id in records && s.records[id] == records[id] && records[id].Incomplete()
    requires Effect(s, id, table, t)
    ensures MatchInv(records, rows, table, k, t)
  {
    var meta := records[id].Metadata();
    var found := FindMatch(table, s.linked, meta);
    if records[id].brokerOrderId != "" {
      KnownMoves(records, rows, table, k, s, id, t);
      MovedKeepsMatch(records, rows, table, k, s, id, t, {}, {}, {});
    } else {
      var key := FitsByKey(records, rows, table, id);
      var own := if k == key then {id} else {};
      if found.Some? {
        var p := found.value;
        AdoptionMoves(records, table, k, s, id, t, key, p);
        assert p in Free(table, s.linked, k) <==> k == key;
        MovedKeepsMatch(records, rows, table, k, s, id, t, {p}, own, {});
      } else {
        NoneFree(table, s.linked, meta, key);
        FailureMoves(records, table, k, s, id, t, key);
        MovedKeepsMatch(records, rows, table, k, s, id, t, {}, {}, own);
      }
    }
  }

  lemma EffectAt(tr: seq<Pass>, records: map<ExecId, Record>, rows: seq<Row>, order: seq<ExecId>,
                 table: seq<Position>, now: int, i: nat)
    requires ValidStore(records) && ValidRows(rows) && Trace(tr, records, rows, order, table, 0, now) && i + 1 < |tr|
    ensures order[i] in records && records[order[i]].Incomplete()
    ensures order[i] in tr[i].records && tr[i].records[order[i]] == records[order[i]]
    ensures Effect(tr[i], order[i], table, tr[i + 1])
  {
    AtTurn(tr, records, rows, order, table, 0, now, i);
    TurnEffect(table, now, tr[i], order[i], tr[i + 1]);
  }

  lemma MatchGoesOn(tr: seq<Pass>, records: map<ExecId, Record>, rows: seq<Row>, order: seq<ExecId>,
                    table: seq<Position>, now: int, k: Key, i: nat)
    requires ValidStore(records) && ValidRows(rows) && Matchable(records, rows, table)
    requires Trace(tr, records, rows, order, table, 0, now) && i + 1 < |tr|
    requires MatchInv(records, rows, table, k, tr[i])
    ensures MatchInv(records, rows, table, k, tr[i + 1])
  {
    EffectAt(tr, records, rows, order, table, now, i);
    TurnKeepsMatch(records, rows, table, k, tr[i], order[i], tr[i + 1]);
  }

  lemma {:induction false} MatchHolds(tr: seq<Pass>, records: map<ExecId, Record>, rows: seq<Row>, order: seq<ExecId>,
                                      table: seq<Position>, now: int, k: Key, i: nat)
    requires ValidStore(records) && ValidRows(rows) && Matchable(records, rows, table)
    requires Trace(tr, records, rows, order, table, 0, now) && i < |tr|
    ensures MatchInv(records, rows, table, k, tr[i])
  {
    if i == 0 {
      assert Ended(records, tr[0], k, COMPLETED) == {} && Ended(records, tr[0], k, FAILED_TERMINAL) == {};
    } else {
      MatchHolds(tr, records, rows, order, table, now, k, i - 1);
      MatchGoesOn(tr, records, rows, order, table, now, k, i - 1);
    }
  }

  lemma PendingSplits(tr: seq<Pass>, records: map<ExecId, Record>, rows: seq<Row>, order: seq<ExecId>,
                      table: seq<Position>, now: int, k: Key)
    requires ValidStore(records) && ValidRows(rows)
    requires Trace(tr, records, rows, order, table, 0, now) && Completes(tr, order)
    ensures var done, lost :=
      Ended(records, tr[|order|], k, COMPLETED), Ended(records, tr[|order|], k, FAILED_TERMINAL);
      Pending(records, k) == done + lost && done !! lost
  {
    forall id | id in Pending(records, k)
      ensures id in tr[|order|].records && tr[|order|].records[id].state in {COMPLETED, FAILED_TERMINAL}
    {
      PassResolvesEverything(tr, records, rows, order, table, 0, now, id);
    }
  }

  /** For each key the pass recovers min(pending, free) records, and fails the surplus only. */
  lemma RecoveredCount(tr: seq<Pass>, records: map<ExecId, Record>, rows: seq<Row>, order: seq<ExecId>,
                       table: seq<Position>, now: int, k: Key)
    requires ValidStore(records) && ValidRows(rows) && Matchable(records, rows, table)
    requires Trace(tr, records, rows, order, table, 0, now) && Completes(tr, order)
    ensures var done, lost :=
      Ended(records, tr[|order|], k, COMPLETED), Ended(records, tr[|order|], k, FAILED_TERMINAL);
      && |done| == Min(|Pending(records, k)|, |Free(table, OrderIds(rows), k)|)
      && lost == Pending(records, k) - done
  {
    var s := tr[|order|];
    var done, lost := Ended(records, s, k, COMPLETED), Ended(records, s, k, FAILED_TERMINAL);
    MatchHolds(tr, records, rows, order, table, now, k, |order|);
    PendingSplits(tr, records, rows, order, table, now, k);
    assert |Pending(records, k)| == |done| + |lost|;
    if lost == {} {
      assert |done| == |Pending(records, k)|;
    }
  }

  /** Distinct open positions given to distinct pending records, each fitting its record. */
  ghost predicate IsAssignment(a: map<ExecId, Position>, records: map<ExecId, Record>, rows: seq<Row>,
                               table: seq<Position>)
  {
    && (forall id, id' | id in a && id' in a && id != id' :: a[id] != a[id'])
    && forall id | id in a ::
      && id in records && records[id].Incomplete() && records[id].brokerOrderId == ""
      && a[id] in table && Fits(a[id], OrderIds(rows), records[id].Metadata())
  }

  lemma AssignedIsFree(a: map<ExecId, Position>, records: map<ExecId, Record>, rows: seq<Row>, table: seq<Position>,
                       id: ExecId, k: Key)
    requires IsAssignment(a, records, rows, table) && Matchable(records, rows, table)
    requires id in a && RecordHasKey(records[id], k)
    ensures a[id] in Free(table, OrderIds(rows), k)
  {
    var key :| RecordHasKey(records[id], key) && key.symbol != "" && key.direction != "";
    assert key == k;
  }

  /** No assignment whatsoever does better than the greedy pass on any key. */
  lemma NoAssignmentBeatsThePass(tr: seq<Pass>, records: map<ExecId, Record>, rows: seq<Row>, order: seq<ExecId>,
                                 table: seq<Position>, now: int, a: map<ExecId, Position>, k: Key)
    requires ValidStore(records) && ValidRows(rows) && Matchable(records, rows, table)
    requires Trace(tr, records, rows, order, table, 0, now) && Completes(tr, order)
    requires IsAssignment(a, records, rows, table)
    ensures |set id | id in a && RecordHasKey(records[id], k)| <= |Ended(records, tr[|order|], k, COMPLETED)|
  {
    RecoveredCount(tr, records, rows, order, table, now, k);
    var keyed := set id | id in a && RecordHasKey(records[id], k);
    SubsetSize(keyed, Pending(records, k));
    var used := ImageSize(keyed, a);
    forall p | p in used ensures p in Free(table, OrderIds(rows), k) {
      var id :| id in keyed && a[id] == p;
      AssignedIsFree(a, records, rows, table, id, k);
    }
    SubsetSize(used, Free(table, OrderIds(rows), k));
  }

  lemma {:induction false} SubsetSize<T>(a: set<T>, b: set<T>)
    requires a <= b
    ensures |a| <= |b|
  {
    if a != {} {
      var x :| x in a;
      SubsetSize(a - {x}, b - {x});
    }
  }

  lemma {:induction false} ImageSize(keys: set<ExecId>, a: map<ExecId, Position>) returns (used: set<Position>)
    requires keys <= a.Keys && forall id, id' | id in keys && id' in keys && id != id' :: a[id] != a[id']
    ensures |used| == |keys| && forall p | p in used :: exists id | id in keys :: a[id] == p
    ensures forall id | id in keys :: a[id] in used
    decreases keys
  {
    if keys == {} {
      used := {};
    } else {
      var id :| id in keys;
      var rest := ImageSize(keys - {id}, a);
      assert a[id] !in rest;
      used := rest + {a[id]};
    }
  }
}
