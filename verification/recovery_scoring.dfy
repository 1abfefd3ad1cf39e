/**
  From recovery to scoring. A row that recovery writes carries the symbol its record asked for, and
  closes are matched by id and symbol: an order that recovery journals is scored when its position
  closes, provided that the record's symbol is the position's; otherwise its row stays open for good.
 */
module RecoveryScoring {
  import opened Wrappers
  import opened ExecutionState
  import opened TradeJournal
  import opened Positions
  import opened StartupRecovery
  import opened RecoveryTheorems
  import opened RecoveryOwnership
  import Closes = CloseReconciliation

  /** The record may get the order of `p`: it knows the id, or it looks for a position and `p` would do. */
  predicate Claims(r: Record, gate: int, now: int, p: Position) {
    r.Incomplete() && (r.brokerOrderId == p.id || (Seeks(r, gate, now) && Compatible(r.Metadata(), p)))
  }

  /** The same position, apart from what the market does to it. */
  predicate Alike(p: Position, q: Position) {
    p.id == q.id && p.symbol == q.symbol && p.direction == q.direction && p.lots == q.lots
  }

  /** The table holds this position under its id, or nothing. */
  ghost predicate Sees(table: seq<Position>, p: Position) {
    forall q | q in table && q.id == p.id :: Alike(q, p)
  }

  /**
    A row tells what the record asked for and what the table shows of its order. An empty direction counts as a buy;
    one that is neither a buy nor a sell is kept.
   */
  ghost predicate RowTells(row: Row, r: Record, table: seq<Position>) {
    && row.status == OPEN && row.close == None && row.riskPct == 0.25
    && row.strategy == (if r.strategyId == "" then "unknown" else r.strategyId)
    && row.symbol == r.Metadata().symbol
    && (row.direction == "long" <==> r.Metadata().direction in {"", "buy", "BUY", "long"})
    && (row.direction == "short" <==> r.Metadata().direction in {"sell", "SELL", "short"})
    && (row.direction in {"long", "short"} || row.direction == r.Metadata().direction)
    && (r.Metadata().lots.Some? ==> row.size == r.Metadata().lots.value)
    && (r.Metadata().lots.None? ==> row.size == 0)
    && (forall q | q in table && q.id == row.orderId :: row.entryPrice == q.entry)
    && (!HasId(table, row.orderId) ==> row.entryPrice == 0.0)
  }

  /**
    Row `k` was written for some incomplete record and tells of it and of its order: one that knows the order, or one
    that found its position.
   */
  ghost predicate WrittenFor(records: map<ExecId, Record>, table: seq<Position>, gate: int, now: int, rows: seq<Row>,
                             k: nat)
  {
    && k < |rows| && rows[k].orderId != ""
    && exists id | id in records && records[id].Incomplete() && RowTells(rows[k], records[id], table) ::
         || records[id].brokerOrderId == rows[k].orderId
         || (Seeks(records[id], gate, now)
             && exists q | q in table :: q.id == rows[k].orderId && Compatible(records[id].Metadata(), q))
  }

  /** A row written for a record tells of the record and of the position with its order id. */
  lemma BackfillTells(id: nat, r: Record, orderId: string, table: seq<Position>, p: Option<Position>)
    requires DistinctIds(table) && (p.None? ==> !HasId(table, orderId))
    requires p.Some? ==> p.value in table && p.value.id == orderId
    ensures RowTells(NewRow(id, Backfill(r, orderId, p)), r, table)
  {
    if p.Some? {
      assert HasId(table, orderId);
    }
  }

  /** The record knows its order, or has found the position of it. */
  ghost predicate HasFound(r: Record, orderId: string, table: seq<Position>, p: Option<Position>, gate: int, now: int) {
    && r.Incomplete() && orderId != ""
    && (p.None? ==> !HasId(table, orderId)) && (p.Some? ==> p.value in table && p.value.id == orderId)
    && (r.brokerOrderId == orderId || (Seeks(r, gate, now) && p.Some? && Compatible(r.Metadata(), p.value)))
  }

  /** The row that recovery inserts for a record that knows or has found its order. */
  lemma InsertedForRecord(records: map<ExecId, Record>, rows: seq<Row>, id: ExecId, orderId: string,
                          table: seq<Position>, p: Option<Position>, gate: int, now: int)
    requires id in records && DistinctIds(table) && HasFound(records[id], orderId, table, p, gate, now)
    ensures WrittenFor(records, table, gate, now, Inserted(rows, Backfill(records[id], orderId, p)), |rows|)
  {
    BackfillTells(|rows| + 1, records[id], orderId, table, p);
  }

  /** At most one row is added, and it was written for a record. */
  ghost predicate WritesOne(records: map<ExecId, Record>, table: seq<Position>, gate: int, now: int, rows: seq<Row>,
                            rows': seq<Row>)
  {
    && rows <= rows' && |rows'| <= |rows| + 1
    && (|rows'| > |rows| ==> WrittenFor(records, table, gate, now, rows', |rows|))
  }

  lemma WrittenStays(records: map<ExecId, Record>, table: seq<Position>, gate: int, now: int, rows: seq<Row>,
                     rows': seq<Row>, k: nat)
    requires WrittenFor(records, table, gate, now, rows, k) && rows <= rows'
    ensures WrittenFor(records, table, gate, now, rows', k)
  {
    assert rows'[k] == rows[k];
  }

  /** A turn leaves the rows alone, or it inserts one for its record. */
  lemma TurnInserts(tr: seq<Pass>, records: map<ExecId, Record>, rows: seq<Row>, order: seq<ExecId>,
                    table: seq<Position>, gate: int, now: int, i: nat)
    returns (orderId: string, p: Option<Position>)
    requires ValidStore(records) && ValidRows(rows) && Trace(tr, records, rows, order, table, gate, now)
    requires i + 1 < |tr|
    ensures order[i] in records
    ensures tr[i + 1].rows == tr[i].rows
      || (tr[i + 1].rows == Inserted(tr[i].rows, Backfill(records[order[i]], orderId, p))
          && HasFound(records[order[i]], orderId, table, p, gate, now))
  {
    AtTurn(tr, records, rows, order, table, gate, now, i);
    var r, found := records[order[i]], FindMatch(table, tr[i].linked, records[order[i]].Metadata());
    orderId, p := r.brokerOrderId, None;
    if r.brokerOrderId != "" {
      p := Lookup(table, r.brokerOrderId);
    } else if found.Some? {
      assert HasId(table, found.value.id);
      orderId, p := found.value.id, found;
    }
  }

  /** A turn writes at most one row, for its record. */
  lemma TurnWrites(tr: seq<Pass>, records: map<ExecId, Record>, rows: seq<Row>, order: seq<ExecId>,
                   table: seq<Position>, gate: int, now: int, i: nat)
    requires ValidStore(records) && ValidRows(rows) && Trace(tr, records, rows, order, table, gate, now)
    requires 0 < i < |tr|
    ensures WritesOne(records, table, gate, now, tr[i - 1].rows, tr[i].rows)
  {
    var orderId, p := TurnInserts(tr, records, rows, order, table, gate, now, i - 1);
    if tr[i].rows != tr[i - 1].rows {
      InsertedForRecord(records, tr[i - 1].rows, order[i - 1], orderId, table, p, gate, now);
    }
  }

  lemma {:induction false} EveryRowHasItsRecord(tr: seq<Pass>, records: map<ExecId, Record>, rows: seq<Row>,
                                                order: seq<ExecId>, table: seq<Position>, gate: int, now: int, i: nat,
                                                k: nat)
    requires ValidStore(records) && ValidRows(rows) && Trace(tr, records, rows, order, table, gate, now)
    requires i < |tr| && |rows| <= k < |tr[i].rows|
    ensures WrittenFor(records, table, gate, now, tr[i].rows, k)
  {
    if i > 0 {
      TurnWrites(tr, records, rows, order, table, gate, now, i);
      if k < |tr[i - 1].rows| {
        EveryRowHasItsRecord(tr, records, rows, order, table, gate, now, i - 1, k);
        WrittenStays(records, table, gate, now, tr[i - 1].rows, tr[i].rows, k);
      }
    }
  }

  /** Every record that may get the order of `p` names the symbol of `p`. */
  ghost predicate NamesSymbol(records: map<ExecId, Record>, gate: int, now: int, p: Position) {
    forall id | id in records && Claims(records[id], gate, now, p) :: records[id].Metadata().symbol == p.symbol
  }

  ghost predicate NamesAnother(records: map<ExecId, Record>, gate: int, now: int, p: Position) {
    forall id | id in records && Claims(records[id], gate, now, p) :: records[id].Metadata().symbol != p.symbol
  }

  lemma SymbolOfRow(records: map<ExecId, Record>, table: seq<Position>, gate: int, now: int, rows: seq<Row>, k: nat,
                    p: Position)
    requires WrittenFor(records, table, gate, now, rows, k) && rows[k].orderId == p.id && Sees(table, p)
    ensures NamesSymbol(records, gate, now, p) ==> rows[k].symbol == p.symbol
    ensures NamesAnother(records, gate, now, p) ==> rows[k].symbol != p.symbol
  {
    var id :| id in records && records[id].Incomplete() && RowTells(rows[k], records[id], table)
      && (records[id].brokerOrderId == rows[k].orderId
          || (Seeks(records[id], gate, now)
              && exists q | q in table :: q.id == rows[k].orderId && Compatible(records[id].Metadata(), q)));
    assert Claims(records[id], gate, now, p);
  }

  /**
    What a pass does first to a record that claims the only open position: it writes a row with that record's symbol.
   */
  lemma ClaimTurn(s: Pass, id: ExecId, p: Position, gate: int, now: int) returns (t: Pass)
    requires id in s.records && Claims(s.records[id], gate, now, p) && p.id != "" && p.id !in s.linked
    ensures Turn(s, id, [p], gate, now, t)
    ensures |t.rows| == |s.rows| + 1 && s.rows <= t.rows
    ensures t.rows[|s.rows|].orderId == p.id && t.rows[|s.rows|].symbol == s.records[id].Metadata().symbol
  {
    var r := s.records[id];
    CompletionReachable(r.state);
    if r.brokerOrderId != "" {
      var r' := AdvanceExists(r, COMPLETED, now);
      t := Resolve(s, id, r', Inserted(s.rows, Backfill(r, p.id, Lookup([p], p.id))), p.id);
    } else {
      assert p in [p] && Fits(p, s.linked, r.Metadata());
      assert FindMatch([p], s.linked, r.Metadata()) == Some(p);
      var r' := AdvanceExists(r.(brokerOrderId := p.id, updatedAt := now), COMPLETED, now);
      t := Resolve(s, id, r', Inserted(s.rows, Backfill(r, p.id, Some(p))), p.id);
    }
  }

  /** A pass in which a record that claims `p` comes first. */
  lemma ClaimPass(records: map<ExecId, Record>, rows: seq<Row>, gate: int, now: int, p: Position, id: ExecId)
    returns (tr: seq<Pass>, order: seq<ExecId>)
    requires ValidStore(records) && id in records && Claims(records[id], gate, now, p) && p.id != ""
      && p.id !in OrderIds(rows)
    ensures Trace(tr, records, rows, order, [p], gate, now) && |tr| == 2
    ensures |tr[1].rows| == |rows| + 1 && rows <= tr[1].rows
    ensures tr[1].rows[|rows|].orderId == p.id && tr[1].rows[|rows|].symbol == records[id].Metadata().symbol
  {
    var t := ClaimTurn(Begin(records, rows), id, p, gate, now);
    order := PassTakingFirst(records, rows, [p], gate, now, id, t);
    tr := [Begin(records, rows), t];
  }

  /**
    Some point of some pass, over a table with `p` or without its id, has newly written row `k` for the order of `p`.
   */
  ghost predicate Writes(records: map<ExecId, Record>, rows: seq<Row>, gate: int, now: int, p: Position,
                         tr: seq<Pass>, order: seq<ExecId>, table: seq<Position>, i: nat, k: nat)
  {
    && Trace(tr, records, rows, order, table, gate, now) && Sees(table, p)
    && i < |tr| && |rows| <= k < |tr[i].rows| && tr[i].rows[k].orderId == p.id
  }

  /**
    Recovery only ever writes the right symbol for an order, on whatever table and in whatever order it takes the
    records, exactly when every record that may claim the order names it.
   */
  lemma SymbolIsExact(records: map<ExecId, Record>, rows: seq<Row>, gate: int, now: int, p: Position)
    requires ValidStore(records) && ValidRows(rows) && p.id != "" && p.id !in OrderIds(rows)
    ensures (forall tr: seq<Pass>, order, table, i: nat, k: nat |
               Writes(records, rows, gate, now, p, tr, order, table, i, k) :: tr[i].rows[k].symbol == p.symbol)
      <==> NamesSymbol(records, gate, now, p)
  {
    if NamesSymbol(records, gate, now, p) {
      forall tr: seq<Pass>, order, table, i: nat, k: nat | Writes(records, rows, gate, now, p, tr, order, table, i, k)
        ensures tr[i].rows[k].symbol == p.symbol
      {
        RecoveredSymbol(tr, records, rows, order, table, gate, now, i, p, k);
      }
    } else {
      var id :| id in records && Claims(records[id], gate, now, p) && records[id].Metadata().symbol != p.symbol;
      var tr, order := ClaimPass(records, rows, gate, now, p, id);
      assert Writes(records, rows, gate, now, p, tr, order, [p], 1, |rows|);
    }
  }

  lemma OnlyRow(rows: seq<Row>, rows': seq<Row>, orderId: string) returns (rowId: nat)
    requires rows <= rows' && OrderIdsUnique(rows') && orderId !in OrderIds(rows) && orderId in OrderIds(rows')
    ensures |rows| < rowId <= |rows'| && rows'[rowId - 1].orderId == orderId
    ensures forall k | 0 <= k < |rows'| && rows'[k].orderId == orderId :: k + 1 == rowId
  {
    var row :| row in rows' && row.orderId == orderId;
    var k :| 0 <= k < |rows'| && rows'[k] == row;
    forall j | 0 <= j < |rows| ensures rows[j].orderId != orderId {
      assert rows[j] in rows;
    }
    rowId := k + 1;
  }

  lemma RowsOfPass(tr: seq<Pass>, records: map<ExecId, Record>, rows: seq<Row>, order: seq<ExecId>,
                   table: seq<Position>, gate: int, now: int, i: nat)
    requires ValidStore(records) && ValidRows(rows) && OrderIdsUnique(rows)
    requires Trace(tr, records, rows, order, table, gate, now) && i < |tr|
    ensures ValidRows(tr[i].rows) && rows <= tr[i].rows && OrderIdsUnique(tr[i].rows)
  {
    TraceInv(tr, records, rows, order, table, gate, now, i);
  }

  /** The one row that a pass wrote for the order of `p`. */
  lemma RecoveredRow(tr: seq<Pass>, records: map<ExecId, Record>, rows: seq<Row>, order: seq<ExecId>,
                     table: seq<Position>, gate: int, now: int, i: nat, p: Position) returns (rowId: nat)
    requires ValidStore(records) && ValidRows(rows) && OrderIdsUnique(rows)
    requires Trace(tr, records, rows, order, table, gate, now) && i < |tr|
    requires p.id !in OrderIds(rows) && p.id in OrderIds(tr[i].rows)
    ensures ValidRows(tr[i].rows) && rows <= tr[i].rows && |rows| < rowId <= |tr[i].rows|
    ensures var row := tr[i].rows[rowId - 1]; row.status == OPEN && row.orderId == p.id != ""
    ensures forall k | 0 <= k < |tr[i].rows| && tr[i].rows[k].orderId == p.id :: k + 1 == rowId
  {
    RowsOfPass(tr, records, rows, order, table, gate, now, i);
    rowId := OnlyRow(rows, tr[i].rows, p.id);
    EveryRowHasItsRecord(tr, records, rows, order, table, gate, now, i, rowId - 1);
  }

  lemma RecoveredSymbol(tr: seq<Pass>, records: map<ExecId, Record>, rows: seq<Row>, order: seq<ExecId>,
                        table: seq<Position>, gate: int, now: int, i: nat, p: Position, k: nat)
    requires ValidStore(records) && ValidRows(rows) && Writes(records, rows, gate, now, p, tr, order, table, i, k)
    ensures NamesSymbol(records, gate, now, p) ==> tr[i].rows[k].symbol == p.symbol
    ensures NamesAnother(records, gate, now, p) ==> tr[i].rows[k].symbol != p.symbol
  {
    EveryRowHasItsRecord(tr, records, rows, order, table, gate, now, i, k);
    SymbolOfRow(records, table, gate, now, tr[i].rows, k, p);
  }

  lemma NewRowsKeepConsistent(rows: seq<Row>, rows': seq<Row>, last: seq<Position>, scores: seq<Closes.Score>)
    requires Closes.Consistent(Closes.Books(rows, last, scores)) && rows <= rows' && ValidRows(rows')
    requires forall k | |rows| <= k < |rows'| :: rows'[k].status == OPEN
    ensures Closes.Consistent(Closes.Books(rows', last, scores))
  {
    forall k | 0 <= k < |rows'|
      ensures rows'[k].status == CLOSED <==> Closes.Scored(scores, k + 1)
    {
      if k < |rows| {
        assert rows'[k] == rows[k];
      }
    }
  }

  lemma PassKeepsConsistent(tr: seq<Pass>, records: map<ExecId, Record>, rows: seq<Row>, order: seq<ExecId>,
                            table: seq<Position>, gate: int, now: int, i: nat, last: seq<Position>,
                            scores: seq<Closes.Score>)
    requires ValidStore(records) && Closes.Consistent(Closes.Books(rows, last, scores))
    requires Trace(tr, records, rows, order, table, gate, now) && i < |tr|
    ensures Closes.Consistent(Closes.Books(tr[i].rows, last, scores))
  {
    TraceInv(tr, records, rows, order, table, gate, now, i);
    forall k | |rows| <= k < |tr[i].rows| ensures tr[i].rows[k].status == OPEN {
      EveryRowHasItsRecord(tr, records, rows, order, table, gate, now, i, k);
    }
    NewRowsKeepConsistent(rows, tr[i].rows, last, scores);
  }

  /** The row that a pass wrote for the order of `p` is the one its close will find. */
  lemma RecoveredBelongs(tr: seq<Pass>, records: map<ExecId, Record>, rows: seq<Row>, order: seq<ExecId>,
                         table: seq<Position>, gate: int, now: int, i: nat, p: Position, last: seq<Position>,
                         scores: seq<Closes.Score>)
    returns (rowId: nat)
    requires ValidStore(records) && OrderIdsUnique(rows) && Closes.Consistent(Closes.Books(rows, last, scores))
    requires Trace(tr, records, rows, order, table, gate, now) && Sees(table, p) && i < |tr|
    requires p.id !in OrderIds(rows) && p.id in OrderIds(tr[i].rows) && NamesSymbol(records, gate, now, p)
    ensures var b := Closes.Books(tr[i].rows, last, scores);
      && Closes.Consistent(b) && Closes.BelongsTo(b, p, rowId) && |rows| < rowId
      && b.rows[rowId - 1].status != BLOCKED && b.rows[rowId - 1].orderId == p.id
  {
    rowId := RecoveredRow(tr, records, rows, order, table, gate, now, i, p);
    RecoveredSymbol(tr, records, rows, order, table, gate, now, i, p, rowId - 1);
    PassKeepsConsistent(tr, records, rows, order, table, gate, now, i, last, scores);
  }

  /**
    An order that a pass journals, finished or interrupted, is scored exactly once when its position vanishes, however
    many ticks fail before one gets through, if the records that may claim it name the position's symbol.
   */
  lemma RecoveredOrderIsScored(tr: seq<Pass>, records: map<ExecId, Record>, rows: seq<Row>, order: seq<ExecId>,
                               table: seq<Position>, gate: int, now: int, i: nat, p: Position,
                               last: seq<Position>, scores: seq<Closes.Score>, es: seq<Closes.Event>, t: Closes.Tick)
    returns (rowId: nat)
    requires ValidStore(records) && OrderIdsUnique(rows) && Closes.Consistent(Closes.Books(rows, last, scores))
    requires Trace(tr, records, rows, order, table, gate, now) && Sees(table, p) && i < |tr|
    requires p in last && DistinctIds(last) && p.id !in OrderIds(rows) && p.id in OrderIds(tr[i].rows)
    requires NamesSymbol(records, gate, now, p)
    requires var b := Closes.Books(tr[i].rows, last, scores);
      && Closes.SnapshotsDistinct(es) && Closes.Delays(b, es, p)
      && !Closes.IsListed(t.positions, p.id) && Closes.Ticked(Closes.HandledAll(b, es), t).1 == Closes.Through
    ensures var d := Closes.Ticked(Closes.HandledAll(Closes.Books(tr[i].rows, last, scores), es), t).0;
      && Closes.Consistent(d) && |rows| < rowId <= |d.rows| && d.rows[rowId - 1].orderId == p.id
      && d.rows[rowId - 1].status == CLOSED && Closes.Scored(d.scores, rowId)
  {
    rowId := RecoveredBelongs(tr, records, rows, order, table, gate, now, i, p, last, scores);
    Closes.VanishedPositionIsScored(Closes.Books(tr[i].rows, last, scores), es, t, p, rowId);
  }

  // ---- Without the symbol ----

  /** The row is the only one of its order, is open, and names another symbol than the position. */
  ghost predicate Mismatched(b: Closes.Books, p: Position, rowId: nat) {
    && ValidRows(b.rows) && 1 <= rowId <= |b.rows|
    && b.rows[rowId - 1].status == OPEN && b.rows[rowId - 1].orderId == p.id && b.rows[rowId - 1].symbol != p.symbol
    && forall k | 0 <= k < |b.rows| && b.rows[k].orderId == p.id :: k + 1 == rowId
  }

  ghost predicate KeepsSymbol(ps: seq<Position>, p: Position) {
    forall q | q in ps && q.id == p.id :: q.symbol == p.symbol
  }

  lemma TickSparesMismatch(b: Closes.Books, t: Closes.Tick, p: Position, rowId: nat)
    requires Mismatched(b, p, rowId) && KeepsSymbol(b.last, p)
    ensures Mismatched(Closes.Ticked(b, t).0, p, rowId)
  {
    var closed, open := Closes.ClosedPositions(b.last, t.positions), OpenRows(b.rows);
    Closes.ThroughMeansScored(b, t);
    if closed != [] && t.balance.Some? && t.balance.value > 0.0 {
      forall q, r | q in closed && r in open && Closes.Matches(q, r) ensures r.id != rowId {
        Closes.OpenRowsAreCurrent(b.rows, r);
      }
      Closes.WorkSparesRow(b, closed, open, t.balance.value, t, rowId);
    }
  }

  /** What keeps coming in about the order: its symbol in every snapshot, and no second row. */
  ghost predicate Leaves(es: seq<Closes.Event>, p: Position) {
    forall i | 0 <= i < |es| ::
      match es[i]
      case Process(t) => KeepsSymbol(t.positions, p)
      case Write(d) => d.orderId != p.id
  }

  lemma {:induction false} MismatchStaysOpen(b: Closes.Books, es: seq<Closes.Event>, p: Position, rowId: nat)
    requires Mismatched(b, p, rowId) && KeepsSymbol(b.last, p) && Leaves(es, p)
    ensures var c := Closes.HandledAll(b, es); Mismatched(c, p, rowId) && KeepsSymbol(c.last, p)
  {
    if es != [] {
      var n := |es| - 1;
      MismatchStaysOpen(b, es[..n], p, rowId);
      var c := Closes.HandledAll(b, es[..n]);
      match es[n]
      case Process(t) =>
        TickSparesMismatch(c, t, p, rowId);
        Closes.ThroughMeansScored(c, t);
      case Write(d) =>
    }
  }

  /**
    When the records that may claim the order name another symbol, or none, no run of ticks ever scores the recovered
    order.
   */
  lemma MismatchedOrderIsNeverScored(tr: seq<Pass>, records: map<ExecId, Record>, rows: seq<Row>, order: seq<ExecId>,
                                     table: seq<Position>, gate: int, now: int, i: nat, p: Position,
                                     last: seq<Position>, scores: seq<Closes.Score>, es: seq<Closes.Event>)
    returns (rowId: nat)
    requires ValidStore(records) && ValidRows(rows) && OrderIdsUnique(rows)
    requires Trace(tr, records, rows, order, table, gate, now) && Sees(table, p) && i < |tr|
    requires p.id !in OrderIds(rows) && p.id in OrderIds(tr[i].rows) && NamesAnother(records, gate, now, p)
    requires KeepsSymbol(last, p) && Leaves(es, p)
    ensures var c := Closes.HandledAll(Closes.Books(tr[i].rows, last, scores), es);
      && |rows| < rowId <= |c.rows| && c.rows[rowId - 1].orderId == p.id && c.rows[rowId - 1].status == OPEN
      && forall k | 0 <= k < |c.rows| && c.rows[k].orderId == p.id :: k + 1 == rowId
  {
    rowId := RecoveredRow(tr, records, rows, order, table, gate, now, i, p);
    RecoveredSymbol(tr, records, rows, order, table, gate, now, i, p, rowId - 1);
    MismatchStaysOpen(Closes.Books(tr[i].rows, last, scores), es, p, rowId);
  }

  // ---- Exactly when recovered orders are scored ----

  /** A pass journaled the order of `p`; some ticks failed and the position vanished before one got through. */
  ghost predicate Vanishes(records: map<ExecId, Record>, rows: seq<Row>, gate: int, now: int, p: Position,
                           last: seq<Position>, scores: seq<Closes.Score>, tr: seq<Pass>, order: seq<ExecId>,
                           table: seq<Position>, i: nat, es: seq<Closes.Event>, t: Closes.Tick)
  {
    && Trace(tr, records, rows, order, table, gate, now) && Sees(table, p) && i < |tr| && p.id in OrderIds(tr[i].rows)
    && var b := Closes.Books(tr[i].rows, last, scores);
       && Closes.SnapshotsDistinct(es) && Closes.Delays(b, es, p)
       && !Closes.IsListed(t.positions, p.id) && Closes.Ticked(Closes.HandledAll(b, es), t).1 == Closes.Through
  }

  /** The books after these events and this tick. */
  function After(b: Closes.Books, es: seq<Closes.Event>, t: Closes.Tick): Closes.Books {
    Closes.Ticked(Closes.HandledAll(b, es), t).0
  }

  /** A row for the order, written after the first `from`, is closed and scored. */
  ghost predicate OrderScored(d: Closes.Books, from: nat, orderId: string) {
    exists k | from <= k < |d.rows| ::
      d.rows[k].orderId == orderId && d.rows[k].status == CLOSED && Closes.Scored(d.scores, k + 1)
  }

  lemma {:induction false} CalmWorkGoesThrough(b: Closes.Books, closed: seq<Position>, open: seq<Row>)
    ensures Closes.Work(b, closed, open, 1.0, Closes.CalmTick()).1 == Closes.Through
    decreases |closed|
  {
    if closed != [] {
      var r := Closes.MatchTrade(closed[0], open);
      if r.None? {
        CalmWorkGoesThrough(b, closed[1..], open);
      } else {
        CalmWorkGoesThrough(Closes.Charged(b, closed[0], r.value, Closes.NoDeal, 1.0), closed[1..], open);
      }
    }
  }

  /**
    A record that claims the order and names another symbol can be taken first; then a tick without any failure does not
    score it.
   */
  lemma WrongSymbolIsNotScored(records: map<ExecId, Record>, rows: seq<Row>, gate: int, now: int, p: Position,
                               id: ExecId, last: seq<Position>, scores: seq<Closes.Score>)
    returns (tr: seq<Pass>, order: seq<ExecId>)
    requires ValidStore(records) && ValidRows(rows) && OrderIdsUnique(rows) && p in last && DistinctIds(last)
    requires p.id != "" && p.id !in OrderIds(rows)
    requires id in records && Claims(records[id], gate, now, p) && records[id].Metadata().symbol != p.symbol
    ensures Vanishes(records, rows, gate, now, p, last, scores, tr, order, [p], 1, [], Closes.CalmTick())
    ensures !OrderScored(Closes.Ticked(Closes.Books(tr[1].rows, last, scores), Closes.CalmTick()).0, |rows|, p.id)
  {
    tr, order := ClaimPass(records, rows, gate, now, p, id);
    assert tr[1].rows[|rows|] in tr[1].rows;
    CalmTickGoesThrough(Closes.Books(tr[1].rows, last, scores));
    var rowId := RecoveredRow(tr, records, rows, order, [p], gate, now, 1, p);
    MismatchIsNotScored(Closes.Books(tr[1].rows, last, scores), Closes.CalmTick(), p, rowId);
  }

  lemma CalmTickGoesThrough(b: Closes.Books)
    ensures Closes.Ticked(b, Closes.CalmTick()).1 == Closes.Through
  {
    CalmWorkGoesThrough(b, Closes.ClosedPositions(b.last, []), OpenRows(b.rows));
  }

  lemma MismatchIsNotScored(b: Closes.Books, t: Closes.Tick, p: Position, rowId: nat)
    requires Mismatched(b, p, rowId) && p in b.last && DistinctIds(b.last)
    ensures forall from: nat :: !OrderScored(Closes.Ticked(b, t).0, from, p.id)
  {
    TickSparesMismatch(b, t, p, rowId);
  }

  /**
    Every order that recovery journals ends up scored once its position vanishes, whatever the pass and the ticks
    were like, exactly when every record that may claim the order names its symbol.
   */
  lemma ScoringIsExact(records: map<ExecId, Record>, rows: seq<Row>, gate: int, now: int, p: Position,
                       last: seq<Position>, scores: seq<Closes.Score>)
    requires ValidStore(records) && OrderIdsUnique(rows) && Closes.Consistent(Closes.Books(rows, last, scores))
    requires p in last && DistinctIds(last) && p.id != "" && p.id !in OrderIds(rows)
    ensures (forall tr: seq<Pass>, order, table, i: nat, es, t |
               Vanishes(records, rows, gate, now, p, last, scores, tr, order, table, i, es, t) ::
                 OrderScored(After(Closes.Books(tr[i].rows, last, scores), es, t), |rows|, p.id))
      <==> NamesSymbol(records, gate, now, p)
  {
    if NamesSymbol(records, gate, now, p) {
      forall tr: seq<Pass>, order, table, i: nat, es, t |
        Vanishes(records, rows, gate, now, p, last, scores, tr, order, table, i, es, t)
        ensures OrderScored(After(Closes.Books(tr[i].rows, last, scores), es, t), |rows|, p.id)
      {
        var rowId := RecoveredOrderIsScored(tr, records, rows, order, table, gate, now, i, p, last, scores, es, t);
        assert rowId - 1 + 1 == rowId;
      }
    } else {
      var id :| id in records && Claims(records[id], gate, now, p) && records[id].Metadata().symbol != p.symbol;
      var tr, order := WrongSymbolIsNotScored(records, rows, gate, now, p, id, last, scores);
      assert Closes.HandledAll(Closes.Books(tr[1].rows, last, scores), []) == Closes.Books(tr[1].rows, last, scores);
    }
  }
}
