/** The trade journal: one row for each signal that reached execution, closed with its outcome. */
module TradeJournal {
  import opened Wrappers

  datatype Status = OPEN | CLOSED | BLOCKED

  /** What happened to the order behind a row when the row was written. */
  datatype Execution = Opened | Shadowed | NotExecuted

  datatype Close = Close(price: real, profit: real, rMultiple: real)

  datatype Row = Row(
    id: nat, strategy: string, symbol: string, direction: string, entryPrice: real, riskPct: real,
    size: int, orderId: string, status: Status, close: Option<Close>)

  /** The fields of a row that its writer supplies. */
  datatype Draft = Draft(
    strategy: string, symbol: string, action: string, entryPrice: real, riskPct: real, size: int,
    orderId: string, execution: Execution)

  function NewRow(id: nat, d: Draft): Row {
    Row(id, d.strategy, d.symbol,
        if d.action == "BUY" then "long" else if d.action == "SELL" then "short" else d.action,
        d.entryPrice, d.riskPct, d.size, d.orderId,
        if d.execution.NotExecuted? then BLOCKED else OPEN, None)
  }

  /** Row ids count up from one, and no row is ever deleted. */
  ghost predicate ValidRows(rows: seq<Row>) {
    forall i | 0 <= i < |rows| :: rows[i].id == i + 1
  }

  function Inserted(rows: seq<Row>, d: Draft): seq<Row> {
    rows + [NewRow(|rows| + 1, d)]
  }

  function Closed(row: Row, c: Close): Row {
    row.(status := CLOSED, close := Some(c))
  }

  /** The table after closing the row with this id; nothing happens when there is none. */
  function Updated(rows: seq<Row>, id: nat, c: Close): seq<Row> {
    if 1 <= id <= |rows| then rows[id - 1 := Closed(rows[id - 1], c)] else rows
  }

  function OpenRows(rows: seq<Row>): (open: seq<Row>)
    ensures forall r :: r in open <==> r in rows && r.status == OPEN
  {
    if rows == [] then []
    else if rows[0].status == OPEN then [rows[0]] + OpenRows(rows[1..])
    else OpenRows(rows[1..])
  }

  /** All non-empty broker order ids ever journaled, whatever the status of their row. */
  function OrderIds(rows: seq<Row>): set<string> {
    set r | r in rows && r.orderId != "" :: r.orderId
  }

  /** No two rows carry the same broker order id; closing a position finds its row by that id. */
  ghost predicate OrderIdsUnique(rows: seq<Row>) {
    forall i, j | 0 <= i < j < |rows| && rows[i].orderId != "" :: rows[i].orderId != rows[j].orderId
  }

  lemma InsertedOrderIds(rows: seq<Row>, d: Draft)
    ensures OrderIds(Inserted(rows, d)) == OrderIds(rows) + if d.orderId == "" then {} else {d.orderId}
    ensures OrderIdsUnique(Inserted(rows, d)) <==> OrderIdsUnique(rows) && d.orderId !in OrderIds(rows)
  {
    var row, rows' := NewRow(|rows| + 1, d), Inserted(rows, d);
    assert row in rows';
    forall r | r in rows ensures r in rows' { }
    if OrderIdsUnique(rows') {
      forall i | 0 <= i < |rows| && rows[i].orderId != "" ensures rows[i].orderId != d.orderId {
        assert rows'[i] == rows[i] && rows'[|rows|] == row;
      }
      forall i, j | 0 <= i < j < |rows| && rows[i].orderId != "" ensures rows[i].orderId != rows[j].orderId {
        assert rows'[i] == rows[i] && rows'[j] == rows[j];
      }
    }
  }

  class TradeJournalDB {
    var rows: seq<Row>

    constructor ()
      ensures rows == []
    {
      rows := [];
    }

    method RecordSignal(d: Draft) returns (id: nat)
      requires ValidRows(rows)
      modifies this
      ensures ValidRows(rows) && rows == Inserted(old(rows), d) && id == |rows|
      ensures old(rows) <= rows && |rows| == |old(rows)| + 1
      ensures var row := rows[|old(rows)|];
        && row.id == |rows| && row.close == None && (row.status == BLOCKED <==> d.execution == NotExecuted)
        && row.status != CLOSED && row.strategy == d.strategy && row.symbol == d.symbol
        && row.entryPrice == d.entryPrice && row.riskPct == d.riskPct && row.size == d.size && row.orderId == d.orderId
        && (d.action == "BUY" ==> row.direction == "long") && (d.action == "SELL" ==> row.direction == "short")
        && (d.action !in {"BUY", "SELL"} ==> row.direction == d.action)
    {
      rows := rows + [NewRow(|rows| + 1, d)];
      id := |rows|;
    }

    method UpdateClose(id: nat, c: Close)
      requires ValidRows(rows)
      modifies this
      ensures ValidRows(rows) && rows == Updated(old(rows), id, c)
      ensures |rows| == |old(rows)| && forall k | 0 <= k < |rows| && k + 1 != id :: rows[k] == old(rows)[k]
      ensures 1 <= id <= |rows| ==>
        && rows[id - 1].status == CLOSED && rows[id - 1].close == Some(c)
        && rows[id - 1].(status := old(rows)[id - 1].status, close := old(rows)[id - 1].close) == old(rows)[id - 1]
    {
      if 1 <= id <= |rows| {
        rows := rows[id - 1 := Closed(rows[id - 1], c)];
      }
    }

    method GetOpenTrades() returns (open: seq<Row>)
      ensures open == OpenRows(rows)
    {
      open := [];
      var i := |rows|;
      while i > 0
        invariant 0 <= i <= |rows| && open == OpenRows(rows[i..])
      {
        i := i - 1;
        assert rows[i..] == [rows[i]] + rows[i + 1..];
        if rows[i].status == OPEN {
          open := [rows[i]] + open;
        }
      }
      assert rows[0..] == rows;
    }

    method GetBrokerOrderIds() returns (ids: set<string>)
      ensures ids == OrderIds(rows)
    {
      ids := {};
      var i := 0;
      while i < |rows|
        invariant 0 <= i <= |rows| && ids == OrderIds(rows[..i])
      {
        assert rows[..i + 1] == rows[..i] + [rows[i]];
        if rows[i].orderId != "" {
          ids := ids + {rows[i].orderId};
        }
        i := i + 1;
      }
      assert rows[..i] == rows;
    }
  }

  // ---- Drawdown ----

  /** Equity after the first `n` returns; it starts at zero. */
  function Equity(rs: seq<real>, n: nat): real
    requires n <= |rs|
  {
    if n == 0 then 0.0 else Equity(rs, n - 1) + rs[n - 1]
  }

  /** How far the equity fell from moment `i` to moment `j`. */
  function Fall(rs: seq<real>, i: nat, j: nat): real
    requires i <= |rs| && j <= |rs|
  {
    Equity(rs, i) - Equity(rs, j)
  }

  /** `d` is the largest fall between two moments among the first `n`, in order. */
  ghost predicate LargestFall(rs: seq<real>, n: nat, d: real) {
    && n <= |rs|
    && (exists i, j | 0 <= i <= j <= n :: d == Fall(rs, i, j))
    && forall i, j | 0 <= i <= j <= n :: Fall(rs, i, j) <= d
  }

  ghost predicate HighestEquity(rs: seq<real>, n: nat, peak: real) {
    && n <= |rs|
    && (exists i | 0 <= i <= n :: Equity(rs, i) == peak)
    && forall i | 0 <= i <= n :: Equity(rs, i) <= peak
  }

  /** One more return either deepens the drawdown to the distance from the peak or leaves it. */
  lemma FallStep(rs: seq<real>, n: nat, peak: real, d: real)
    requires 0 < n <= |rs| && LargestFall(rs, n - 1, d) && HighestEquity(rs, n, peak)
    ensures LargestFall(rs, n, if peak - Equity(rs, n) > d then peak - Equity(rs, n) else d)
  {
    var deepest := if peak - Equity(rs, n) > d then peak - Equity(rs, n) else d;
    if deepest == d {
      var i, j :| 0 <= i <= j <= n - 1 && d == Fall(rs, i, j);
      assert j <= n && deepest == Fall(rs, i, j);
    } else {
      var top :| 0 <= top <= n && Equity(rs, top) == peak;
      assert deepest == Fall(rs, top, n);
    }
    forall i, j | 0 <= i <= j <= n ensures Fall(rs, i, j) <= deepest {
      if j == n {
        assert Equity(rs, i) <= peak;
      } else {
        assert Fall(rs, i, j) <= d;
      }
    }
  }

  /** The largest fall of the equity from any moment to any later one, found in one pass. */
  method MaxDrawdown(rs: seq<real>) returns (d: real)
    ensures LargestFall(rs, |rs|, d)
  {
    var equity, peak, worst := 0.0, 0.0, 0.0;
    var n := 0;
    assert Fall(rs, 0, 0) == 0.0 && Equity(rs, 0) == 0.0;
    while n < |rs|
      invariant 0 <= n <= |rs| && equity == Equity(rs, n) && worst <= 0.0
      invariant HighestEquity(rs, n, peak) && LargestFall(rs, n, -worst)
    {
      equity := equity + rs[n];
      n := n + 1;
      assert equity == Equity(rs, n);
      peak := if equity > peak then equity else peak;
      FallStep(rs, n, peak, -worst);
      worst := if equity - peak < worst then equity - peak else worst;
    }
    d := if worst < 0.0 then -worst else worst;
  }
}
