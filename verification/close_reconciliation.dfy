/**
  Scoring the positions that closed since the last tick. The balance, the closing deals and the
  alerts of a tick may fail at any place; the snapshot of open positions only advances when the
  tick got through, so what was not scored is seen again.
 */
module CloseReconciliation {
  import opened Wrappers
  import opened Positions
  import opened TradeJournal
  import DemoRisk
  import PortfolioManagement
  import CircuitBreaking

  /** What asking the broker for the closing deal of a position gives. */
  datatype Lookup = LookupFailed | NoDeal | Deal(profit: Option<real>, price: Option<real>)

  /** Everything a tick learns from outside. */
  datatype Tick = Tick(positions: seq<Position>, balance: Option<real>, deals: string -> Lookup,
                       alertSent: string -> bool)

  /** One scored close: which row it closed, and what the risk guard, the portfolio and the breaker were told. */
  datatype Score = Score(rowId: nat, symbol: string, strategy: string, outcome: DemoRisk.Outcome, pnl: real)

  datatype Books = Books(rows: seq<Row>, last: seq<Position>, scores: seq<Score>)

  datatype Ending = Through | Deferred | Interrupted

  /** The positions of the last snapshot whose id is no longer open. */
  function ClosedPositions(last: seq<Position>, current: seq<Position>): (closed: seq<Position>)
    ensures forall p :: p in closed <==> p in last && p.id != "" && !IsListed(current, p.id)
    ensures |closed| <= |last|
  {
    if last == [] then []
    else if last[0].id != "" && !IsListed(current, last[0].id) then [last[0]] + ClosedPositions(last[1..], current)
    else ClosedPositions(last[1..], current)
  }

  predicate IsListed(ps: seq<Position>, id: string) {
    exists p | p in ps :: p.id == id
  }

  predicate Matches(p: Position, r: Row) {
    p.id != "" && r.orderId == p.id && r.symbol == p.symbol
  }

  /** The first open row that carries the id and the symbol of the position. */
  function MatchTrade(p: Position, open: seq<Row>): (r: Option<Row>)
    ensures r.Some? ==> r.value in open && Matches(p, r.value)
    ensures r.None? <==> forall t | t in open :: !Matches(p, t)
  {
    if open == [] then None
    else if Matches(p, open[0]) then Some(open[0])
    else
      assert open == [open[0]] + open[1..];
      MatchTrade(p, open[1..])
  }

  function ProfitOf(p: Position, d: Lookup): real {
    if d.Deal? && d.profit.Some? then d.profit.value else p.profit
  }

  function PriceOf(p: Position, d: Lookup, r: Row): real {
    if d.Deal? && d.price.Some? then d.price.value
    else if p.currentPrice.Some? then p.currentPrice.value
    else r.entryPrice
  }

  function OutcomeOf(profit: real): DemoRisk.Outcome {
    if profit > 0.0 then DemoRisk.WIN else if profit < 0.0 then DemoRisk.LOSS else DemoRisk.BREAKEVEN
  }

  /** The books once the close of `p` has been charged to row `r`. */
  function Charged(b: Books, p: Position, r: Row, d: Lookup, balance: real): Books
    requires balance > 0.0
  {
    var profit := ProfitOf(p, d);
    var pnl := profit / balance;
    var close := Close(PriceOf(p, d, r), profit, if r.riskPct != 0.0 then pnl / r.riskPct else 0.0);
    b.(rows := Updated(b.rows, r.id, close),
       scores := b.scores
         + [Score(r.id, if p.symbol != "" then p.symbol else r.symbol, r.strategy, OutcomeOf(profit), pnl)])
  }

  /** The loop over the closed positions, with the open rows as they were when the tick began. */
  function Work(b: Books, closed: seq<Position>, open: seq<Row>, balance: real, t: Tick): (Books, Ending)
    requires balance > 0.0
    decreases |closed|
  {
    if closed == [] then (b.(last := t.positions), Through)
    else
      var p := closed[0];
      var r := MatchTrade(p, open);
      if r.None? then
        if t.alertSent(p.id) then Work(b, closed[1..], open, balance, t) else (b, Interrupted)
      else if t.deals(p.id).LookupFailed? then (b, Deferred)
      else
        var b' := Charged(b, p, r.value, t.deals(p.id), balance);
        if t.alertSent(p.id) then Work(b', closed[1..], open, balance, t) else (b', Interrupted)
  }

  /** One tick. */
  function Ticked(b: Books, t: Tick): (Books, Ending) {
    var closed := ClosedPositions(b.last, t.positions);
    if closed == [] then (b.(last := t.positions), Through)
    else if t.balance.None? || t.balance.value <= 0.0 then (b, Deferred)
    else Work(b, closed, OpenRows(b.rows), t.balance.value, t)
  }

  // ---- Exactly once ----

  /**
    A score agrees with the row it closed: same strategy, the outcome and the sign of the journaled profit,
    and the journaled multiple of the risked fraction.
   */
  ghost predicate Tells(s: Score, rows: seq<Row>) {
    && 1 <= s.rowId <= |rows|
    && var r := rows[s.rowId - 1];
       && r.close.Some? && r.strategy == s.strategy && OutcomeOf(r.close.value.profit) == s.outcome == OutcomeOf(s.pnl)
       && (r.riskPct != 0.0 ==> r.close.value.rMultiple * r.riskPct == s.pnl)
  }

  ghost predicate AllTell(b: Books) {
    forall i | 0 <= i < |b.scores| :: Tells(b.scores[i], b.rows)
  }

  ghost predicate Scored(scores: seq<Score>, rowId: nat) {
    exists i | 0 <= i < |scores| :: scores[i].rowId == rowId
  }

  /** A row is closed exactly when it has been scored, and no row is scored twice. */
  ghost predicate Consistent(b: Books) {
    && ValidRows(b.rows)
    && (forall i | 0 <= i < |b.scores| :: 1 <= b.scores[i].rowId <= |b.rows|)
    && (forall i, j | 0 <= i < j < |b.scores| :: b.scores[i].rowId != b.scores[j].rowId)
    && (forall k | 0 <= k < |b.rows| :: b.rows[k].status == CLOSED <==> Scored(b.scores, k + 1))
  }

  /** No two of these positions fit the same open row. */
  ghost predicate Unambiguous(ps: seq<Position>, open: seq<Row>) {
    forall i, j, r | 0 <= i < j < |ps| && r in open && Matches(ps[i], r) :: !Matches(ps[j], r)
  }

  /** The rows that the remaining positions fit are still as they were when the tick began. */
  ghost predicate StillOpen(b: Books, closed: seq<Position>, open: seq<Row>) {
    forall p, r | p in closed && r in open && Matches(p, r) ::
      1 <= r.id <= |b.rows| && b.rows[r.id - 1] == r && r.status == OPEN
  }

  lemma ScoredWithOneMore(scores: seq<Score>, s: Score, rowId: nat)
    ensures Scored(scores + [s], rowId) <==> Scored(scores, rowId) || s.rowId == rowId
  {
    var all := scores + [s];
    assert all[|scores|] == s;
    if i :| 0 <= i < |scores| && scores[i].rowId == rowId {
      assert all[i].rowId == rowId;
    }
  }

  lemma ChargeKeepsConsistent(b: Books, p: Position, r: Row, d: Lookup, balance: real)
    requires balance > 0.0 && Consistent(b)
    requires 1 <= r.id <= |b.rows| && b.rows[r.id - 1] == r && r.status == OPEN
    ensures Consistent(Charged(b, p, r, d, balance))
  {
    var b' := Charged(b, p, r, d, balance);
    ClosedMeansScored(b, r.id);
    forall k | 0 <= k < |b'.rows| ensures b'.rows[k].status == CLOSED <==> Scored(b'.scores, k + 1) {
      ScoredWithOneMore(b.scores, b'.scores[|b.scores|], k + 1);
    }
  }

  lemma ChargeTells(b: Books, p: Position, r: Row, d: Lookup, balance: real)
    requires balance > 0.0 && 1 <= r.id <= |b.rows| && b.rows[r.id - 1] == r
    ensures Tells(Charged(b, p, r, d, balance).scores[|b.scores|], Charged(b, p, r, d, balance).rows)
  {
    var profit := ProfitOf(p, d);
    assert profit == (profit / balance) * balance;
    assert OutcomeOf(profit / balance) == OutcomeOf(profit);
  }

  lemma TellsOfOtherRow(s: Score, rows: seq<Row>, id: nat, c: Close)
    requires Tells(s, rows) && s.rowId != id
    ensures Tells(s, Updated(rows, id, c))
  {
  }

  lemma OpenIsUnscored(b: Books, rowId: nat, i: nat)
    requires Consistent(b) && 1 <= rowId <= |b.rows| && b.rows[rowId - 1].status == OPEN && i < |b.scores|
    ensures b.scores[i].rowId != rowId
  {
    ClosedMeansScored(b, rowId);
  }

  lemma ChargeKeepsTelling(b: Books, p: Position, r: Row, d: Lookup, balance: real)
    requires balance > 0.0 && Consistent(b)
    requires 1 <= r.id <= |b.rows| && b.rows[r.id - 1] == r && r.status == OPEN
    ensures AllTell(b) ==> AllTell(Charged(b, p, r, d, balance))
  {
    if AllTell(b) {
      var b' := Charged(b, p, r, d, balance);
      ChargeTells(b, p, r, d, balance);
      forall i | 0 <= i < |b.scores| ensures Tells(b.scores[i], b'.rows) {
        OpenIsUnscored(b, r.id, i);
        TellsOfOtherRow(b.scores[i], b.rows, r.id, b'.rows[r.id - 1].close.value);
      }
      assert b'.scores == b.scores + [b'.scores[|b.scores|]];
    }
  }

  lemma ChargeKeepsOthersOpen(b: Books, closed: seq<Position>, open: seq<Row>, r: Row, d: Lookup, balance: real)
    requires balance > 0.0 && closed != [] && Unambiguous(closed, open) && StillOpen(b, closed, open)
    requires r in open && Matches(closed[0], r)
    ensures StillOpen(Charged(b, closed[0], r, d, balance), closed[1..], open)
  {
    forall p, q | p in closed[1..] && q in open && Matches(p, q)
      ensures q.id != r.id && 1 <= q.id <= |b.rows| && b.rows[q.id - 1] == q && q.status == OPEN
    {
      var j :| 1 <= j < |closed| && closed[j] == p;
      assert !Matches(closed[j], r);
      assert closed[0] in closed && p in closed;
    }
  }

  lemma {:induction false} WorkKeepsConsistent(b: Books, closed: seq<Position>, open: seq<Row>, balance: real, t: Tick)
    requires balance > 0.0 && Consistent(b) && Unambiguous(closed, open) && StillOpen(b, closed, open)
    ensures Consistent(Work(b, closed, open, balance, t).0)
    ensures AllTell(b) ==> AllTell(Work(b, closed, open, balance, t).0)
    decreases |closed|
  {
    if closed != [] {
      var p, rest := closed[0], closed[1..];
      var r := MatchTrade(p, open);
      assert Unambiguous(rest, open);
      if r.None? {
        WorkKeepsConsistent(b, rest, open, balance, t);
      } else if !t.deals(p.id).LookupFailed? {
        assert p in closed;
        ChargeKeepsConsistent(b, p, r.value, t.deals(p.id), balance);
        ChargeKeepsTelling(b, p, r.value, t.deals(p.id), balance);
        ChargeKeepsOthersOpen(b, closed, open, r.value, t.deals(p.id), balance);
        WorkKeepsConsistent(Charged(b, p, r.value, t.deals(p.id), balance), rest, open, balance, t);
      }
    }
  }

  lemma {:induction false} ClosedKeepsUnambiguous(last: seq<Position>, current: seq<Position>, open: seq<Row>)
    requires Unambiguous(last, open)
    ensures Unambiguous(ClosedPositions(last, current), open)
  {
    if last != [] {
      assert Unambiguous(last[1..], open);
      ClosedKeepsUnambiguous(last[1..], current, open);
      var rest := ClosedPositions(last[1..], current);
      forall j, r | 0 <= j < |rest| && r in open && Matches(last[0], r) ensures !Matches(rest[j], r) {
        assert rest[j] in last[1..];
        var i :| 1 <= i < |last| && last[i] == rest[j];
      }
    }
  }

  lemma OpenRowsAreCurrent(rows: seq<Row>, r: Row)
    requires ValidRows(rows) && r in OpenRows(rows)
    ensures 1 <= r.id <= |rows| && rows[r.id - 1] == r && r.status == OPEN
  {
    var i :| 0 <= i < |rows| && rows[i] == r;
  }

  /** A tick keeps the books consistent, wherever it fails, while no two snapshot positions fit one open row. */
  lemma TickKeepsConsistent(b: Books, t: Tick)
    requires Consistent(b) && Unambiguous(b.last, OpenRows(b.rows))
    ensures Consistent(Ticked(b, t).0)
    ensures AllTell(b) ==> AllTell(Ticked(b, t).0)
  {
    var closed := ClosedPositions(b.last, t.positions);
    if closed != [] && t.balance.Some? && t.balance.value > 0.0 {
      ClosedKeepsUnambiguous(b.last, t.positions, OpenRows(b.rows));
      forall r | r in OpenRows(b.rows)
        ensures 1 <= r.id <= |b.rows| && b.rows[r.id - 1] == r && r.status == OPEN
      {
        OpenRowsAreCurrent(b.rows, r);
      }
      WorkKeepsConsistent(b, closed, OpenRows(b.rows), t.balance.value, t);
    }
  }

  // ---- When a tick got through ----

  /** The books only move forward: scores are added, and rows change only by being closed. */
  ghost predicate Onward(b: Books, b': Books) {
    && b.scores <= b'.scores && |b'.rows| == |b.rows|
    && forall k | 0 <= k < |b.rows| ::
      && b'.rows[k].(status := b.rows[k].status, close := b.rows[k].close) == b.rows[k]
      && (b'.rows[k] == b.rows[k] || b'.rows[k].status == CLOSED)
  }

  lemma {:induction false} WorkIsOnward(b: Books, closed: seq<Position>, open: seq<Row>, balance: real, t: Tick)
    requires balance > 0.0
    ensures Onward(b, Work(b, closed, open, balance, t).0)
    ensures Work(b, closed, open, balance, t).1 != Through ==> Work(b, closed, open, balance, t).0.last == b.last
    decreases |closed|
  {
    if closed != [] {
      var p := closed[0];
      var r := MatchTrade(p, open);
      if r.None? {
        WorkIsOnward(b, closed[1..], open, balance, t);
      } else if !t.deals(p.id).LookupFailed? {
        WorkIsOnward(Charged(b, p, r.value, t.deals(p.id), balance), closed[1..], open, balance, t);
      }
    }
  }

  /** When the loop got through, every row that a closed position fits first has been scored in it. */
  lemma {:induction false} WorkScores(b: Books, closed: seq<Position>, open: seq<Row>, balance: real, t: Tick,
                                      p: Position)
    requires balance > 0.0 && p in closed && MatchTrade(p, open).Some?
    requires Work(b, closed, open, balance, t).1 == Through
    ensures var b' := Work(b, closed, open, balance, t).0;
      |b.scores| <= |b'.scores| && Scored(b'.scores[|b.scores|..], MatchTrade(p, open).value.id)
    decreases |closed|
  {
    var q, rest := closed[0], closed[1..];
    var r := MatchTrade(q, open);
    if r.None? {
      WorkScores(b, rest, open, balance, t, p);
    } else {
      var b1 := Charged(b, q, r.value, t.deals(q.id), balance);
      var b' := Work(b1, rest, open, balance, t).0;
      WorkIsOnward(b1, rest, open, balance, t);
      if q == p {
        assert b'.scores[|b.scores|..][0] == b1.scores[|b.scores|];
      } else {
        WorkScores(b1, rest, open, balance, t, p);
        var i :| 0 <= i < |b'.scores[|b1.scores|..]|
          && b'.scores[|b1.scores|..][i].rowId == MatchTrade(p, open).value.id;
        assert b'.scores[|b.scores|..][i + 1] == b'.scores[|b1.scores|..][i];
      }
    }
  }

  /** A tick that gets through scores every closed position that has an open row; any other keeps the snapshot. */
  lemma ThroughMeansScored(b: Books, t: Tick)
    ensures var (b', ending) := Ticked(b, t);
      && Onward(b, b')
      && (ending != Through ==> b'.last == b.last)
      && (ending == Through ==> b'.last == t.positions)
      && (ending == Through ==>
            forall p | p in ClosedPositions(b.last, t.positions) && MatchTrade(p, OpenRows(b.rows)).Some? ::
            Scored(b'.scores[|b.scores|..], MatchTrade(p, OpenRows(b.rows)).value.id))
  {
    var closed, open := ClosedPositions(b.last, t.positions), OpenRows(b.rows);
    if closed != [] && t.balance.Some? && t.balance.value > 0.0 {
      WorkIsOnward(b, closed, open, t.balance.value, t);
      WorkLast(b, closed, open, t.balance.value, t);
      forall p | p in closed && MatchTrade(p, open).Some? && Ticked(b, t).1 == Through
        ensures Scored(Ticked(b, t).0.scores[|b.scores|..], MatchTrade(p, open).value.id)
      {
        WorkScores(b, closed, open, t.balance.value, t, p);
      }
    }
  }

  lemma {:induction false} WorkLast(b: Books, closed: seq<Position>, open: seq<Row>, balance: real, t: Tick)
    requires balance > 0.0
    ensures Work(b, closed, open, balance, t).1 == Through ==> Work(b, closed, open, balance, t).0.last == t.positions
    decreases |closed|
  {
    if closed != [] {
      var p := closed[0];
      var r := MatchTrade(p, open);
      if r.None? {
        WorkLast(b, closed[1..], open, balance, t);
      } else if !t.deals(p.id).LookupFailed? {
        WorkLast(Charged(b, p, r.value, t.deals(p.id), balance), closed[1..], open, balance, t);
      }
    }
  }

  /** A row that no remaining position fits stays as it is. */
  lemma {:induction false} WorkSparesRow(b: Books, closed: seq<Position>, open: seq<Row>, balance: real, t: Tick,
                                         rowId: nat)
    requires balance > 0.0 && 1 <= rowId <= |b.rows|
    requires forall q, r | q in closed && r in open && Matches(q, r) :: r.id != rowId
    ensures var b' := Work(b, closed, open, balance, t).0;
      |b'.rows| == |b.rows| && b'.rows[rowId - 1] == b.rows[rowId - 1]
    decreases |closed|
  {
    if closed != [] {
      var q, rest := closed[0], closed[1..];
      var r := MatchTrade(q, open);
      assert q in closed;
      if r.None? {
        WorkSparesRow(b, rest, open, balance, t, rowId);
      } else if !t.deals(q.id).LookupFailed? {
        WorkSparesRow(Charged(b, q, r.value, t.deals(q.id), balance), rest, open, balance, t, rowId);
      }
    }
  }

  // ---- Over whole runs ----

  /** Between ticks the runtime and recovery write rows. */
  datatype Event = Process(tick: Tick) | Write(draft: Draft)

  function Handled(b: Books, e: Event): Books {
    match e
    case Process(t) => Ticked(b, t).0
    case Write(d) => b.(rows := Inserted(b.rows, d))
  }

  function HandledAll(b: Books, es: seq<Event>): Books {
    if es == [] then b else Handled(HandledAll(b, es[..|es| - 1]), es[|es| - 1])
  }

  ghost predicate SnapshotsDistinct(es: seq<Event>) {
    forall i | 0 <= i < |es| && es[i].Process? :: DistinctIds(es[i].tick.positions)
  }

  lemma DistinctIsUnambiguous(ps: seq<Position>, open: seq<Row>)
    requires DistinctIds(ps)
    ensures Unambiguous(ps, open)
  {
  }

  lemma WriteKeepsConsistent(b: Books, d: Draft)
    requires Consistent(b)
    ensures Consistent(b.(rows := Inserted(b.rows, d)))
  {
    var rows' := Inserted(b.rows, d);
    forall k | 0 <= k < |rows'|
      ensures rows'[k].status == CLOSED <==> Scored(b.scores, k + 1)
    {
      if k < |b.rows| {
        assert rows'[k] == b.rows[k];
      }
    }
  }

  lemma WriteKeepsTelling(b: Books, d: Draft)
    ensures AllTell(b) ==> AllTell(b.(rows := Inserted(b.rows, d)))
  {
    forall i | 0 <= i < |b.scores| && AllTell(b) ensures Tells(b.scores[i], Inserted(b.rows, d)) {
      assert Tells(b.scores[i], b.rows);
    }
  }

  /**
    Over every run of ticks, failed ones included, and of journal writes, each row is scored at most once,
    and exactly when it is closed, and every score agrees with its row, as long as no snapshot lists an id twice.
   */
  lemma {:induction false} ScoredExactlyOnce(b: Books, es: seq<Event>)
    requires Consistent(b) && DistinctIds(b.last) && SnapshotsDistinct(es)
    ensures Consistent(HandledAll(b, es)) && DistinctIds(HandledAll(b, es).last)
    ensures AllTell(b) ==> AllTell(HandledAll(b, es))
  {
    if es != [] {
      var before, e := es[..|es| - 1], es[|es| - 1];
      ScoredExactlyOnce(b, before);
      var c := HandledAll(b, before);
      match e
      case Process(t) =>
        DistinctIsUnambiguous(c.last, OpenRows(c.rows));
        TickKeepsConsistent(c, t);
        ThroughMeansScored(c, t);
      case Write(d) =>
        WriteKeepsConsistent(c, d);
        WriteKeepsTelling(c, d);
    }
  }

  /** The row that a position of the snapshot belongs to: the only one with its order id. */
  ghost predicate BelongsTo(b: Books, p: Position, rowId: nat) {
    && 1 <= rowId <= |b.rows| && Matches(p, b.rows[rowId - 1])
    && forall k | 0 <= k < |b.rows| && b.rows[k].orderId == p.id :: k + 1 == rowId
  }

  lemma BelongingIsFound(b: Books, p: Position, rowId: nat)
    requires ValidRows(b.rows) && BelongsTo(b, p, rowId) && b.rows[rowId - 1].status == OPEN
    ensures MatchTrade(p, OpenRows(b.rows)) == Some(b.rows[rowId - 1])
  {
    var open := OpenRows(b.rows);
    assert b.rows[rowId - 1] in open;
    var r := MatchTrade(p, open).value;
    OpenRowsAreCurrent(b.rows, r);
  }

  /** Events before the tick that gets through: failing ticks, and writes of other orders. */
  ghost predicate Delays(b: Books, es: seq<Event>, p: Position) {
    forall i | 0 <= i < |es| ::
      match es[i]
      case Process(t) => Ticked(HandledAll(b, es[..i]), t).1 != Through
      case Write(d) => d.orderId != p.id
  }

  /** However many ticks fail part-way in between, the position waits in the snapshot with its row. */
  lemma {:induction false} DelayedPositionWaits(b: Books, es: seq<Event>, p: Position, rowId: nat)
    requires Consistent(b) && DistinctIds(b.last) && SnapshotsDistinct(es)
    requires p in b.last && BelongsTo(b, p, rowId) && Delays(b, es, p)
    ensures var c := HandledAll(b, es); p in c.last && BelongsTo(c, p, rowId)
  {
    if es != [] {
      var n := |es| - 1;
      var before := es[..n];
      forall i | 0 <= i < n ensures before[..i] == es[..i] && before[i] == es[i] { }
      DelayedPositionWaits(b, before, p, rowId);
      var c := HandledAll(b, before);
      match es[n]
      case Process(t) => ThroughMeansScored(c, t);
      case Write(d) =>
    }
  }

  lemma ClosedMeansScored(b: Books, rowId: nat)
    requires Consistent(b) && 1 <= rowId <= |b.rows|
    ensures b.rows[rowId - 1].status == CLOSED <==> Scored(b.scores, rowId)
  {
    assert rowId - 1 + 1 == rowId;
  }

  lemma FinalTickScores(b: Books, t: Tick, p: Position, rowId: nat)
    requires Consistent(b) && DistinctIds(b.last) && p in b.last && BelongsTo(b, p, rowId)
    requires b.rows[rowId - 1].status != BLOCKED && !IsListed(t.positions, p.id) && Ticked(b, t).1 == Through
    ensures var d := Ticked(b, t).0;
      && Consistent(d) && rowId <= |d.rows| && d.rows[rowId - 1].orderId == p.id
      && d.rows[rowId - 1].status == CLOSED && Scored(d.scores, rowId)
  {
    var d := Ticked(b, t).0;
    DistinctIsUnambiguous(b.last, OpenRows(b.rows));
    TickKeepsConsistent(b, t);
    ThroughMeansScored(b, t);
    ClosedMeansScored(b, rowId);
    ClosedMeansScored(d, rowId);
    if b.rows[rowId - 1].status == OPEN {
      BelongingIsFound(b, p, rowId);
      assert p in ClosedPositions(b.last, t.positions);
      var i :| 0 <= i < |d.scores[|b.scores|..]| && d.scores[|b.scores|..][i].rowId == rowId;
      assert d.scores[|b.scores| + i].rowId == rowId;
    }
  }

  /**
    A position that vanished from the broker is scored exactly once by the time a tick gets through, no matter
    how often the balance, a closing deal or an alert failed before, and how far those ticks came.
   */
  lemma VanishedPositionIsScored(b: Books, es: seq<Event>, t: Tick, p: Position, rowId: nat)
    requires Consistent(b) && DistinctIds(b.last) && SnapshotsDistinct(es)
    requires p in b.last && BelongsTo(b, p, rowId) && b.rows[rowId - 1].status != BLOCKED && Delays(b, es, p)
    requires !IsListed(t.positions, p.id) && Ticked(HandledAll(b, es), t).1 == Through
    ensures var d := Ticked(HandledAll(b, es), t).0;
      && Consistent(d) && rowId <= |d.rows| && d.rows[rowId - 1].orderId == p.id
      && d.rows[rowId - 1].status == CLOSED && Scored(d.scores, rowId)
  {
    ScoredExactlyOnce(b, es);
    DelayedPositionWaits(b, es, p, rowId);
    StatusAdvances(b, es, rowId);
    FinalTickScores(HandledAll(b, es), t, p, rowId);
  }

  lemma {:induction false} StatusAdvances(b: Books, es: seq<Event>, rowId: nat)
    requires 1 <= rowId <= |b.rows| && b.rows[rowId - 1].status != BLOCKED
    ensures var c := HandledAll(b, es); rowId <= |c.rows| && c.rows[rowId - 1].status != BLOCKED
  {
    if es != [] {
      StatusAdvances(b, es[..|es| - 1], rowId);
      if es[|es| - 1].Process? {
        ThroughMeansScored(HandledAll(b, es[..|es| - 1]), es[|es| - 1].tick);
      }
    }
  }

  // ---- Distinct snapshots are needed ----

  function MatchedId(p: Position, open: seq<Row>, rowId: nat): nat {
    var r := MatchTrade(p, open);
    if r.Some? && r.value.id == rowId then 1 else 0
  }

  function CountMatched(ps: seq<Position>, open: seq<Row>, rowId: nat): nat {
    if ps == [] then 0 else MatchedId(ps[0], open, rowId) + CountMatched(ps[1..], open, rowId)
  }

  function CountScored(scores: seq<Score>, rowId: nat): nat {
    if scores == [] then 0
    else CountScored(scores[..|scores| - 1], rowId) + if scores[|scores| - 1].rowId == rowId then 1 else 0
  }

  /** A tick in which nothing fails and every position is gone. */
  function CalmTick(): Tick {
    Tick([], Some(1.0), (id: string) => NoDeal, (id: string) => true)
  }

  lemma {:induction false} CalmWorkCounts(b: Books, closed: seq<Position>, open: seq<Row>, rowId: nat)
    ensures CountScored(Work(b, closed, open, 1.0, CalmTick()).0.scores, rowId)
         == CountScored(b.scores, rowId) + CountMatched(closed, open, rowId)
    decreases |closed|
  {
    if closed != [] {
      var p := closed[0];
      var r := MatchTrade(p, open);
      if r.None? {
        CalmWorkCounts(b, closed[1..], open, rowId);
      } else {
        var b' := Charged(b, p, r.value, NoDeal, 1.0);
        CalmWorkCounts(b', closed[1..], open, rowId);
        assert b'.scores[..|b'.scores| - 1] == b.scores;
      }
    }
  }

  lemma {:induction false} VanishedCounts(last: seq<Position>, open: seq<Row>, rowId: nat)
    ensures CountMatched(ClosedPositions(last, []), open, rowId) == CountMatched(last, open, rowId)
  {
    if last != [] {
      VanishedCounts(last[1..], open, rowId);
    }
  }

  lemma {:induction false} CountsAtLeast(ps: seq<Position>, open: seq<Row>, rowId: nat, i: nat)
    requires i < |ps| && MatchedId(ps[i], open, rowId) == 1
    ensures CountMatched(ps, open, rowId) >= 1
  {
    if i > 0 {
      CountsAtLeast(ps[1..], open, rowId, i - 1);
    }
  }

  lemma {:induction false} CountsTwo(ps: seq<Position>, open: seq<Row>, rowId: nat, i: nat, j: nat)
    requires i < j < |ps| && MatchedId(ps[i], open, rowId) == 1 && MatchedId(ps[j], open, rowId) == 1
    ensures CountMatched(ps, open, rowId) >= 2
  {
    if i > 0 {
      CountsTwo(ps[1..], open, rowId, i - 1, j - 1);
    } else {
      CountsAtLeast(ps[1..], open, rowId, j - 1);
    }
  }

  /** Positions that fit a common row are sent to the same first row. */
  lemma {:induction false} SameMatch(p: Position, q: Position, open: seq<Row>)
    requires p.id == q.id && p.symbol == q.symbol
    ensures MatchTrade(p, open) == MatchTrade(q, open)
  {
    if open != [] {
      SameMatch(p, q, open[1..]);
    }
  }

  lemma {:induction false} DistinctScoresCount(scores: seq<Score>, rowId: nat)
    requires forall i, j | 0 <= i < j < |scores| :: scores[i].rowId != scores[j].rowId
    ensures CountScored(scores, rowId) <= if Scored(scores, rowId) then 1 else 0
  {
    if scores != [] {
      var n := |scores| - 1;
      DistinctScoresCount(scores[..n], rowId);
      if scores[n].rowId == rowId {
        assert !Scored(scores[..n], rowId);
        assert Scored(scores, rowId);
      } else if Scored(scores[..n], rowId) {
        var i :| 0 <= i < n && scores[..n][i].rowId == rowId;
        assert scores[i].rowId == rowId;
      }
    }
  }

  lemma AmbiguityScoresTwice(b: Books, i: nat, j: nat, r: Row)
    requires Consistent(b) && i < j < |b.last| && r in OpenRows(b.rows) && Matches(b.last[i], r)
      && Matches(b.last[j], r)
    ensures !Consistent(Ticked(b, CalmTick()).0)
  {
    var open := OpenRows(b.rows);
    SameMatch(b.last[i], b.last[j], open);
    var rowId := MatchTrade(b.last[i], open).value.id;
    CountsTwo(b.last, open, rowId, i, j);
    VanishedCounts(b.last, open, rowId);
    CalmWorkCounts(b, ClosedPositions(b.last, []), open, rowId);
    var scores := Ticked(b, CalmTick()).0.scores;
    assert CountScored(scores, rowId) >= 2;
    if Consistent(Ticked(b, CalmTick()).0) {
      DistinctScoresCount(scores, rowId);
    }
  }

  /** Whatever a tick brings, it scores no row twice, exactly when no two positions of the snapshot fit one open row. */
  lemma TickScoresOnceIff(b: Books)
    requires Consistent(b)
    ensures (forall t: Tick :: Consistent(Ticked(b, t).0)) <==> Unambiguous(b.last, OpenRows(b.rows))
  {
    if Unambiguous(b.last, OpenRows(b.rows)) {
      forall t: Tick ensures Consistent(Ticked(b, t).0) {
        TickKeepsConsistent(b, t);
      }
    } else {
      var i, j, r :| 0 <= i < j < |b.last| && r in OpenRows(b.rows) && Matches(b.last[i], r) && Matches(b.last[j], r);
      AmbiguityScoresTwice(b, i, j, r);
      var t := CalmTick();
      assert !Consistent(Ticked(b, t).0);
    }
  }

  // ---- The service ----

  function ResultsOf(scores: seq<Score>): (rs: seq<DemoRisk.Result>)
    ensures |rs| == |scores|
  {
    seq(|scores|, i requires 0 <= i < |scores| => DemoRisk.Result(scores[i].outcome, scores[i].pnl))
  }

  function PortfolioAfter(p: PortfolioManagement.Portfolio, scores: seq<Score>): PortfolioManagement.Portfolio {
    if scores == [] then p
    else
      var last := scores[|scores| - 1];
      PortfolioManagement.ClosedOne(PortfolioAfter(p, scores[..|scores| - 1]), last.symbol, last.pnl)
  }

  /** The breaker is told about every close of a named strategy; only a win counts as won. */
  function BreakerAfter(state: map<string, CircuitBreaking.Strategy>, scores: seq<Score>, c: CircuitBreaking.Clock):
    map<string, CircuitBreaking.Strategy>
  {
    if scores == [] then state
    else
      var last := scores[|scores| - 1];
      var before := BreakerAfter(state, scores[..|scores| - 1], c);
      if last.strategy == "" then before
      else
        var s := if last.strategy in before then before[last.strategy] else CircuitBreaking.NEW_STRATEGY;
        before[last.strategy := CircuitBreaking.Traded(s, last.outcome == DemoRisk.WIN, c)]
  }

  lemma {:induction false} WorkIsLocal(b: Books, earlier: seq<Score>, closed: seq<Position>, open: seq<Row>,
                                       balance: real, t: Tick)
    requires balance > 0.0
    ensures var (b', ending) := Work(b, closed, open, balance, t);
      Work(b.(scores := earlier + b.scores), closed, open, balance, t) == (b'.(scores := earlier + b'.scores), ending)
    decreases |closed|
  {
    if closed != [] {
      var p := closed[0];
      var r := MatchTrade(p, open);
      if r.None? {
        WorkIsLocal(b, earlier, closed[1..], open, balance, t);
      } else if !t.deals(p.id).LookupFailed? {
        var b' := Charged(b, p, r.value, t.deals(p.id), balance);
        var score := b'.scores[|b.scores|];
        assert earlier + (b.scores + [score]) == (earlier + b.scores) + [score];
        assert Charged(b.(scores := earlier + b.scores), p, r.value, t.deals(p.id), balance)
          == b'.(scores := earlier + b'.scores);
        WorkIsLocal(b', earlier, closed[1..], open, balance, t);
      }
    }
  }

  /** What a tick scores does not depend on what was scored before. */
  lemma TickIsLocal(b: Books, t: Tick)
    ensures var (b', ending) := Ticked(b.(scores := []), t);
      Ticked(b, t) == (b'.(scores := b.scores + b'.scores), ending)
  {
    var blank := b.(scores := []);
    assert b.scores + [] == b.scores;
    var closed := ClosedPositions(b.last, t.positions);
    if closed != [] && t.balance.Some? && t.balance.value > 0.0 {
      WorkIsLocal(blank, b.scores, closed, OpenRows(b.rows), t.balance.value, t);
      assert blank.(scores := b.scores + blank.scores) == b;
    }
  }

  class CloseReconciler {
    const journal: TradeJournalDB
    const risk: DemoRisk.RiskState
    const portfolio: PortfolioManagement.PortfolioManager
    const breaker: CircuitBreaking.CircuitBreaker
    var last: seq<Position>

    constructor (journal: TradeJournalDB, risk: DemoRisk.RiskState, portfolio: PortfolioManagement.PortfolioManager,
                 breaker: CircuitBreaking.CircuitBreaker)
      ensures this.journal == journal && this.risk == risk && this.portfolio == portfolio && this.breaker == breaker
      ensures last == []
    {
      this.journal, this.risk, this.portfolio, this.breaker := journal, risk, portfolio, breaker;
      last := [];
    }

    ghost predicate Valid()
      reads this, journal, risk
    {
      ValidRows(journal.rows) && risk.Valid()
    }

    function View(scores: seq<Score>): Books
      reads this, journal
    {
      Books(journal.rows, last, scores)
    }

    /** Charges one close to the journal, the risk guard, the portfolio and the breaker. */
    method Charge(p: Position, r: Row, d: Lookup, balance: real, c: CircuitBreaking.Clock, ghost scores: seq<Score>)
      returns (ghost scores': seq<Score>)
      requires Valid() && balance > 0.0
      modifies journal, risk, portfolio, breaker
      ensures Valid() && View(scores') == Charged(old(View(scores)), p, r, d, balance)
      ensures |scores'| == |scores| + 1 && scores'[..|scores|] == scores
      ensures var s := scores'[|scores|];
        && risk.View() == DemoRisk.Recorded(old(risk.View()), DemoRisk.Result(s.outcome, s.pnl))
        && portfolio.View() == PortfolioManagement.ClosedOne(old(portfolio.View()), s.symbol, s.pnl)
        && breaker.state == BreakerAfter(old(breaker.state), [s], c)
    {
      var profit := ProfitOf(p, d);
      var pnl := profit / balance;
      var rMultiple := if r.riskPct != 0.0 then pnl / r.riskPct else 0.0;
      var outcome := OutcomeOf(profit);
      var symbol := if p.symbol != "" then p.symbol else r.symbol;
      journal.UpdateClose(r.id, Close(PriceOf(p, d, r), profit, rMultiple));
      risk.RecordResult(DemoRisk.Result(outcome, pnl));
      portfolio.RecordClose(symbol, pnl);
      ghost var s := Score(r.id, symbol, r.strategy, outcome, pnl);
      if r.strategy != "" {
        breaker.RecordTrade(r.strategy, outcome == DemoRisk.WIN, c);
      }
      assert [s][..0] == [];
      scores' := scores + [s];
    }

    /** The accounts agree with the scores of this tick. */
    ghost predicate Agrees(risk0: DemoRisk.Risk, portfolio0: PortfolioManagement.Portfolio,
                           breaker0: map<string, CircuitBreaking.Strategy>, scores: seq<Score>,
                           c: CircuitBreaking.Clock)
      reads risk, portfolio, breaker
    {
      && risk.View() == DemoRisk.RecordedAll(risk0, ResultsOf(scores))
      && portfolio.View() == PortfolioAfter(portfolio0, scores)
      && breaker.state == BreakerAfter(breaker0, scores, c)
    }

    /** Charges a close while the accounts agree with the scores so far. */
    method ChargeNext(p: Position, r: Row, d: Lookup, balance: real, c: CircuitBreaking.Clock, ghost scores: seq<Score>,
                      ghost risk0: DemoRisk.Risk, ghost portfolio0: PortfolioManagement.Portfolio,
                      ghost breaker0: map<string, CircuitBreaking.Strategy>)
      returns (ghost scores': seq<Score>)
      requires Valid() && balance > 0.0 && Agrees(risk0, portfolio0, breaker0, scores, c)
      modifies journal, risk, portfolio, breaker
      ensures Valid() && View(scores') == Charged(old(View(scores)), p, r, d, balance)
      ensures Agrees(risk0, portfolio0, breaker0, scores', c)
    {
      scores' := Charge(p, r, d, balance, c, scores);
      ghost var n := |scores|;
      assert scores'[..|scores'| - 1] == scores;
      assert ResultsOf(scores')[..n] == ResultsOf(scores);
      assert [scores'[n]][..0] == [];
    }

    /** The loop over the closed positions; it stops at the first one that cannot be scored or announced. */
    method ProcessClosed(closed: seq<Position>, open: seq<Row>, balance: real, t: Tick, c: CircuitBreaking.Clock)
      returns (ending: Ending, ghost scores: seq<Score>)
      requires Valid() && balance > 0.0
      modifies this`last, journal, risk, portfolio, breaker
      ensures Valid() && (View(scores), ending) == Work(old(View([])), closed, open, balance, t)
      ensures Agrees(old(risk.View()), old(portfolio.View()), old(breaker.state), scores, c)
    {
      scores := [];
      var i := 0;
      while i < |closed|
        invariant 0 <= i <= |closed| && Valid() && last == old(last)
        invariant Agrees(old(risk.View()), old(portfolio.View()), old(breaker.state), scores, c)
        invariant Work(old(View([])), closed, open, balance, t) == Work(View(scores), closed[i..], open, balance, t)
      {
        var p := closed[i];
        assert closed[i..][1..] == closed[i + 1..];
        var r := MatchTrade(p, open);
        if r.Some? {
          var d := t.deals(p.id);
          if d.LookupFailed? {
            return Deferred, scores;
          }
          scores := ChargeNext(p, r.value, d, balance, c, scores, old(risk.View()), old(portfolio.View()),
                               old(breaker.state));
        }
        if !t.alertSent(p.id) {
          return Interrupted, scores;
        }
        i := i + 1;
      }
      last := t.positions;
      return Through, scores;
    }

    /**
      One tick. Its effect on journal and snapshot is the tick of the books, and risk guard, portfolio and breaker
      have been told about exactly the closes that were scored, in order.
     */
    method Process(t: Tick, c: CircuitBreaking.Clock) returns (ending: Ending, ghost scores: seq<Score>)
      requires Valid()
      modifies this`last, journal, risk, portfolio, breaker
      ensures Valid() && (View(scores), ending) == Ticked(old(View([])), t)
      ensures Agrees(old(risk.View()), old(portfolio.View()), old(breaker.state), scores, c)
    {
      scores := [];
      var closed := ClosedPositions(last, t.positions);
      if closed == [] {
        last := t.positions;
        return Through, scores;
      }
      var open := journal.GetOpenTrades();
      if t.balance.None? || t.balance.value <= 0.0 {
        return Deferred, scores;
      }
      ending, scores := ProcessClosed(closed, open, t.balance.value, t, c);
    }
  }
}
