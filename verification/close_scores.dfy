/**
  What one tick scores, told by what the broker reported: which positions, in which order, at which profit and price,
  and where the tick stops.
 */
module CloseScores {
  import opened Wrappers
  import opened Positions
  import opened TradeJournal
  import opened CloseReconciliation
  import DemoRisk
  import PortfolioManagement
  import CircuitBreaking

  function Shifted(from: seq<nat>): (s: seq<nat>)
    ensures |s| == |from| && forall i | 0 <= i < |s| :: s[i] == from[i] + 1
  {
    seq(|from|, i requires 0 <= i < |from| => from[i] + 1)
  }

  lemma ShiftedHas(from: seq<nat>, k: nat)
    ensures k in Shifted(from) <==> k > 0 && k - 1 in from
  {
    if k > 0 && k - 1 in from {
      var i :| 0 <= i < |from| && from[i] == k - 1;
      assert Shifted(from)[i] == k;
    }
  }

  ghost predicate Increasing(from: seq<nat>) {
    forall i, j | 0 <= i < j < |from| :: from[i] < from[j]
  }

  lemma ShiftedIncreases(from: seq<nat>)
    requires Increasing(from)
    ensures Increasing(Shifted(from)) && Increasing([0] + Shifted(from))
  {
  }

  predicate Vanished(p: Position, current: seq<Position>) {
    p.id != "" && !IsListed(current, p.id)
  }

  lemma VanishedFirst(last: seq<Position>, current: seq<Position>, rest: seq<nat>, at: seq<nat>, k: nat)
    requires last != [] && k < |last|
    requires at == (if Vanished(last[0], current) then [0] else []) + Shifted(rest)
    requires forall j: nat | j < |last[1..]| :: j in rest <==> Vanished(last[1..][j], current)
    ensures k in at <==> Vanished(last[k], current)
  {
    ShiftedHas(rest, k);
    if k > 0 {
      assert last[k] == last[1..][k - 1];
    }
  }

  /** The places of these positions in the snapshot. */
  ghost predicate PlacesOf(at: seq<nat>, last: seq<Position>, ps: seq<Position>) {
    |at| == |ps| && forall i | 0 <= i < |at| :: at[i] < |last| && last[at[i]] == ps[i]
  }

  lemma PlacesShift(rest: seq<nat>, last: seq<Position>, ps: seq<Position>)
    requires last != [] && PlacesOf(rest, last[1..], ps)
    ensures PlacesOf(Shifted(rest), last, ps) && PlacesOf([0] + Shifted(rest), last, [last[0]] + ps)
  {
    forall i | 0 <= i < |rest| ensures last[rest[i] + 1] == ps[i] {
      assert last[1..][rest[i]] == ps[i];
    }
  }

  /** The positions that vanished keep the order of the snapshot, and none is missing or listed twice. */
  lemma {:induction false} VanishedInOrder(last: seq<Position>, current: seq<Position>) returns (at: seq<nat>)
    ensures PlacesOf(at, last, ClosedPositions(last, current)) && Increasing(at)
    ensures forall k: nat | k < |last| :: k in at <==> Vanished(last[k], current)
  {
    at := [];
    if last != [] {
      var rest := VanishedInOrder(last[1..], current);
      at := (if Vanished(last[0], current) then [0] else []) + Shifted(rest);
      ShiftedIncreases(rest);
      PlacesShift(rest, last, ClosedPositions(last[1..], current));
      assert [] + Shifted(rest) == Shifted(rest);
      forall k: nat | k < |last| ensures k in at <==> Vanished(last[k], current) {
        VanishedFirst(last, current, rest, at, k);
      }
    }
  }

  // ---- The row of a close ----

  ghost predicate Ascending(rows: seq<Row>) {
    forall i, j | 0 <= i < j < |rows| :: rows[i].id < rows[j].id
  }

  lemma {:induction false} OpenRowsAscend(rows: seq<Row>)
    requires Ascending(rows)
    ensures Ascending(OpenRows(rows))
  {
    if rows != [] {
      OpenRowsAscend(rows[1..]);
      var rest := OpenRows(rows[1..]);
      forall j | 0 <= j < |rest| ensures rows[0].id < rest[j].id {
        assert rest[j] in rows[1..];
      }
    }
  }

  lemma {:induction false} MatchIsLowest(p: Position, open: seq<Row>, q: Row)
    requires Ascending(open) && q in open && Matches(p, q)
    ensures MatchTrade(p, open).Some? && MatchTrade(p, open).value.id <= q.id
  {
    if !Matches(p, open[0]) {
      MatchIsLowest(p, open[1..], q);
    }
  }

  /** A close goes to the open row of its order and symbol that was written first. */
  lemma EarliestRowIsClosed(rows: seq<Row>, p: Position, k: nat)
    requires ValidRows(rows) && k < |rows| && rows[k].status == OPEN && Matches(p, rows[k])
    ensures MatchTrade(p, OpenRows(rows)).Some? && MatchTrade(p, OpenRows(rows)).value.id <= k + 1
  {
    OpenRowsAscend(rows);
    assert rows[k] in OpenRows(rows);
    MatchIsLowest(p, OpenRows(rows), rows[k]);
  }

  // ---- What is scored ----

  /** Some open row is this position's. */
  ghost predicate HasRow(p: Position, open: seq<Row>) {
    exists r | r in open :: r.orderId == p.id && r.symbol == p.symbol
  }

  /** The closing deal decides profit and price; what it leaves open comes from the snapshot, and then from the row. */
  ghost predicate ToldByBroker(c: Close, p: Position, d: Lookup, entryPrice: real) {
    && !d.LookupFailed?
    && (d.Deal? && d.profit.Some? ==> c.profit == d.profit.value)
    && (!d.Deal? || d.profit.None? ==> c.profit == p.profit)
    && (d.Deal? && d.price.Some? ==> c.price == d.price.value)
    && (!d.Deal? || d.price.None? ==>
          && (p.currentPrice.Some? ==> c.price == p.currentPrice.value)
          && (p.currentPrice.None? ==> c.price == entryPrice))
  }

  /** The score of the close of `p`: its row is closed at what the broker told, and the score says the same. */
  ghost predicate Settles(s: Score, open: seq<Row>, rows': seq<Row>, p: Position, d: Lookup, balance: real) {
    exists r, c | r in open && r.id == s.rowId && ToldByBroker(c, p, d, r.entryPrice) ::
      && r.orderId == p.id && r.symbol == p.symbol && s.symbol == p.symbol && s.strategy == r.strategy
      && 1 <= s.rowId <= |rows'| && rows'[s.rowId - 1] == r.(status := CLOSED, close := Some(c))
      && s.pnl * balance == c.profit
      && (s.outcome == DemoRisk.WIN <==> c.profit > 0.0) && (s.outcome == DemoRisk.LOSS <==> c.profit < 0.0)
      && (if r.riskPct == 0.0 then c.rMultiple == 0.0 else c.rMultiple * r.riskPct == s.pnl)
  }

  lemma ChargeSettles(b: Books, p: Position, r: Row, d: Lookup, balance: real, open: seq<Row>)
    requires balance > 0.0 && r in open && Matches(p, r) && !d.LookupFailed?
    requires 1 <= r.id <= |b.rows| && b.rows[r.id - 1] == r
    ensures var b' := Charged(b, p, r, d, balance);
      Settles(b'.scores[|b.scores|], open, b'.rows, p, d, balance)
  {
    var b' := Charged(b, p, r, d, balance);
    var c := b'.rows[r.id - 1].close.value;
    assert ToldByBroker(c, p, d, r.entryPrice);
    ShareTimesWhole(c.profit, balance);
    if r.riskPct != 0.0 {
      ShareTimesWhole(c.profit / balance, r.riskPct);
    }
    SameSign(c.profit, balance);
  }

  lemma ShareTimesWhole(x: real, whole: real)
    requires whole != 0.0
    ensures (x / whole) * whole == x
  {
  }

  lemma SameSign(x: real, whole: real)
    requires whole > 0.0
    ensures (x / whole > 0.0 <==> x > 0.0) && (x / whole < 0.0 <==> x < 0.0)
  {
  }

  lemma SettledStays(s: Score, open: seq<Row>, rows': seq<Row>, rows'': seq<Row>, p: Position, d: Lookup, balance: real)
    requires Settles(s, open, rows', p, d, balance)
    requires s.rowId <= |rows''| && (1 <= s.rowId <= |rows'| ==> rows''[s.rowId - 1] == rows'[s.rowId - 1])
    ensures Settles(s, open, rows'', p, d, balance)
  {
    var r, c :| r in open && r.id == s.rowId && ToldByBroker(c, p, d, r.entryPrice)
      && r.orderId == p.id && r.symbol == p.symbol && s.symbol == p.symbol && s.strategy == r.strategy
      && 1 <= s.rowId <= |rows'| && rows'[s.rowId - 1] == r.(status := CLOSED, close := Some(c))
      && s.pnl * balance == c.profit
      && (s.outcome == DemoRisk.WIN <==> c.profit > 0.0) && (s.outcome == DemoRisk.LOSS <==> c.profit < 0.0)
      && (if r.riskPct == 0.0 then c.rMultiple == 0.0 else c.rMultiple * r.riskPct == s.pnl);
    assert rows''[s.rowId - 1] == r.(status := CLOSED, close := Some(c));
  }

  /** The scores that a tick adds are those of these positions, in this order. */
  ghost predicate ScoresOf(from: seq<nat>, b: Books, b': Books, closed: seq<Position>, open: seq<Row>, balance: real,
                           t: Tick)
  {
    && |b'.scores| == |b.scores| + |from| && b.scores <= b'.scores
    && (forall i | 0 <= i < |from| :: from[i] < |closed|)
    && Increasing(from)
    && forall i | 0 <= i < |from| ::
         Settles(b'.scores[|b.scores| + i], open, b'.rows, closed[from[i]], t.deals(closed[from[i]].id), balance)
  }

  /**
    The tick got as far as `stop`: every position before it that has a row was scored, nothing else, and whatever
    ended the tick early happened there.
   */
  ghost predicate StoppedAt(stop: nat, from: seq<nat>, ending: Ending, closed: seq<Position>, open: seq<Row>, t: Tick) {
    && stop <= |closed|
    && (forall k: nat :: k in from <==> k < stop && HasRow(closed[k], open))
    && (forall k | 0 <= k < stop - (if ending == Interrupted then 1 else 0) :: t.alertSent(closed[k].id))
    && match ending
       case Through => stop == |closed|
       case Deferred => stop < |closed| && HasRow(closed[stop], open) && t.deals(closed[stop].id).LookupFailed?
       case Interrupted => stop > 0 && !t.alertSent(closed[stop - 1].id)
  }

  /** A position without a row only moves the count on. */
  lemma PassOver(stop: nat, from: seq<nat>, ending: Ending, closed: seq<Position>, open: seq<Row>, t: Tick)
    requires closed != [] && StoppedAt(stop, from, ending, closed[1..], open, t)
    requires t.alertSent(closed[0].id)
    ensures StoppedAt(stop + 1, (if HasRow(closed[0], open) then [0] else []) + Shifted(from), ending, closed, open, t)
  {
    var all := (if HasRow(closed[0], open) then [0] else []) + Shifted(from);
    forall k: nat ensures k in all <==> k < stop + 1 && HasRow(closed[k], open) {
      ShiftedHas(from, k);
      if 0 < k < |closed| {
        assert closed[k] == closed[1..][k - 1];
      }
    }
  }

  lemma PassOverScores(from: seq<nat>, b: Books, b': Books, closed: seq<Position>, open: seq<Row>, balance: real,
                       t: Tick)
    requires closed != [] && ScoresOf(from, b, b', closed[1..], open, balance, t)
    ensures ScoresOf(Shifted(from), b, b', closed, open, balance, t)
  {
    ShiftedIncreases(from);
    forall i | 0 <= i < |from| ensures closed[Shifted(from)[i]] == closed[1..][from[i]] { }
  }

  lemma ChargeFirst(from: seq<nat>, b: Books, b1: Books, b': Books, closed: seq<Position>, open: seq<Row>,
                    balance: real, t: Tick)
    requires closed != [] && ScoresOf(from, b1, b', closed[1..], open, balance, t)
    requires |b1.scores| == |b.scores| + 1 && b.scores <= b1.scores
    requires Settles(b'.scores[|b.scores|], open, b'.rows, closed[0], t.deals(closed[0].id), balance)
    ensures ScoresOf([0] + Shifted(from), b, b', closed, open, balance, t)
  {
    ShiftedIncreases(from);
    forall i | 0 <= i < |from| + 1
      ensures var k := ([0] + Shifted(from))[i];
        k < |closed| && Settles(b'.scores[|b.scores| + i], open, b'.rows, closed[k], t.deals(closed[k].id), balance)
    {
      ChargeAt(from, b, b1, b', closed, open, balance, t, i);
    }
  }

  lemma ChargeAt(from: seq<nat>, b: Books, b1: Books, b': Books, closed: seq<Position>, open: seq<Row>,
                 balance: real, t: Tick, i: nat)
    requires closed != [] && ScoresOf(from, b1, b', closed[1..], open, balance, t) && i <= |from|
    requires |b1.scores| == |b.scores| + 1
    requires Settles(b'.scores[|b.scores|], open, b'.rows, closed[0], t.deals(closed[0].id), balance)
    ensures |b.scores| + i < |b'.scores|
    ensures var k := ([0] + Shifted(from))[i];
      k < |closed| && Settles(b'.scores[|b.scores| + i], open, b'.rows, closed[k], t.deals(closed[k].id), balance)
  {
    if i > 0 {
      ChargeLater(from, b1, b', closed, open, balance, t, i - 1);
    }
  }

  lemma ChargeLater(from: seq<nat>, b1: Books, b': Books, closed: seq<Position>, open: seq<Row>, balance: real,
                    t: Tick, i: nat)
    requires closed != [] && ScoresOf(from, b1, b', closed[1..], open, balance, t) && i < |from|
    ensures from[i] + 1 < |closed|
    ensures var p := closed[from[i] + 1];
      Settles(b'.scores[|b1.scores| + i], open, b'.rows, p, t.deals(p.id), balance)
  {
    assert closed[from[i] + 1] == closed[1..][from[i]];
  }

  lemma NoOtherTakes(b: Books, closed: seq<Position>, open: seq<Row>, r: Row)
    requires closed != [] && Unambiguous(closed, open) && StillOpen(b, closed, open)
    requires r in open && Matches(closed[0], r)
    ensures forall q, o | q in closed[1..] && o in open && Matches(q, o) :: o.id != r.id
  {
    forall q, o | q in closed[1..] && o in open && Matches(q, o) ensures o.id != r.id {
      var j :| 1 <= j < |closed| && closed[j] == q;
      assert !Matches(closed[j], r);
      assert q in closed && closed[0] in closed;
    }
  }

  /** A row that was just closed is not touched again by the rest of the loop. */
  lemma ChargedStays(b: Books, closed: seq<Position>, open: seq<Row>, r: Row, balance: real, t: Tick)
    requires balance > 0.0 && closed != [] && Unambiguous(closed, open) && StillOpen(b, closed, open)
    requires r in open && Matches(closed[0], r) && !t.deals(closed[0].id).LookupFailed?
    ensures var b1 := Charged(b, closed[0], r, t.deals(closed[0].id), balance);
      var b' := Work(b1, closed[1..], open, balance, t).0;
      && |b1.scores| == |b.scores| + 1 && b.scores <= b1.scores <= b'.scores
      && Settles(b'.scores[|b.scores|], open, b'.rows, closed[0], t.deals(closed[0].id), balance)
  {
    var p, d := closed[0], t.deals(closed[0].id);
    var b1 := Charged(b, p, r, d, balance);
    var b' := Work(b1, closed[1..], open, balance, t).0;
    assert p in closed;
    ChargeSettles(b, p, r, d, balance, open);
    NoOtherTakes(b, closed, open, r);
    WorkSparesRow(b1, closed[1..], open, balance, t, r.id);
    WorkIsOnward(b1, closed[1..], open, balance, t);
    SettledStays(b1.scores[|b.scores|], open, b1.rows, b'.rows, p, d, balance);
  }

  ghost predicate WorkTells(from: seq<nat>, stop: nat, b: Books, closed: seq<Position>, open: seq<Row>, balance: real,
                            t: Tick)
    requires balance > 0.0
  {
    var (b', ending) := Work(b, closed, open, balance, t);
    ScoresOf(from, b, b', closed, open, balance, t) && StoppedAt(stop, from, ending, closed, open, t)
  }

  lemma PassOverTells(from: seq<nat>, stop: nat, b: Books, closed: seq<Position>, open: seq<Row>, balance: real,
                      t: Tick)
    requires balance > 0.0 && closed != [] && closed[0].id != ""
    requires MatchTrade(closed[0], open).None? && t.alertSent(closed[0].id)
    requires WorkTells(from, stop, b, closed[1..], open, balance, t)
    ensures WorkTells(Shifted(from), stop + 1, b, closed, open, balance, t)
  {
    var (b', ending) := Work(b, closed[1..], open, balance, t);
    PassOver(stop, from, ending, closed, open, t);
    PassOverScores(from, b, b', closed, open, balance, t);
    assert [] + Shifted(from) == Shifted(from);
  }

  lemma ChargeOnTells(from: seq<nat>, stop: nat, b: Books, closed: seq<Position>, open: seq<Row>, r: Row,
                      balance: real, t: Tick)
    requires balance > 0.0 && closed != [] && Unambiguous(closed, open) && StillOpen(b, closed, open)
    requires MatchTrade(closed[0], open) == Some(r) && !t.deals(closed[0].id).LookupFailed?
    requires t.alertSent(closed[0].id)
    requires WorkTells(from, stop, Charged(b, closed[0], r, t.deals(closed[0].id), balance), closed[1..], open, balance,
                       t)
    ensures WorkTells([0] + Shifted(from), stop + 1, b, closed, open, balance, t)
  {
    var b1 := Charged(b, closed[0], r, t.deals(closed[0].id), balance);
    var (b', ending) := Work(b1, closed[1..], open, balance, t);
    assert HasRow(closed[0], open);
    PassOver(stop, from, ending, closed, open, t);
    ChargedStays(b, closed, open, r, balance, t);
    ChargeFirst(from, b, b1, b', closed, open, balance, t);
  }

  /** The first position ends the tick: without a row, with its deal not to be had, or once it was scored. */
  lemma StopAtFirst(b: Books, closed: seq<Position>, open: seq<Row>, balance: real, t: Tick)
    returns (from: seq<nat>, stop: nat)
    requires balance > 0.0 && closed != [] && closed[0].id != "" && StillOpen(b, closed, open)
    requires !t.alertSent(closed[0].id)
      || (MatchTrade(closed[0], open).Some? && t.deals(closed[0].id).LookupFailed?)
    ensures WorkTells(from, stop, b, closed, open, balance, t)
  {
    var p := closed[0];
    var r := MatchTrade(p, open);
    assert p in closed && (r.Some? <==> HasRow(p, open));
    if r.None? {
      from, stop := [], 1;
    } else if t.deals(p.id).LookupFailed? {
      from, stop := [], 0;
    } else {
      ChargeSettles(b, p, r.value, t.deals(p.id), balance, open);
      from, stop := [0], 1;
    }
  }

  lemma {:induction false} WorkSettles(b: Books, closed: seq<Position>, open: seq<Row>, balance: real, t: Tick)
    returns (from: seq<nat>, stop: nat)
    requires balance > 0.0 && Unambiguous(closed, open) && StillOpen(b, closed, open)
    requires forall p | p in closed :: p.id != ""
    ensures WorkTells(from, stop, b, closed, open, balance, t)
    decreases |closed|
  {
    if closed == [] {
      from, stop := [], 0;
    } else {
      var p := closed[0];
      var r := MatchTrade(p, open);
      assert p in closed && Unambiguous(closed[1..], open);
      if !t.alertSent(p.id) || (r.Some? && t.deals(p.id).LookupFailed?) {
        from, stop := StopAtFirst(b, closed, open, balance, t);
      } else if r.None? {
        var from', stop' := WorkSettles(b, closed[1..], open, balance, t);
        PassOverTells(from', stop', b, closed, open, balance, t);
        from, stop := Shifted(from'), stop' + 1;
      } else {
        ChargeKeepsOthersOpen(b, closed, open, r.value, t.deals(p.id), balance);
        var b1 := Charged(b, p, r.value, t.deals(p.id), balance);
        assert StillOpen(b1, closed[1..], open);
        var from', stop' := WorkSettles(b1, closed[1..], open, balance, t);
        ChargeOnTells(from', stop', b, closed, open, r.value, balance, t);
        from, stop := [0] + Shifted(from'), stop' + 1;
      }
    }
  }

  /**
    The scores that a tick adds are those of the vanished positions with an open row, in the order of the snapshot, up
    to where the tick stops, and each is what the broker's closing deal says. A tick without a balance adds none.
   */
  lemma TickSettles(b: Books, t: Tick) returns (from: seq<nat>, stop: nat)
    requires ValidRows(b.rows) && DistinctIds(b.last)
    ensures var (b', ending) := Ticked(b, t);
      var closed, open := ClosedPositions(b.last, t.positions), OpenRows(b.rows);
      if closed != [] && (t.balance.None? || t.balance.value <= 0.0) then
        b' == b && ending == Deferred
      else if closed == [] then
        b' == b.(last := t.positions) && ending == Through
      else
        && ScoresOf(from, b, b', closed, open, t.balance.value, t)
        && StoppedAt(stop, from, ending, closed, open, t)
  {
    from, stop := [], 0;
    var closed, open := ClosedPositions(b.last, t.positions), OpenRows(b.rows);
    if closed != [] && t.balance.Some? && t.balance.value > 0.0 {
      DistinctIsUnambiguous(b.last, open);
      ClosedKeepsUnambiguous(b.last, t.positions, open);
      forall r | r in open ensures 1 <= r.id <= |b.rows| && b.rows[r.id - 1] == r && r.status == OPEN {
        OpenRowsAreCurrent(b.rows, r);
      }
      from, stop := WorkSettles(b, closed, open, t.balance.value, t);
    }
  }

  // ---- What the portfolio and the breaker hear ----

  function SumOf(scores: seq<Score>): real {
    if scores == [] then 0.0 else SumOf(scores[..|scores| - 1]) + scores[|scores| - 1].pnl
  }

  /** The portfolio gets every result into all three totals, forgets the symbols, and counts no trade. */
  lemma {:induction false} PortfolioHears(p: PortfolioManagement.Portfolio, scores: seq<Score>)
    ensures var q := PortfolioAfter(p, scores);
      && q.daily == p.daily + SumOf(scores) && q.weekly == p.weekly + SumOf(scores)
      && q.monthly == p.monthly + SumOf(scores)
      && q.tradesToday == p.tradesToday && q.lastReset == p.lastReset
      && forall x :: x in q.open <==> x in p.open && forall i | 0 <= i < |scores| :: scores[i].symbol != x
  {
    if scores != [] {
      PortfolioHears(p, scores[..|scores| - 1]);
    }
  }

  /** The closes of one strategy, as calls of the breaker: won exactly if the close was a win. */
  function CallsFor(name: string, scores: seq<Score>, c: CircuitBreaking.Clock): seq<CircuitBreaking.Call> {
    if scores == [] then []
    else
      var s := scores[|scores| - 1];
      CallsFor(name, scores[..|scores| - 1], c)
      + if s.strategy == name then [CircuitBreaking.TradeCall(s.outcome == DemoRisk.WIN, c)] else []
  }

  /** What the breaker has of the strategy once it has heard these calls. */
  ghost predicate Heard(state: map<string, CircuitBreaking.Strategy>, after: map<string, CircuitBreaking.Strategy>,
                        name: string, calls: seq<CircuitBreaking.Call>, lim: CircuitBreaking.Limits)
  {
    && (name in after <==> name in state || calls != [])
    && (name in after ==> after[name] == CircuitBreaking.CalledAll(
            lim, if name in state then state[name] else CircuitBreaking.NEW_STRATEGY, calls))
  }

  lemma HearsOneMore(state: map<string, CircuitBreaking.Strategy>, before: map<string, CircuitBreaking.Strategy>,
                     after: map<string, CircuitBreaking.Strategy>, name: string, calls: seq<CircuitBreaking.Call>,
                     won: bool, c: CircuitBreaking.Clock, lim: CircuitBreaking.Limits)
    requires Heard(state, before, name, calls, lim)
    requires after == before[name := CircuitBreaking.Traded(
        if name in before then before[name] else CircuitBreaking.NEW_STRATEGY, won, c)]
    ensures Heard(state, after, name, calls + [CircuitBreaking.TradeCall(won, c)], lim)
  {
    var start := if name in state then state[name] else CircuitBreaking.NEW_STRATEGY;
    CircuitBreaking.CalledOneMore(lim, start, calls, CircuitBreaking.TradeCall(won, c));
  }

  /** The breaker hears of each strategy's closes in their order. */
  lemma {:induction false} BreakerHears(state: map<string, CircuitBreaking.Strategy>, scores: seq<Score>,
                                        c: CircuitBreaking.Clock, lim: CircuitBreaking.Limits, name: string)
    requires name != ""
    ensures Heard(state, BreakerAfter(state, scores, c), name, CallsFor(name, scores, c), lim)
  {
    if scores != [] {
      var rest, s := scores[..|scores| - 1], scores[|scores| - 1];
      BreakerHears(state, rest, c, lim, name);
      var before := BreakerAfter(state, rest, c);
      if s.strategy == name {
        HearsOneMore(state, before, BreakerAfter(state, scores, c), name, CallsFor(name, rest, c),
                     s.outcome == DemoRisk.WIN, c, lim);
      } else {
        assert CallsFor(name, scores, c) == CallsFor(name, rest, c);
      }
    }
  }

  /** It hears nothing of closes without a strategy. */
  lemma {:induction false} NamelessIsNotHeard(state: map<string, CircuitBreaking.Strategy>, scores: seq<Score>,
                                              c: CircuitBreaking.Clock)
    ensures "" in BreakerAfter(state, scores, c) <==> "" in state
    ensures "" in state ==> BreakerAfter(state, scores, c)[""] == state[""]
  {
    if scores != [] {
      NamelessIsNotHeard(state, scores[..|scores| - 1], c);
    }
  }
}
