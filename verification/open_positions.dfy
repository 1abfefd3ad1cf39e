/**
  The cap on open positions and the positions that are really open. Orders that recovery finds are
  journaled but never counted, so each of them can push the real number one above the cap.
 */
module OpenPositions {
  import opened Wrappers
  import opened Signals
  import opened PortfolioManagement

  const NEW_DESK := Desk(Portfolio(0, {}, None, 0.0, 0.0, 0.0), [], multiset{})

  /** Batches come from the router: no symbol twice. */
  ghost predicate RoutedBatches(es: seq<Event>) {
    forall i | 0 <= i < |es| && es[i].Batch? :: DistinctSymbols(es[i].signals)
  }

  function Recoveries(es: seq<Event>): nat {
    if es == [] then 0 else Recoveries(es[..|es| - 1]) + if es[|es| - 1].Recover? then 1 else 0
  }

  // ---- The bound ----

  /** Every counted symbol is held, what is pending is new, and at most the recovered positions are not counted. */
  ghost predicate HeldInv(d: Desk, recovered: nat) {
    && (forall x | x in d.portfolio.open :: x in d.held)
    && DistinctSymbols(d.pending) && (forall s | s in d.pending :: s.symbol !in d.portfolio.open)
    && |d.held| <= |d.portfolio.open| + recovered
  }

  lemma PlaceKeepsHeld(cfg: Config, d: Desk, recovered: nat, i: nat)
    requires HeldInv(d, recovered) && i < |d.pending|
    ensures HeldInv(Handled(cfg, d, Place(i)), recovered)
  {
    var d' := Handled(cfg, d, Place(i));
    assert d.pending[i] in d.pending;
    forall j | 0 <= j < |d'.pending|
      ensures d'.pending[j] in d.pending && d'.pending[j].symbol != d.pending[i].symbol
    {
      assert d'.pending[j] == d.pending[if j < i then j else j + 1];
    }
  }

  lemma CloseKeepsHeld(cfg: Config, d: Desk, recovered: nat, symbol: string, pnl: real)
    requires HeldInv(d, recovered)
    ensures HeldInv(Handled(cfg, d, CloseSymbol(symbol, pnl)), recovered)
  {
    RemovalShrinks(d.portfolio.open, symbol);
  }

  lemma EventKeepsHeld(cfg: Config, d: Desk, recovered: nat, e: Event)
    requires HeldInv(d, recovered) && (e.Batch? ==> DistinctSymbols(e.signals))
    ensures HeldInv(Handled(cfg, d, e), if e.Recover? then recovered + 1 else recovered)
  {
    match e
    case Batch(signals, today) => EvaluatedSymbols(cfg, ForToday(d.portfolio, today), signals);
    case Place(i) =>
      if i < |d.pending| {
        PlaceKeepsHeld(cfg, d, recovered, i);
      }
    case CloseSymbol(symbol, pnl) => CloseKeepsHeld(cfg, d, recovered, symbol, pnl);
    case Recover(_) =>
  }

  lemma {:induction false} HeldInEveryRun(cfg: Config, es: seq<Event>)
    requires RoutedBatches(es)
    ensures HeldInv(HandledAll(cfg, NEW_DESK, es), Recoveries(es))
  {
    if es != [] {
      HeldInEveryRun(cfg, es[..|es| - 1]);
      EventKeepsHeld(cfg, HandledAll(cfg, NEW_DESK, es[..|es| - 1]), Recoveries(es[..|es| - 1]), es[|es| - 1]);
    }
  }

  /** How many positions the counters ever allow to be counted. */
  function Countable(cfg: Config): nat {
    if cfg.maxTradesPerDay > 0 then Max0(cfg.maxOpenPositions) else 0
  }

  lemma {:induction false} NothingPlaced(cfg: Config, es: seq<Event>)
    requires cfg.maxTradesPerDay <= 0
    ensures var d := HandledAll(cfg, NEW_DESK, es); d.pending == [] && d.portfolio.open == {}
  {
    if es != [] {
      NothingPlaced(cfg, es[..|es| - 1]);
    }
  }

  /** In every run at most the cap and the recovered positions are open. */
  lemma HeldBound(cfg: Config, es: seq<Event>)
    requires RoutedBatches(es)
    ensures |HandledAll(cfg, NEW_DESK, es).held| <= Countable(cfg) + Recoveries(es)
  {
    HeldInEveryRun(cfg, es);
    CapsHold(cfg, NEW_DESK, es);
    if cfg.maxTradesPerDay <= 0 {
      NothingPlaced(cfg, es);
    }
  }

  // ---- The bound is met ----

  function Name(n: nat): (x: string)
    ensures |x| == n
  {
    seq(n, i => 'x')
  }

  /** A signal that nothing stands against, for a strategy and a symbol with such long names. */
  function NewSignal(cfg: Config, n: nat, symbol: nat): Signal {
    Signal(Name(n), Name(symbol), BUY, 1.0, 0.5, 2.0, cfg.minConfidence, None, 300)
  }

  lemma OneKept(keep: Signal -> bool, s: Signal)
    requires keep(s)
    ensures Filter(keep, [s]) == [s]
  {
    assert [s][1..] == [];
  }

  lemma OneUncorrelated(cfg: Config, s: Signal)
    ensures CorrelationFilter(cfg, [s]) == [s]
  {
    assert [s][1..] == [] && Rank([s]) == [s];
    var none: set<(set<string>, Action)> := {};
    assert KeepFirst(cfg.groups, [s], none) == [s];
  }

  /** A single new signal is approved while the day and the cap have room. */
  lemma OneApproved(cfg: Config, p: Portfolio, n: nat, symbol: nat)
    requires (forall x | x in cfg.strategies :: |x| < n) && (forall x | x in p.open :: |x| < symbol)
    requires p.tradesToday < cfg.maxTradesPerDay && |p.open| < cfg.maxOpenPositions
    ensures Evaluated(cfg, p, [NewSignal(cfg, n, symbol)]) == [NewSignal(cfg, n, symbol)]
  {
    var s := NewSignal(cfg, n, symbol);
    assert s.strategy !in cfg.strategies && s.symbol !in p.open;
    OneKept((s: Signal) => StrategyAllowed(cfg, s), s);
    OneKept((s: Signal) => s.symbol !in p.open, s);
    OneUncorrelated(cfg, s);
    OneKept((s: Signal) => s.confidence >= cfg.minConfidence, s);
    assert Eligible(cfg, p, [s]) == [s];
    assert Rank([s]) == [s] by { assert [s][1..] == []; }
  }

  /** After `k` days with one new position each. */
  ghost predicate Filled(d: Desk, k: nat) {
    && |d.portfolio.open| == k && |d.held| == k && d.pending == []
    && (forall x | x in d.portfolio.open :: |x| < k) && (forall day | d.portfolio.lastReset == Some(day) :: day < k)
  }

  /** One more event at the end of a run. */
  lemma EventAfter(cfg: Config, es: seq<Event>, e: Event)
    ensures HandledAll(cfg, NEW_DESK, es + [e]) == Handled(cfg, HandledAll(cfg, NEW_DESK, es), e)
    ensures Recoveries(es + [e]) == Recoveries(es) + if e.Recover? then 1 else 0
    ensures RoutedBatches(es) && (e.Batch? ==> DistinctSymbols(e.signals)) ==> RoutedBatches(es + [e])
  {
    assert (es + [e])[..|es|] == es;
  }

  /** A new day, a batch of one new signal, and its order. */
  lemma DayAdds(cfg: Config, d: Desk, n: nat, k: nat)
    requires Filled(d, k) && (forall x | x in cfg.strategies :: |x| < n)
    requires cfg.maxTradesPerDay > 0 && k < cfg.maxOpenPositions
    ensures Filled(Handled(cfg, Handled(cfg, d, Batch([NewSignal(cfg, n, k)], k)), Place(0)), k + 1)
  {
    var s, p := NewSignal(cfg, n, k), ForToday(d.portfolio, k);
    OneApproved(cfg, p, n, k);
    assert Handled(cfg, d, Batch([s], k)) == Desk(p, [s], d.held);
    assert [s][..0] + [s][1..] == [];
    assert s.symbol !in p.open;
  }

  lemma OneMoreDay(cfg: Config, es: seq<Event>, n: nat, k: nat) returns (more: seq<Event>)
    requires Filled(HandledAll(cfg, NEW_DESK, es), k) && RoutedBatches(es) && Recoveries(es) == 0
    requires (forall x | x in cfg.strategies :: |x| < n) && cfg.maxTradesPerDay > 0 && k < cfg.maxOpenPositions
    ensures Filled(HandledAll(cfg, NEW_DESK, more), k + 1) && RoutedBatches(more) && Recoveries(more) == 0
  {
    var batch := Batch([NewSignal(cfg, n, k)], k);
    EventAfter(cfg, es, batch);
    EventAfter(cfg, es + [batch], Place(0));
    DayAdds(cfg, HandledAll(cfg, NEW_DESK, es), n, k);
    more := es + [batch] + [Place(0)];
  }

  lemma {:induction false} DaysFill(cfg: Config, n: nat, k: nat) returns (es: seq<Event>)
    requires (forall x | x in cfg.strategies :: |x| < n) && cfg.maxTradesPerDay > 0 && k <= Max0(cfg.maxOpenPositions)
    ensures Filled(HandledAll(cfg, NEW_DESK, es), k) && RoutedBatches(es) && Recoveries(es) == 0
    decreases k
  {
    if k == 0 {
      es := [];
    } else {
      var before := DaysFill(cfg, n, k - 1);
      es := OneMoreDay(cfg, before, n, k - 1);
    }
  }

  lemma {:induction false} RecoverMore(cfg: Config, es: seq<Event>, r: nat) returns (more: seq<Event>)
    requires RoutedBatches(es)
    ensures RoutedBatches(more) && Recoveries(more) == Recoveries(es) + r
    ensures |HandledAll(cfg, NEW_DESK, more).held| == |HandledAll(cfg, NEW_DESK, es).held| + r
    decreases r
  {
    if r == 0 {
      more := es;
    } else {
      var before := RecoverMore(cfg, es, r - 1);
      EventAfter(cfg, before, Recover("x"));
      more := before + [Recover("x")];
    }
  }

  /** Fill the cap day by day, then recover: for every configuration a run meets the bound. */
  lemma BoundIsMet(cfg: Config, r: nat) returns (es: seq<Event>)
    ensures RoutedBatches(es) && Recoveries(es) == r
    ensures |HandledAll(cfg, NEW_DESK, es).held| == Countable(cfg) + r
  {
    if cfg.maxTradesPerDay > 0 {
      var n := LongerThanAll(cfg.strategies.Keys);
      es := DaysFill(cfg, n, Max0(cfg.maxOpenPositions));
    } else {
      es := [];
    }
    es := RecoverMore(cfg, es, r);
  }

  /** No run with at most `r` recovered positions ever has more than `n` positions open. */
  ghost predicate NeverMoreOpen(cfg: Config, r: nat, n: nat) {
    forall es | RoutedBatches(es) && Recoveries(es) <= r :: |HandledAll(cfg, NEW_DESK, es).held| <= n
  }

  /** The least bound on the positions really open. */
  lemma OpenBoundIsExact(cfg: Config, r: nat, n: nat)
    ensures NeverMoreOpen(cfg, r, n) <==> n >= Countable(cfg) + r
  {
    if n >= Countable(cfg) + r {
      forall es | RoutedBatches(es) && Recoveries(es) <= r ensures |HandledAll(cfg, NEW_DESK, es).held| <= n {
        HeldBound(cfg, es);
      }
    } else {
      var es := BoundIsMet(cfg, r);
    }
  }

  /**
    The cap bounds the positions really open in all runs with at most `r` recovered ones exactly when nothing is
    recovered, or when no trade is ever allowed and the cap has room for what is recovered.
   */
  lemma CapIsExact(cfg: Config, r: nat)
    ensures NeverMoreOpen(cfg, r, Max0(cfg.maxOpenPositions)) <==>
      r == 0 || (cfg.maxTradesPerDay <= 0 && r <= Max0(cfg.maxOpenPositions))
  {
    OpenBoundIsExact(cfg, r, Max0(cfg.maxOpenPositions));
  }
}
