/**
  What the portfolio manager returns and counts, told by the configuration and by the history of the desk: which signals
  of a batch are eligible, how many remain, and what the totals add up to.
 */
module PortfolioResults {
  import opened Wrappers
  import opened Signals
  import opened PortfolioManagement

  // ---- Who is eligible ----

  /**
    The strategy may trade this: it is not disabled, trades the pair, and is confident enough by its own threshold, or
    by the common one if it has none.
   */
  ghost predicate Tradable(cfg: Config, s: Signal) {
    && (s.strategy in cfg.strategies ==>
          && cfg.strategies[s.strategy].enabled
          && (|cfg.strategies[s.strategy].pairs| > 0 ==>
                exists i | 0 <= i < |cfg.strategies[s.strategy].pairs| ::
                  cfg.strategies[s.strategy].pairs[i] == s.symbol)
          && forall c | cfg.strategies[s.strategy].minConfidence == Some(c) :: s.confidence >= c)
    && (s.strategy !in cfg.strategies || cfg.strategies[s.strategy].minConfidence == None ==>
          s.confidence >= cfg.minConfidence)
  }

  lemma TradableMeans(cfg: Config, s: Signal)
    ensures StrategyAllowed(cfg, s) <==> Tradable(cfg, s)
  {
    if s.strategy in cfg.strategies {
      var c := cfg.strategies[s.strategy];
      if s.symbol in c.pairs {
        var i :| 0 <= i < |c.pairs| && c.pairs[i] == s.symbol;
      }
    }
  }

  /** Group `g` is the first one that lists the symbol. */
  ghost predicate FirstGroup(groups: seq<seq<string>>, symbol: string, g: nat) {
    g < |groups| && symbol in groups[g] && forall h | 0 <= h < g :: symbol !in groups[h]
  }

  /** The two symbols have first groups, with the same members. */
  ghost predicate SameGroup(groups: seq<seq<string>>, x: string, y: string) {
    exists g: nat, h: nat | FirstGroup(groups, x, g) && FirstGroup(groups, y, h) ::
      forall z :: z in groups[g] <==> z in groups[h]
  }

  lemma {:induction false} GroupOfFirst(groups: seq<seq<string>>, symbol: string, g: nat)
    requires FirstGroup(groups, symbol, g)
    ensures GroupOf(groups, symbol) == Some(set x | x in groups[g])
  {
    if g > 0 {
      assert symbol !in groups[0];
      GroupOfFirst(groups[1..], symbol, g - 1);
    }
  }

  lemma {:induction false} FirstGroupExists(groups: seq<seq<string>>, symbol: string) returns (g: nat)
    ensures GroupOf(groups, symbol).Some? ==> FirstGroup(groups, symbol, g)
  {
    if groups == [] || symbol in groups[0] {
      g := 0;
    } else {
      var rest := FirstGroupExists(groups[1..], symbol);
      g := rest + 1;
    }
  }

  /** The filter compares the first groups of two symbols. */
  lemma SameGroupMeans(groups: seq<seq<string>>, x: string, y: string)
    ensures SameGroup(groups, x, y) <==> GroupOf(groups, x).Some? && GroupOf(groups, x) == GroupOf(groups, y)
  {
    if SameGroup(groups, x, y) {
      var g: nat, h: nat :| FirstGroup(groups, x, g) && FirstGroup(groups, y, h)
        && forall z :: z in groups[g] <==> z in groups[h];
      GroupOfFirst(groups, x, g);
      GroupOfFirst(groups, y, h);
    }
    if GroupOf(groups, x).Some? && GroupOf(groups, x) == GroupOf(groups, y) {
      var g := FirstGroupExists(groups, x);
      var h := FirstGroupExists(groups, y);
      GroupOfFirst(groups, x, g);
      GroupOfFirst(groups, y, h);
      forall z ensures z in groups[g] <==> z in groups[h] {
        assert z in groups[g] <==> z in GroupOf(groups, x).value;
        assert z in groups[h] <==> z in GroupOf(groups, y).value;
      }
    }
  }

  /** The signal passes every test that looks at it alone. */
  ghost predicate PassesAlone(cfg: Config, p: Portfolio, s: Signal) {
    Tradable(cfg, s) && s.symbol !in p.open && s.confidence >= cfg.minConfidence
  }

  /** Both pass alone, and only one of them can stay. */
  ghost predicate Rivals(cfg: Config, s: Signal, t: Signal) {
    s.action == t.action && SameGroup(cfg.groups, s.symbol, t.symbol)
  }

  /** What the portfolio may still open, before the correlation filter. */
  function Unopened(cfg: Config, p: Portfolio, ss: seq<Signal>): (r: seq<Signal>)
    ensures forall s :: s in r <==> s in ss && StrategyAllowed(cfg, s) && s.symbol !in p.open
  {
    Filter((s: Signal) => s.symbol !in p.open, Filter((s: Signal) => StrategyAllowed(cfg, s), ss))
  }

  /** Without groups the eligible signals are exactly those that pass alone. */
  lemma EligibleWithoutGroups(cfg: Config, p: Portfolio, ss: seq<Signal>, s: Signal)
    requires cfg.groups == []
    ensures s in Eligible(cfg, p, ss) <==> s in ss && PassesAlone(cfg, p, s)
  {
    TradableMeans(cfg, s);
    assert s in Unopened(cfg, p, ss) <==> s in ss && StrategyAllowed(cfg, s) && s.symbol !in p.open;
  }

  /**
    With groups an eligible signal passes alone, and a signal that passes alone is not eligible exactly if an eligible
    one of its group and direction, at least as confident, took its place.
   */
  lemma EligibleWithGroups(cfg: Config, p: Portfolio, ss: seq<Signal>, s: Signal)
    requires cfg.groups != [] && s in ss
    ensures s in Eligible(cfg, p, ss) ==> PassesAlone(cfg, p, s)
    ensures PassesAlone(cfg, p, s) && s !in Eligible(cfg, p, ss) ==>
      exists t | t in Eligible(cfg, p, ss) :: Rivals(cfg, s, t) && t.confidence >= s.confidence
  {
    TradableMeans(cfg, s);
    var unopened := Unopened(cfg, p, ss);
    var ranked := Rank(unopened);
    RankMembers(unopened, s);
    KeepFirstMembers(cfg.groups, ranked, {});
    if PassesAlone(cfg, p, s) && s !in Eligible(cfg, p, ss) {
      assert s in unopened && unopened != [];
      assert s !in KeepFirst(cfg.groups, ranked, {});
      RankRanks(unopened);
      KeepFirstIsBest(cfg.groups, ranked, {});
      var t := RivalOf(cfg.groups, s, KeepFirst(cfg.groups, ranked, {}));
      SameGroupMeans(cfg.groups, s.symbol, t.symbol);
      assert t in Eligible(cfg, p, ss);
    }
  }

  lemma RivalOf(groups: seq<seq<string>>, s: Signal, r: seq<Signal>) returns (t: Signal)
    requires Outdone(groups, s, r, {}, true)
    ensures t in r && KeyOf(groups, t) == KeyOf(groups, s) && KeyOf(groups, s).Some? && t.confidence >= s.confidence
    ensures t.action == s.action && GroupOf(groups, s.symbol).Some?
    ensures GroupOf(groups, s.symbol) == GroupOf(groups, t.symbol)
  {
    t :| t in r && KeyOf(groups, t) == KeyOf(groups, s) && t.confidence >= s.confidence;
  }

  /** Of each group and direction one signal is eligible at most. */
  lemma EligibleAreNoRivals(cfg: Config, p: Portfolio, ss: seq<Signal>)
    requires cfg.groups != []
    ensures var all := Eligible(cfg, p, ss); forall i, j | 0 <= i < j < |all| :: !Rivals(cfg, all[i], all[j])
  {
    var filtered := CorrelationFilter(cfg, Unopened(cfg, p, ss));
    KeepFirstIsBest(cfg.groups, Rank(Unopened(cfg, p, ss)), {});
    assert OnePerKey(cfg.groups, filtered);
    FilterKeepsApart(cfg, (s: Signal) => s.confidence >= cfg.minConfidence, filtered);
  }

  ghost predicate NoRivals(cfg: Config, ss: seq<Signal>) {
    forall i, j | 0 <= i < j < |ss| :: !Rivals(cfg, ss[i], ss[j])
  }

  lemma {:induction false} FilterKeepsApart(cfg: Config, keep: Signal -> bool, ss: seq<Signal>)
    requires OnePerKey(cfg.groups, ss)
    ensures NoRivals(cfg, Filter(keep, ss))
  {
    if ss != [] {
      FilterKeepsApart(cfg, keep, ss[1..]);
      var rest := Filter(keep, ss[1..]);
      forall j | 0 <= j < |rest| ensures !Rivals(cfg, ss[0], rest[j]) {
        assert rest[j] in ss[1..];
        var i :| 1 <= i < |ss| && ss[i] == rest[j];
        SameGroupMeans(cfg.groups, ss[0].symbol, ss[i].symbol);
      }
    }
  }

  // ---- How many remain ----

  /** As many signals from the front as both caps have room for. */
  ghost predicate FillsRoom(cfg: Config, p: Portfolio, all: seq<Signal>, n: nat) {
    && n <= |all|
    && (n == 0 || (n <= cfg.maxTradesPerDay - p.tradesToday && n <= cfg.maxOpenPositions - |p.open|))
    && (n < |all| ==> n >= cfg.maxTradesPerDay - p.tradesToday || n >= cfg.maxOpenPositions - |p.open|)
  }

  lemma CappedFillsRoom(cfg: Config, p: Portfolio, all: seq<Signal>)
    ensures var n := |Capped(cfg, p, all)|; FillsRoom(cfg, p, all, n) && Capped(cfg, p, all) == all[..n]
  {
    CappedIsRoom(cfg, p, all);
  }

  lemma RankedPart(part: seq<Signal>)
    ensures |Rank(part)| == |part| && multiset(Rank(part)) == multiset(part) && Ranked(Rank(part))
  {
    RankRanks(part);
  }

  /**
    The result is ranked and has as many of the eligible signals, from the front, as both caps have room for: what is
    left of the trades of the day and of the open positions, or nothing when a cap is overrun.
   */
  lemma ResultSize(cfg: Config, p: Portfolio, ss: seq<Signal>)
    ensures var all, result := Eligible(cfg, p, ss), Evaluated(cfg, p, ss);
      && FillsRoom(cfg, p, all, |result|) && multiset(result) == multiset(all[..|result|]) && Ranked(result)
  {
    CappedFillsRoom(cfg, p, Eligible(cfg, p, ss));
    RankedPart(Capped(cfg, p, Eligible(cfg, p, ss)));
  }

  // ---- What the counters add up to ----

  function ResultsOf(es: seq<Event>): real {
    if es == [] then 0.0
    else ResultsOf(es[..|es| - 1]) + if es[|es| - 1].CloseSymbol? then es[|es| - 1].pnl else 0.0
  }

  predicate PlacesNow(d: Desk, e: Event) {
    e.Place? && e.index < |d.pending|
  }

  /** Event `k` places the latest result at its index. */
  ghost predicate Places(cfg: Config, d: Desk, es: seq<Event>, k: nat) {
    k < |es| && PlacesNow(HandledAll(cfg, d, es[..k]), es[k])
  }

  /** Event `k` places a signal for this symbol. */
  ghost predicate PlacesSymbol(cfg: Config, d: Desk, es: seq<Event>, k: nat, symbol: string) {
    Places(cfg, d, es, k) && HandledAll(cfg, d, es[..k]).pending[es[k].index].symbol == symbol
  }

  ghost function Placements(cfg: Config, d: Desk, es: seq<Event>): nat {
    if es == [] then 0
    else Placements(cfg, d, es[..|es| - 1]) + if Places(cfg, d, es, |es| - 1) then 1 else 0
  }

  /** The week and the month gain every result, whatever else happens. */
  lemma {:induction false} TotalsAreResults(cfg: Config, d: Desk, es: seq<Event>)
    ensures var p := HandledAll(cfg, d, es).portfolio;
      p.weekly == d.portfolio.weekly + ResultsOf(es) && p.monthly == d.portfolio.monthly + ResultsOf(es)
  {
    if es != [] {
      TotalsAreResults(cfg, d, es[..|es| - 1]);
    }
  }

  /** While no batch brings another date the day gains every result and counts every placement. */
  lemma {:induction false} DayGoesOn(cfg: Config, d: Desk, es: seq<Event>, today: int)
    requires d.portfolio.lastReset == Some(today)
    requires forall k | 0 <= k < |es| && es[k].Batch? :: es[k].today == today
    ensures var p := HandledAll(cfg, d, es).portfolio;
      && p.lastReset == Some(today) && p.daily == d.portfolio.daily + ResultsOf(es)
      && p.tradesToday == d.portfolio.tradesToday + Placements(cfg, d, es)
  {
    if es != [] {
      DayGoesOn(cfg, d, es[..|es| - 1], today);
      DayStep(cfg, HandledAll(cfg, d, es[..|es| - 1]), es[|es| - 1], today);
    }
  }

  lemma DayStep(cfg: Config, d: Desk, e: Event, today: int)
    requires d.portfolio.lastReset == Some(today) && (e.Batch? ==> e.today == today)
    ensures var p := Handled(cfg, d, e).portfolio;
      && p.lastReset == Some(today)
      && p.daily == d.portfolio.daily + (if e.CloseSymbol? then e.pnl else 0.0)
      && p.tradesToday == d.portfolio.tradesToday + if PlacesNow(d, e) then 1 else 0
  {
  }

  /** A batch on another date starts the day anew and leaves the rest of the counters alone. */
  lemma DayBegins(cfg: Config, d: Desk, signals: seq<Signal>, today: int)
    requires d.portfolio.lastReset != Some(today)
    ensures var p := Handled(cfg, d, Batch(signals, today)).portfolio;
      p == Portfolio(0, d.portfolio.open, Some(today), 0.0, d.portfolio.weekly, d.portfolio.monthly)
  {
  }

  /** From event `k` on the symbol is not closed. */
  ghost predicate NotClosed(es: seq<Event>, k: nat, symbol: string) {
    forall j | k <= j < |es| && es[j].CloseSymbol? :: es[j].symbol != symbol
  }

  /** Event `k` places the symbol, and it is not closed after that. */
  ghost predicate PlacedOpen(cfg: Config, d: Desk, es: seq<Event>, k: nat, symbol: string) {
    PlacesSymbol(cfg, d, es, k, symbol) && NotClosed(es, k + 1, symbol)
  }

  lemma PlacedOneMore(cfg: Config, d: Desk, es: seq<Event>, symbol: string, k: nat)
    requires es != [] && k < |es| - 1
    ensures PlacedOpen(cfg, d, es, k, symbol) <==>
      PlacedOpen(cfg, d, es[..|es| - 1], k, symbol)
      && !(es[|es| - 1].CloseSymbol? && es[|es| - 1].symbol == symbol)
  {
    assert es[..|es| - 1][..k] == es[..k];
    NotClosedOneMore(es, k + 1, symbol);
  }

  lemma OpenStep(cfg: Config, d: Desk, e: Event, symbol: string)
    ensures symbol in Handled(cfg, d, e).portfolio.open <==>
      || (PlacesNow(d, e) && d.pending[e.index].symbol == symbol)
      || (symbol in d.portfolio.open && !(e.CloseSymbol? && e.symbol == symbol))
  {
  }

  lemma NotClosedOneMore(es: seq<Event>, k: nat, symbol: string)
    requires k < |es|
    ensures NotClosed(es, k, symbol) <==>
      NotClosed(es[..|es| - 1], k, symbol) && !(es[|es| - 1].CloseSymbol? && es[|es| - 1].symbol == symbol)
  {
    var n := |es| - 1;
    if NotClosed(es, k, symbol) {
      forall j | k <= j < n && es[..n][j].CloseSymbol? ensures es[..n][j].symbol != symbol {
        assert es[j] == es[..n][j];
      }
    }
    if NotClosed(es[..n], k, symbol) {
      forall j | k <= j < n && es[j].CloseSymbol? ensures es[j].symbol != symbol {
        assert es[j] == es[..n][j];
      }
    }
  }

  ghost predicate EverPlacedOpen(cfg: Config, d: Desk, es: seq<Event>, symbol: string) {
    exists k: nat :: PlacedOpen(cfg, d, es, k, symbol)
  }

  /** One more event: it may place the symbol itself, and it may close what was placed before. */
  lemma PlacedWithOneMore(cfg: Config, d: Desk, es: seq<Event>, symbol: string)
    requires es != []
    ensures var n := |es| - 1;
      EverPlacedOpen(cfg, d, es, symbol) <==>
        || PlacesSymbol(cfg, d, es, n, symbol)
        || (EverPlacedOpen(cfg, d, es[..n], symbol) && !(es[n].CloseSymbol? && es[n].symbol == symbol))
  {
    var n := |es| - 1;
    if PlacesSymbol(cfg, d, es, n, symbol) {
      assert PlacedOpen(cfg, d, es, n, symbol);
    }
    if EverPlacedOpen(cfg, d, es, symbol) {
      var k: nat :| PlacedOpen(cfg, d, es, k, symbol);
      if k < n {
        PlacedOneMore(cfg, d, es, symbol, k);
      }
    }
    if EverPlacedOpen(cfg, d, es[..n], symbol) {
      var k: nat :| PlacedOpen(cfg, d, es[..n], k, symbol);
      PlacedOneMore(cfg, d, es, symbol, k);
    }
  }

  /** A symbol is open exactly if it was placed, or was open before, and was not closed since. */
  lemma {:induction false} OpenIsPlaced(cfg: Config, d: Desk, es: seq<Event>, symbol: string)
    ensures symbol in HandledAll(cfg, d, es).portfolio.open <==>
      || (symbol in d.portfolio.open && NotClosed(es, 0, symbol))
      || EverPlacedOpen(cfg, d, es, symbol)
  {
    if es != [] {
      var n := |es| - 1;
      OpenIsPlaced(cfg, d, es[..n], symbol);
      OpenStep(cfg, HandledAll(cfg, d, es[..n]), es[n], symbol);
      NotClosedOneMore(es, 0, symbol);
      PlacedWithOneMore(cfg, d, es, symbol);
    }
  }
}
