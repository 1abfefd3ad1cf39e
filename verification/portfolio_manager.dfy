/** The portfolio manager: which signals of a batch may be traded, and the counters its caps depend on. */
module PortfolioManagement {
  import opened Wrappers
  import opened Signals

  datatype StrategyConfig = StrategyConfig(enabled: bool, minConfidence: Option<real>, pairs: seq<string>)

  datatype Config = Config(
    maxTradesPerDay: int, maxOpenPositions: int, minConfidence: real,
    strategies: map<string, StrategyConfig>, groups: seq<seq<string>>)

  datatype Portfolio = Portfolio(
    tradesToday: nat, open: set<string>, lastReset: Option<int>, daily: real, weekly: real, monthly: real)

  function Max0(n: int): nat {
    if n < 0 then 0 else n
  }

  function Take(ss: seq<Signal>, n: nat): seq<Signal> {
    if |ss| <= n then ss else ss[..n]
  }

  predicate StrategyAllowed(cfg: Config, s: Signal) {
    var c := if s.strategy in cfg.strategies then cfg.strategies[s.strategy] else StrategyConfig(true, None, []);
    && c.enabled
    && s.confidence >= (if c.minConfidence.Some? then c.minConfidence.value else cfg.minConfidence)
    && (c.pairs == [] || s.symbol in c.pairs)
  }

  /** The first configured group that holds the symbol. */
  function GroupOf(groups: seq<seq<string>>, symbol: string): Option<set<string>> {
    if groups == [] then None
    else if symbol in groups[0] then Some(set x | x in groups[0])
    else GroupOf(groups[1..], symbol)
  }

  /** Drops every signal whose group and direction were seen before in the list. */
  function KeepFirst(groups: seq<seq<string>>, ss: seq<Signal>, seen: set<(set<string>, Action)>): seq<Signal> {
    if ss == [] then []
    else
      var g := GroupOf(groups, ss[0].symbol);
      if g.None? then [ss[0]] + KeepFirst(groups, ss[1..], seen)
      else
        var key := (g.value, ss[0].action);
        if key in seen then KeepFirst(groups, ss[1..], seen)
        else [ss[0]] + KeepFirst(groups, ss[1..], seen + {key})
  }

  function CorrelationFilter(cfg: Config, ss: seq<Signal>): seq<Signal> {
    if ss == [] || cfg.groups == [] then ss else KeepFirst(cfg.groups, Rank(ss), {})
  }

  function ForToday(p: Portfolio, today: int): Portfolio {
    if p.lastReset == Some(today) then p else p.(tradesToday := 0, daily := 0.0, lastReset := Some(today))
  }

  /** Everything that passes the filters, before the caps cut it off. */
  function Eligible(cfg: Config, p: Portfolio, ss: seq<Signal>): seq<Signal> {
    var allowed := Filter((s: Signal) => StrategyAllowed(cfg, s), ss);
    var unopened := Filter((s: Signal) => s.symbol !in p.open, allowed);
    Filter((s: Signal) => s.confidence >= cfg.minConfidence, CorrelationFilter(cfg, unopened))
  }

  function Capped(cfg: Config, p: Portfolio, eligible: seq<Signal>): seq<Signal> {
    Take(Take(eligible, Max0(cfg.maxTradesPerDay - p.tradesToday)), Max0(cfg.maxOpenPositions - |p.open|))
  }

  function Evaluated(cfg: Config, p: Portfolio, ss: seq<Signal>): seq<Signal> {
    Rank(Capped(cfg, p, Eligible(cfg, p, ss)))
  }

  function Traded(p: Portfolio, s: Signal): Portfolio {
    p.(tradesToday := p.tradesToday + 1, open := p.open + {s.symbol})
  }

  function ClosedOne(p: Portfolio, symbol: string, pnl: real): Portfolio {
    p.(open := p.open - {symbol}, daily := p.daily + pnl, weekly := p.weekly + pnl, monthly := p.monthly + pnl)
  }

  // ---- What an evaluation returns ----

  lemma {:induction false} KeepFirstMembers(groups: seq<seq<string>>, ss: seq<Signal>, seen: set<(set<string>, Action)>)
    ensures forall s | s in KeepFirst(groups, ss, seen) :: s in ss
  {
    if ss != [] {
      KeepFirstMembers(groups, ss[1..], seen);
      var g := GroupOf(groups, ss[0].symbol);
      if g.Some? {
        KeepFirstMembers(groups, ss[1..], seen + {(g.value, ss[0].action)});
      }
    }
  }

  lemma ConsKeeps(s: Signal, ss: seq<Signal>, rest: seq<Signal>)
    requires forall r | r in rest :: r in ss
    ensures Ranked([s] + ss) && Ranked(rest) ==> Ranked([s] + rest)
    ensures DistinctSymbols([s] + ss) && DistinctSymbols(rest) ==> DistinctSymbols([s] + rest)
  {
    forall i | 0 <= i < |rest|
      ensures Ranked([s] + ss) ==> s.confidence >= rest[i].confidence
      ensures DistinctSymbols([s] + ss) ==> s.symbol != rest[i].symbol
    {
      assert rest[i] in rest;
      var j :| 0 <= j < |ss| && ss[j] == rest[i];
      assert ([s] + ss)[0] == s && ([s] + ss)[j + 1] == rest[i];
    }
  }

  lemma {:induction false} KeepFirstKeeps(groups: seq<seq<string>>, ss: seq<Signal>, seen: set<(set<string>, Action)>)
    ensures var r := KeepFirst(groups, ss, seen);
      (Ranked(ss) ==> Ranked(r)) && (DistinctSymbols(ss) ==> DistinctSymbols(r))
  {
    if ss != [] {
      var g := GroupOf(groups, ss[0].symbol);
      var seen' := if g.None? || (g.value, ss[0].action) in seen then seen else seen + {(g.value, ss[0].action)};
      KeepFirstKeeps(groups, ss[1..], seen');
      KeepFirstMembers(groups, ss[1..], seen');
      assert ss == [ss[0]] + ss[1..];
      ConsKeeps(ss[0], ss[1..], KeepFirst(groups, ss[1..], seen'));
    }
  }

  lemma EligibleIsRanked(cfg: Config, p: Portfolio, ss: seq<Signal>)
    requires cfg.groups != [] || Ranked(ss)
    ensures Ranked(Eligible(cfg, p, ss))
  {
    var allowed := Filter((s: Signal) => StrategyAllowed(cfg, s), ss);
    var unopened := Filter((s: Signal) => s.symbol !in p.open, allowed);
    FilterKeeps((s: Signal) => StrategyAllowed(cfg, s), ss);
    FilterKeeps((s: Signal) => s.symbol !in p.open, allowed);
    RankRanks(unopened);
    KeepFirstKeeps(cfg.groups, Rank(unopened), {});
    FilterKeeps((s: Signal) => s.confidence >= cfg.minConfidence, CorrelationFilter(cfg, unopened));
  }

  /**
    With correlation groups configured, or a batch that is ranked already, no signal that a cap drops beats one that
    stays.
   */
  lemma CapsDropTheWorst(cfg: Config, p: Portfolio, ss: seq<Signal>, kept: Signal, i: nat)
    requires cfg.groups != [] || Ranked(ss)
    requires var all := Eligible(cfg, p, ss); |Evaluated(cfg, p, ss)| <= i < |all| && kept in Evaluated(cfg, p, ss)
    ensures Capped(cfg, p, Eligible(cfg, p, ss)) <= Eligible(cfg, p, ss)
    ensures Eligible(cfg, p, ss)[i].confidence <= kept.confidence
  {
    EligibleIsRanked(cfg, p, ss);
    CappedIsPrefix(cfg, p, Eligible(cfg, p, ss));
    PrefixBeatsTheRest(Eligible(cfg, p, ss), Capped(cfg, p, Eligible(cfg, p, ss)), kept, i);
  }

  lemma CappedIsPrefix(cfg: Config, p: Portfolio, all: seq<Signal>)
    ensures Capped(cfg, p, all) <= all
  {
  }

  lemma PrefixBeatsTheRest(all: seq<Signal>, prefix: seq<Signal>, kept: Signal, i: nat)
    requires Ranked(all) && prefix <= all && |Rank(prefix)| <= i < |all| && kept in Rank(prefix)
    ensures all[i].confidence <= kept.confidence
  {
    RankMembers(prefix, kept);
  }

  /** How many signals the caps leave room for. */
  function Room(cfg: Config, p: Portfolio): nat {
    var day, open := Max0(cfg.maxTradesPerDay - p.tradesToday), Max0(cfg.maxOpenPositions - |p.open|);
    if day < open then day else open
  }

  /** No signal that the caps drop from this batch is more confident than one that stays. */
  ghost predicate DropsTheWorst(cfg: Config, p: Portfolio, ss: seq<Signal>) {
    var all, kept := Eligible(cfg, p, ss), Evaluated(cfg, p, ss);
    forall s, i | s in kept && |kept| <= i < |all| :: all[i].confidence <= s.confidence
  }

  lemma {:induction false} FilterKeepsAll(keep: Signal -> bool, ss: seq<Signal>)
    requires forall s | s in ss :: keep(s)
    ensures Filter(keep, ss) == ss
  {
    if ss != [] {
      FilterKeepsAll(keep, ss[1..]);
    }
  }

  lemma {:induction false} LongerThanAll(names: set<string>) returns (n: nat)
    ensures forall x | x in names :: |x| < n
  {
    if names == {} {
      n := 0;
    } else {
      var x :| x in names;
      n := LongerThanAll(names - {x});
      n := if n > |x| then n else |x| + 1;
    }
  }

  /**
    A batch of signals that differ in symbol alone, all of them long names, but for the last one, which is the best.
   */
  function LateBest(n: nat, room: nat, confidence: real): (ss: seq<Signal>)
    ensures |ss| == room + 1
    ensures forall i | 0 <= i <= room :: |ss[i].strategy| == n && |ss[i].symbol| == n + i
    ensures forall i | 0 <= i <= room :: ss[i].confidence == if i < room then confidence else confidence + 1.0
  {
    seq(room + 1, i requires 0 <= i <= room =>
      Signal(seq(n, j => 'x'), seq(n + i, j => 'x'), BUY, 1.0, 0.5, 2.0,
             if i < room then confidence else confidence + 1.0, None, 300))
  }

  lemma CappedIsRoom(cfg: Config, p: Portfolio, all: seq<Signal>)
    ensures Capped(cfg, p, all) == Take(all, Room(cfg, p))
  {
  }

  lemma LateBestIsEligible(cfg: Config, p: Portfolio, n: nat)
    requires cfg.groups == [] && forall x | x in cfg.strategies.Keys + p.open :: |x| < n
    ensures var ss := LateBest(n, Room(cfg, p), cfg.minConfidence); DistinctSymbols(ss) && Eligible(cfg, p, ss) == ss
  {
    var ss := LateBest(n, Room(cfg, p), cfg.minConfidence);
    forall s | s in ss ensures StrategyAllowed(cfg, s) && s.symbol !in p.open && s.confidence >= cfg.minConfidence {
      var i :| 0 <= i < |ss| && ss[i] == s;
      assert s.strategy !in cfg.strategies;
    }
    FilterKeepsAll((s: Signal) => StrategyAllowed(cfg, s), ss);
    FilterKeepsAll((s: Signal) => s.symbol !in p.open, ss);
    FilterKeepsAll((s: Signal) => s.confidence >= cfg.minConfidence, ss);
  }

  /**
    Without groups, wherever the caps leave room, a batch of new and distinct symbols exists whose best signal is
    dropped.
   */
  lemma UnrankedBatchLosesItsBest(cfg: Config, p: Portfolio) returns (ss: seq<Signal>)
    requires cfg.groups == [] && Room(cfg, p) > 0
    ensures DistinctSymbols(ss) && (forall s | s in ss :: s.symbol !in p.open) && !DropsTheWorst(cfg, p, ss)
  {
    var room := Room(cfg, p);
    var n := LongerThanAll(cfg.strategies.Keys + p.open);
    ss := LateBest(n, room, cfg.minConfidence);
    LateBestIsEligible(cfg, p, n);
    forall s | s in ss ensures s.symbol !in p.open { }
    CappedIsRoom(cfg, p, ss);
    assert Evaluated(cfg, p, ss) == Rank(ss[..room]);
    RankMembers(ss[..room], ss[0]);
    assert ss[..room][0] == ss[0];
    assert ss[room].confidence > ss[0].confidence;
  }

  /**
    The caps never drop a better signal than they keep, whatever the batch, exactly with groups or without any room.
   */
  lemma CapsAreExact(cfg: Config, p: Portfolio)
    ensures (forall ss | DistinctSymbols(ss) :: DropsTheWorst(cfg, p, ss)) <==> cfg.groups != [] || Room(cfg, p) == 0
  {
    if cfg.groups != [] || Room(cfg, p) == 0 {
      forall ss | DistinctSymbols(ss) ensures DropsTheWorst(cfg, p, ss) {
        CappedIsRoom(cfg, p, Eligible(cfg, p, ss));
        forall s, i | s in Evaluated(cfg, p, ss) && |Evaluated(cfg, p, ss)| <= i < |Eligible(cfg, p, ss)|
          ensures Eligible(cfg, p, ss)[i].confidence <= s.confidence
        {
          if cfg.groups != [] {
            CapsDropTheWorst(cfg, p, ss, s, i);
          }
        }
      }
    } else {
      var ss := UnrankedBatchLosesItsBest(cfg, p);
    }
  }

  /** The result keeps the symbols of a batch distinct and names none that is open. */
  lemma EvaluatedSymbols(cfg: Config, p: Portfolio, ss: seq<Signal>)
    requires DistinctSymbols(ss)
    ensures DistinctSymbols(Evaluated(cfg, p, ss))
    ensures forall s | s in Evaluated(cfg, p, ss) :: s in ss && s.symbol !in p.open
  {
    EligibleKeepsDistinct(cfg, p, ss);
    CappedIsPrefix(cfg, p, Eligible(cfg, p, ss));
    RankKeepsDistinct(Capped(cfg, p, Eligible(cfg, p, ss)));
    forall s | s in Evaluated(cfg, p, ss) ensures s in ss && s.symbol !in p.open {
      RankMembers(Capped(cfg, p, Eligible(cfg, p, ss)), s);
      EligibleMembers(cfg, p, ss, s);
    }
  }

  lemma EligibleKeepsDistinct(cfg: Config, p: Portfolio, ss: seq<Signal>)
    requires DistinctSymbols(ss)
    ensures DistinctSymbols(Eligible(cfg, p, ss))
  {
    var allowed := Filter((s: Signal) => StrategyAllowed(cfg, s), ss);
    var unopened := Filter((s: Signal) => s.symbol !in p.open, allowed);
    FilterKeeps((s: Signal) => StrategyAllowed(cfg, s), ss);
    FilterKeeps((s: Signal) => s.symbol !in p.open, allowed);
    RankKeepsDistinct(unopened);
    KeepFirstKeeps(cfg.groups, Rank(unopened), {});
    FilterKeeps((s: Signal) => s.confidence >= cfg.minConfidence, CorrelationFilter(cfg, unopened));
  }

  lemma EligibleMembers(cfg: Config, p: Portfolio, ss: seq<Signal>, s: Signal)
    requires s in Eligible(cfg, p, ss)
    ensures s in ss && s.symbol !in p.open
  {
    var unopened := Filter((s: Signal) => s.symbol !in p.open, Filter((s: Signal) => StrategyAllowed(cfg, s), ss));
    assert s in CorrelationFilter(cfg, unopened);
    KeepFirstMembers(cfg.groups, Rank(unopened), {});
    RankMembers(unopened, s);
  }

  // ---- What the correlation filter keeps ----

  /** The first group of the symbol, with the direction; what the filter compares. */
  function KeyOf(groups: seq<seq<string>>, s: Signal): Option<(set<string>, Action)> {
    var g := GroupOf(groups, s.symbol);
    if g.None? then None else Some((g.value, s.action))
  }

  ghost predicate OnePerKey(groups: seq<seq<string>>, r: seq<Signal>) {
    forall i, j | 0 <= i < j < |r| && KeyOf(groups, r[i]).Some? :: KeyOf(groups, r[i]) != KeyOf(groups, r[j])
  }

  /**
    A dropped signal had its key seen before, or a kept signal has the same key and is no less confident if that is
    asked for.
   */
  ghost predicate Outdone(groups: seq<seq<string>>, s: Signal, r: seq<Signal>, seen: set<(set<string>, Action)>,
                          ranked: bool)
  {
    var key := KeyOf(groups, s);
    && key.Some?
    && (key.value in seen
        || exists t | t in r :: KeyOf(groups, t) == key && (ranked ==> t.confidence >= s.confidence))
  }

  /** Of each key the filter keeps one signal, and in a ranked list no other signal of that key is more confident. */
  lemma {:induction false} KeepFirstIsBest(groups: seq<seq<string>>, ss: seq<Signal>, seen: set<(set<string>, Action)>)
    ensures var r := KeepFirst(groups, ss, seen);
      && OnePerKey(groups, r)
      && (forall s | s in r && KeyOf(groups, s).Some? :: KeyOf(groups, s).value !in seen)
      && (forall s | s in ss && s !in r :: Outdone(groups, s, r, seen, Ranked(ss)))
  {
    if ss != [] {
      var first, rest := ss[0], ss[1..];
      var key := KeyOf(groups, first);
      var seen' := if key.None? || key.value in seen then seen else seen + {key.value};
      KeepFirstIsBest(groups, rest, seen');
      var r, r' := KeepFirst(groups, ss, seen), KeepFirst(groups, rest, seen');
      assert Ranked(ss) ==> Ranked(rest);
      KeepFirstMembers(groups, rest, seen');
      assert r == if key.Some? && key.value in seen then r' else [first] + r';
      forall s | s in ss && s !in r ensures Outdone(groups, s, r, seen, Ranked(ss)) {
        KeepFirstDrops(groups, ss, seen, s);
      }
    }
  }

  lemma KeepFirstDrops(groups: seq<seq<string>>, ss: seq<Signal>, seen: set<(set<string>, Action)>, s: Signal)
    requires ss != [] && s in ss && s !in KeepFirst(groups, ss, seen)
    requires var key := KeyOf(groups, ss[0]);
      var seen' := if key.None? || key.value in seen then seen else seen + {key.value};
      var r' := KeepFirst(groups, ss[1..], seen');
      s in ss[1..] && s !in r' ==> Outdone(groups, s, r', seen', Ranked(ss[1..]))
    ensures Outdone(groups, s, KeepFirst(groups, ss, seen), seen, Ranked(ss))
  {
    var first, rest, r := ss[0], ss[1..], KeepFirst(groups, ss, seen);
    var key := KeyOf(groups, first);
    assert Ranked(ss) ==> Ranked(rest);
    if s != first {
      assert s in rest;
      assert Ranked(ss) ==> first.confidence >= s.confidence;
      if KeyOf(groups, s) == key && first in r {
        assert Outdone(groups, s, r, seen, Ranked(ss));
      }
    }
  }

  ghost predicate Share(groups: seq<seq<string>>, x: string, y: string) {
    exists g | g in groups :: x in g && y in g
  }

  /** Every symbol meets the others of all its groups in its first group. */
  ghost predicate FirstGroupsDecide(groups: seq<seq<string>>) {
    forall x, y :: Share(groups, x, y) ==> GroupOf(groups, x) == GroupOf(groups, y)
  }

  ghost predicate OnePerGroup(groups: seq<seq<string>>, r: seq<Signal>) {
    forall i, j | 0 <= i < j < |r| && r[i].action == r[j].action :: !Share(groups, r[i].symbol, r[j].symbol)
  }

  lemma {:induction false} MembersHaveGroup(groups: seq<seq<string>>, x: string)
    requires exists g | g in groups :: x in g
    ensures GroupOf(groups, x).Some?
  {
    if x !in groups[0] {
      var g :| g in groups && x in g;
      assert g in groups[1..];
      MembersHaveGroup(groups[1..], x);
    }
  }

  lemma OverlapKeepsTwo(groups: seq<seq<string>>, x: string, y: string) returns (ss: seq<Signal>)
    requires Share(groups, x, y) && GroupOf(groups, x) != GroupOf(groups, y)
    ensures !OnePerGroup(groups, KeepFirst(groups, Rank(ss), {}))
  {
    var a := Signal("s", x, BUY, 1.0, 0.5, 2.0, 0.7, None, 300);
    var b := a.(symbol := y);
    ss := [a, b];
    assert ss[1..] == [b] && [b][1..] == [];
    assert Rank([b]) == [b] && Rank(ss) == ss;
    var key, r := KeyOf(groups, a), KeepFirst(groups, ss, {});
    var none: set<(set<string>, Action)> := {};
    var seen := if key.None? then none else none + {key.value};
    assert KeyOf(groups, b).None? || KeyOf(groups, b).value !in seen;
    assert KeepFirst(groups, [b], seen) == [b];
    assert r == [a] + KeepFirst(groups, [b], seen);
    assert r[0].action == r[1].action && Share(groups, r[0].symbol, r[1].symbol);
  }

  /**
    One signal for each group and direction remains, whatever the batch, exactly when overlaps of groups do not matter.
   */
  lemma FilterSeparatesGroups(groups: seq<seq<string>>)
    ensures (forall ss: seq<Signal> :: OnePerGroup(groups, KeepFirst(groups, Rank(ss), {})))
      <==> FirstGroupsDecide(groups)
  {
    if FirstGroupsDecide(groups) {
      forall ss: seq<Signal> ensures OnePerGroup(groups, KeepFirst(groups, Rank(ss), {})) {
        KeepFirstIsBest(groups, Rank(ss), {});
        KeysSeparate(groups, KeepFirst(groups, Rank(ss), {}));
      }
    } else {
      var x, y :| Share(groups, x, y) && GroupOf(groups, x) != GroupOf(groups, y);
      var ss := OverlapKeepsTwo(groups, x, y);
    }
  }

  lemma KeysSeparate(groups: seq<seq<string>>, r: seq<Signal>)
    requires OnePerKey(groups, r) && FirstGroupsDecide(groups)
    ensures OnePerGroup(groups, r)
  {
    forall i, j | 0 <= i < j < |r| && r[i].action == r[j].action ensures !Share(groups, r[i].symbol, r[j].symbol) {
      if Share(groups, r[i].symbol, r[j].symbol) {
        MembersHaveGroup(groups, r[i].symbol);
      }
    }
  }

  // ---- The caps over a whole run ----

  /**
    What happens to a desk: a batch is evaluated, one of the latest results is placed, a position closes, and
    recovery finds a position open that the counters were never told about.
   */
  datatype Event =
    | Batch(signals: seq<Signal>, today: int)
    | Place(index: nat)
    | CloseSymbol(symbol: string, pnl: real)
    | Recover(symbol: string)

  /** The counters, the latest result, and the positions really open, by symbol. */
  datatype Desk = Desk(portfolio: Portfolio, pending: seq<Signal>, held: multiset<string>)

  /** Placing removes the signal from the latest result; a place that does not exist changes nothing. */
  function Handled(cfg: Config, d: Desk, e: Event): Desk {
    match e
    case Batch(signals, today) =>
      var p := ForToday(d.portfolio, today);
      d.(portfolio := p, pending := Evaluated(cfg, p, signals))
    case Place(i) =>
      if i < |d.pending| then
        Desk(Traded(d.portfolio, d.pending[i]), d.pending[..i] + d.pending[i + 1..],
             d.held + multiset{d.pending[i].symbol})
      else d
    case CloseSymbol(symbol, pnl) =>
      d.(portfolio := ClosedOne(d.portfolio, symbol, pnl), held := d.held - multiset{symbol})
    case Recover(symbol) => d.(held := d.held + multiset{symbol})
  }

  function HandledAll(cfg: Config, d: Desk, es: seq<Event>): Desk {
    if es == [] then d else Handled(cfg, HandledAll(cfg, d, es[..|es| - 1]), es[|es| - 1])
  }

  /** There is room for everything that is still pending. */
  predicate WithinCaps(cfg: Config, d: Desk) {
    && |d.portfolio.open| + |d.pending| <= Max0(cfg.maxOpenPositions)
    && d.portfolio.tradesToday + |d.pending| <= Max0(cfg.maxTradesPerDay)
  }

  lemma RemovalShrinks(open: set<string>, symbol: string)
    ensures |open - {symbol}| <= |open|
  {
    if symbol !in open {
      assert open - {symbol} == open;
    }
  }

  lemma EventKeepsCaps(cfg: Config, d: Desk, e: Event)
    requires WithinCaps(cfg, d)
    ensures WithinCaps(cfg, Handled(cfg, d, e))
  {
    if e.CloseSymbol? {
      RemovalShrinks(d.portfolio.open, e.symbol);
    }
  }

  /** Over every run in which only results of the latest evaluation are placed, no counter ever exceeds its cap. */
  lemma {:induction false} CapsHold(cfg: Config, d: Desk, es: seq<Event>)
    requires WithinCaps(cfg, d)
    ensures WithinCaps(cfg, HandledAll(cfg, d, es))
    ensures |HandledAll(cfg, d, es).portfolio.open| <= Max0(cfg.maxOpenPositions)
    ensures HandledAll(cfg, d, es).portfolio.tradesToday <= Max0(cfg.maxTradesPerDay)
  {
    if es != [] {
      CapsHold(cfg, d, es[..|es| - 1]);
      EventKeepsCaps(cfg, HandledAll(cfg, d, es[..|es| - 1]), es[|es| - 1]);
    }
  }

  /** One turn of the filter: what is approved so far and what is still to come. */
  lemma KeepFirstStep(groups: seq<seq<string>>, ranked: seq<Signal>, i: nat, seen: set<(set<string>, Action)>,
                      approved: seq<Signal>)
    requires i < |ranked|
    ensures var g := GroupOf(groups, ranked[i].symbol);
      var drop := g.Some? && (g.value, ranked[i].action) in seen;
      var seen' := if g.Some? then seen + {(g.value, ranked[i].action)} else seen;
      approved + KeepFirst(groups, ranked[i..], seen)
        == (if drop then approved else approved + [ranked[i]])
          + KeepFirst(groups, ranked[i + 1..], if drop then seen else seen')
  {
    assert ranked[i..][1..] == ranked[i + 1..];
    var g := GroupOf(groups, ranked[i].symbol);
    var seen' := if g.Some? then seen + {(g.value, ranked[i].action)} else seen;
    var rest := KeepFirst(groups, ranked[i + 1..], seen');
    assert approved + ([ranked[i]] + rest) == approved + [ranked[i]] + rest;
  }

  class PortfolioManager {
    const config: Config
    var tradesToday: nat
    var openSymbols: set<string>
    var lastReset: Option<int>
    var daily: real
    var weekly: real
    var monthly: real

    constructor (config: Config)
      ensures this.config == config && View() == Portfolio(0, {}, None, 0.0, 0.0, 0.0)
    {
      this.config := config;
      tradesToday, openSymbols, lastReset := 0, {}, None;
      daily, weekly, monthly := 0.0, 0.0, 0.0;
    }

    function View(): Portfolio
      reads this
    {
      Portfolio(tradesToday, openSymbols, lastReset, daily, weekly, monthly)
    }

    method MaybeResetDaily(today: int)
      modifies this
      ensures View() == ForToday(old(View()), today)
    {
      if lastReset != Some(today) {
        tradesToday, daily, lastReset := 0, 0.0, Some(today);
      }
    }

    method ApplyCorrelationFilter(ss: seq<Signal>) returns (approved: seq<Signal>)
      ensures approved == CorrelationFilter(config, ss)
    {
      if ss == [] || config.groups == [] {
        return ss;
      }
      approved := [];
      var seen: set<(set<string>, Action)> := {};
      var ranked := Rank(ss);
      for i := 0 to |ranked|
        invariant KeepFirst(config.groups, ranked, {}) == approved + KeepFirst(config.groups, ranked[i..], seen)
      {
        var g := GroupOf(config.groups, ranked[i].symbol);
        KeepFirstStep(config.groups, ranked, i, seen, approved);
        if g.None? {
          approved := approved + [ranked[i]];
        } else if (g.value, ranked[i].action) !in seen {
          seen := seen + {(g.value, ranked[i].action)};
          approved := approved + [ranked[i]];
        }
      }
    }

    method Evaluate(ss: seq<Signal>, today: int) returns (approved: seq<Signal>)
      modifies this
      ensures View() == ForToday(old(View()), today)
      ensures approved == Evaluated(config, View(), ss)
    {
      MaybeResetDaily(today);
      approved := FilterEligible(ss);
      approved := Take(approved, Max0(config.maxTradesPerDay - tradesToday));
      approved := Take(approved, Max0(config.maxOpenPositions - |openSymbols|));
      approved := Rank(approved);
    }

    /** The four filters in front of the caps. */
    method FilterEligible(ss: seq<Signal>) returns (eligible: seq<Signal>)
      ensures eligible == Eligible(config, View(), ss)
    {
      var cfg, p := config, View();
      eligible := Filter((s: Signal) => StrategyAllowed(cfg, s), ss);
      eligible := Filter((s: Signal) => s.symbol !in p.open, eligible);
      eligible := ApplyCorrelationFilter(eligible);
      eligible := Filter((s: Signal) => s.confidence >= cfg.minConfidence, eligible);
    }

    /** Takes over a saved state. */
    method LoadState(p: Portfolio)
      modifies this
      ensures View() == p
    {
      tradesToday, openSymbols, lastReset := p.tradesToday, p.open, p.lastReset;
      daily, weekly, monthly := p.daily, p.weekly, p.monthly;
    }

    method RecordTrade(s: Signal)
      modifies this
      ensures View() == Traded(old(View()), s)
    {
      tradesToday := tradesToday + 1;
      openSymbols := openSymbols + {s.symbol};
    }

    method RecordClose(symbol: string, pnl: real)
      modifies this
      ensures View() == ClosedOne(old(View()), symbol, pnl)
    {
      openSymbols := openSymbols - {symbol};
      daily, weekly, monthly := daily + pnl, weekly + pnl, monthly + pnl;
    }
  }
}
