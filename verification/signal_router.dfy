/** The signal router: validity, conflicts within a symbol, and the ranking of what remains. */
module SignalRouting {
  import opened Wrappers
  import opened Signals

  /** Required fields, time to live, and the geometry of stop and target. */
  predicate IsValid(s: Signal, now: int) {
    && s.symbol != "" && s.action != UNKNOWN && s.entry > 0.0
    && s.timestamp.Some? && now - s.timestamp.value <= s.ttl
    && match s.action
       case CLOSE => true
       case BUY => s.stopLoss < s.entry < s.takeProfit
       case _ => s.takeProfit < s.entry < s.stopLoss
  }

  datatype Reason =
    | MissingSymbol | InvalidAction | InvalidEntry | NoTimestamp | Expired | StopOnWrongSide | TargetOnWrongSide

  /** Why a signal is rejected, by the first check that it fails; none when it is valid. */
  function Validate(s: Signal, now: int): (reason: Option<Reason>)
    ensures reason == None <==> IsValid(s, now)
  {
    if s.symbol == "" then Some(MissingSymbol)
    else if s.action == UNKNOWN then Some(InvalidAction)
    else if s.entry <= 0.0 then Some(InvalidEntry)
    else if s.timestamp == None then Some(NoTimestamp)
    else if now - s.timestamp.value > s.ttl then Some(Expired)
    else if s.action == CLOSE then None
    else if s.action == BUY then
      if s.stopLoss >= s.entry then Some(StopOnWrongSide)
      else if s.takeProfit <= s.entry then Some(TargetOnWrongSide)
      else None
    else
      if s.stopLoss <= s.entry then Some(StopOnWrongSide)
      else if s.takeProfit >= s.entry then Some(TargetOnWrongSide)
      else None
  }

  /** What a price move in the direction of the signal counts for. */
  function Side(a: Action): real {
    if a == BUY then 1.0 else if a == SELL then -1.0 else 0.0
  }

  /**
    A valid signal names a symbol and an action, has a price, and has not outlived its time; unless it closes, the stop
    risks something and the target gains something.
   */
  ghost predicate Sound(s: Signal, now: int) {
    && |s.symbol| > 0 && s.action in {BUY, SELL, CLOSE} && s.entry > 0.0
    && (exists t :: s.timestamp == Some(t) && now <= t + s.ttl)
    && (s.action != CLOSE ==>
          Side(s.action) * (s.stopLoss - s.entry) < 0.0 && Side(s.action) * (s.takeProfit - s.entry) > 0.0)
  }

  lemma ValidMeansSound(s: Signal, now: int)
    ensures IsValid(s, now) <==> Sound(s, now)
    ensures Validate(s, now) == None <==> Sound(s, now)
  {
    match s.action
    case BUY =>
      assert Side(BUY) * (s.stopLoss - s.entry) == s.stopLoss - s.entry;
      assert Side(BUY) * (s.takeProfit - s.entry) == s.takeProfit - s.entry;
    case SELL =>
      assert Side(SELL) * (s.stopLoss - s.entry) == s.entry - s.stopLoss;
      assert Side(SELL) * (s.takeProfit - s.entry) == s.entry - s.takeProfit;
    case _ =>
    if s.timestamp.Some? {
      assert s.timestamp == Some(s.timestamp.value);
    }
  }

  predicate Conflicted(ss: seq<Signal>, symbol: string) {
    && (exists s | s in ss :: s.symbol == symbol && s.action == BUY)
    && (exists s | s in ss :: s.symbol == symbol && s.action == SELL)
  }

  /** The signals of one symbol, in the order of the batch. */
  function OfSymbol(ss: seq<Signal>, symbol: string): seq<Signal> {
    Filter((s: Signal) => s.symbol == symbol, ss)
  }

  /** `s` is the first of the most confident signals of the group. */
  ghost predicate IsFirstBest(group: seq<Signal>, s: Signal) {
    exists i | 0 <= i < |group| :: group[i] == s
      && (forall j | 0 <= j < i :: group[j].confidence < s.confidence)
      && (forall j | 0 <= j < |group| :: group[j].confidence <= s.confidence)
  }

  /** `s` is the first of the most confident signals of its symbol. */
  ghost predicate IsBest(ss: seq<Signal>, s: Signal) {
    IsFirstBest(OfSymbol(ss, s.symbol), s)
  }

  /** What resolving the conflicts of a batch yields: each symbol without a conflict, once, by its best signal. */
  ghost predicate Resolves(ss: seq<Signal>, r: seq<Signal>) {
    && DistinctSymbols(r)
    && (forall s | s in r :: IsBest(ss, s) && !Conflicted(ss, s.symbol))
    && (forall s | s in ss && !Conflicted(ss, s.symbol) :: exists t | t in r :: t.symbol == s.symbol)
  }

  /** The signals of each symbol, and the symbols in the order in which they first occur. */
  ghost predicate GroupsOf(ss: seq<Signal>, groups: map<string, seq<Signal>>, order: seq<string>) {
    && (forall i, j | 0 <= i < j < |order| :: order[i] != order[j])
    && (forall x :: x in order <==> x in groups)
    && (forall x | x in groups :: groups[x] == OfSymbol(ss, x) != [])
    && (forall s | s in ss :: s.symbol in groups)
  }

  lemma OfSymbolLast(ss: seq<Signal>, s: Signal, symbol: string)
    ensures OfSymbol(ss + [s], symbol) == OfSymbol(ss, symbol) + if s.symbol == symbol then [s] else []
  {
    FilterLast((t: Signal) => t.symbol == symbol, ss, s);
  }

  lemma {:induction false} NoneOfSymbol(ss: seq<Signal>, symbol: string)
    requires forall t | t in ss :: t.symbol != symbol
    ensures OfSymbol(ss, symbol) == []
  {
    if ss != [] {
      assert ss[0] in ss;
      NoneOfSymbol(ss[1..], symbol);
    }
  }

  /** One more signal joins the group of its symbol or starts one. */
  lemma GroupOneMore(ss: seq<Signal>, groups: map<string, seq<Signal>>, order: seq<string>, s: Signal)
    requires GroupsOf(ss, groups, order)
    ensures if s.symbol in groups then GroupsOf(ss + [s], groups[s.symbol := groups[s.symbol] + [s]], order)
            else GroupsOf(ss + [s], groups[s.symbol := [s]], order + [s.symbol])
  {
    forall x ensures OfSymbol(ss + [s], x) == OfSymbol(ss, x) + if s.symbol == x then [s] else [] {
      OfSymbolLast(ss, s, x);
    }
    if s.symbol !in groups {
      NoneOfSymbol(ss, s.symbol);
    }
  }

  method GroupBySymbol(ss: seq<Signal>) returns (groups: map<string, seq<Signal>>, order: seq<string>)
    ensures GroupsOf(ss, groups, order)
  {
    groups, order := map[], [];
    for i := 0 to |ss|
      invariant GroupsOf(ss[..i], groups, order)
    {
      var s := ss[i];
      assert ss[..i + 1] == ss[..i] + [s];
      GroupOneMore(ss[..i], groups, order, s);
      if s.symbol in groups {
        groups := groups[s.symbol := groups[s.symbol] + [s]];
      } else {
        groups := groups[s.symbol := [s]];
        order := order + [s.symbol];
      }
    }
    assert ss[..|ss|] == ss;
  }

  /** The first of the most confident signals. */
  method Best(group: seq<Signal>) returns (best: Signal)
    requires group != []
    ensures best in group && IsFirstBest(group, best)
  {
    best := group[0];
    ghost var at := 0;
    for i := 1 to |group|
      invariant 0 <= at < i && group[at] == best
      invariant forall j | 0 <= j < at :: group[j].confidence < best.confidence
      invariant forall j | 0 <= j < i :: group[j].confidence <= best.confidence
    {
      if group[i].confidence > best.confidence {
        best, at := group[i], i;
      }
    }
  }

  /** A conflict shows within the group of the symbol. */
  lemma ConflictInGroup(ss: seq<Signal>, symbol: string)
    ensures var group := OfSymbol(ss, symbol);
      Conflicted(ss, symbol) <==>
        (exists s | s in group :: s.action == BUY) && (exists s | s in group :: s.action == SELL)
  {
    forall s ensures s in OfSymbol(ss, symbol) <==> s in ss && s.symbol == symbol { }
  }

  /** The conflicts among the symbols `done` are resolved. */
  ghost predicate ResolvesSome(ss: seq<Signal>, done: seq<string>, r: seq<Signal>) {
    && DistinctSymbols(r)
    && (forall s | s in r :: s.symbol in done && IsBest(ss, s) && !Conflicted(ss, s.symbol))
    && (forall x | x in done && !Conflicted(ss, x) :: exists t | t in r :: t.symbol == x)
  }

  lemma ResolveOneMore(ss: seq<Signal>, done: seq<string>, x: string, r: seq<Signal>, best: Option<Signal>)
    requires ResolvesSome(ss, done, r) && x !in done
    requires if Conflicted(ss, x) then best.None? else best.Some? && best.value.symbol == x && IsBest(ss, best.value)
    ensures ResolvesSome(ss, done + [x], if best.Some? then r + [best.value] else r)
  {
    if best.Some? {
      var r' := r + [best.value];
      forall y | y in done + [x] && !Conflicted(ss, y) ensures exists t | t in r' :: t.symbol == y {
        if y == x {
          assert best.value in r';
        } else {
          var t :| t in r && t.symbol == y;
          assert t in r';
        }
      }
    }
  }

  lemma ResolvesAll(ss: seq<Signal>, groups: map<string, seq<Signal>>, order: seq<string>, r: seq<Signal>)
    requires GroupsOf(ss, groups, order) && ResolvesSome(ss, order, r)
    ensures Resolves(ss, r)
  {
    forall s | s in ss && !Conflicted(ss, s.symbol) ensures exists t | t in r :: t.symbol == s.symbol {
      assert s.symbol in order;
    }
  }

  method ResolveConflicts(ss: seq<Signal>) returns (approved: seq<Signal>)
    ensures Resolves(ss, approved)
  {
    var groups, order := GroupBySymbol(ss);
    approved := [];
    for i := 0 to |order|
      invariant ResolvesSome(ss, order[..i], approved)
    {
      var x := order[i];
      assert x in order && x !in order[..i] && order[..i + 1] == order[..i] + [x];
      var group := groups[x];
      ConflictInGroup(ss, x);
      if (exists s: Signal | s in group :: s.action == BUY) && (exists s: Signal | s in group :: s.action == SELL) {
        ResolveOneMore(ss, order[..i], x, approved, None);
      } else {
        var best := Best(group);
        assert best.symbol == x;
        ResolveOneMore(ss, order[..i], x, approved, Some(best));
        approved := approved + [best];
      }
    }
    assert order[..|order|] == order;
    ResolvesAll(ss, groups, order, approved);
  }

  method ValidOnes(ss: seq<Signal>, now: int) returns (valid: seq<Signal>)
    ensures valid == Filter((s: Signal) => IsValid(s, now), ss)
    ensures forall s :: s in valid <==> s in ss && Sound(s, now)
  {
    valid := [];
    for i := 0 to |ss|
      invariant valid == Filter((s: Signal) => IsValid(s, now), ss[..i])
    {
      assert ss[..i + 1] == ss[..i] + [ss[i]];
      FilterLast((s: Signal) => IsValid(s, now), ss[..i], ss[i]);
      if Validate(ss[i], now) == None {
        valid := valid + [ss[i]];
      }
    }
    assert ss[..|ss|] == ss;
    forall s ensures IsValid(s, now) <==> Sound(s, now) {
      ValidMeansSound(s, now);
    }
  }

  /**
    The whole router. What it returns is ranked, has distinct symbols, and speaks for every unconflicted valid signal.
   */
  method Route(ss: seq<Signal>, now: int) returns (routed: seq<Signal>)
    ensures DistinctSymbols(routed) && Ranked(routed)
    ensures forall s | s in routed :: Sound(s, now) && s in ss
    ensures var valid := Filter((s: Signal) => IsValid(s, now), ss);
      && (forall s | s in routed :: IsBest(valid, s) && !Conflicted(valid, s.symbol))
      && (forall s | s in valid && !Conflicted(valid, s.symbol) :: exists t | t in routed :: t.symbol == s.symbol)
  {
    var valid := ValidOnes(ss, now);
    var resolved := ResolveConflicts(valid);
    routed := Rank(resolved);
    RankKeepsDistinct(resolved);
    RankRanks(resolved);
    forall s ensures s in routed <==> s in resolved { RankMembers(resolved, s); }
    forall s | s in routed ensures Sound(s, now) && s in ss {
      assert IsBest(valid, s) && s in OfSymbol(valid, s.symbol);
      ValidMeansSound(s, now);
    }
  }
}
