/** Trading signals, and the stable ranking by confidence that router and portfolio share. */
module Signals {
  import opened Wrappers

  datatype Action = BUY | SELL | CLOSE | UNKNOWN

  datatype Signal = Signal(
    strategy: string, symbol: string, action: Action, entry: real, stopLoss: real, takeProfit: real,
    confidence: real, timestamp: Option<int>, ttl: int)

  function Filter(keep: Signal -> bool, ss: seq<Signal>): (r: seq<Signal>)
    ensures forall s :: s in r <==> s in ss && keep(s)
    ensures |r| <= |ss|
  {
    if ss == [] then []
    else if keep(ss[0]) then [ss[0]] + Filter(keep, ss[1..])
    else Filter(keep, ss[1..])
  }

  ghost predicate Ranked(ss: seq<Signal>) {
    forall i, j | 0 <= i < j < |ss| :: ss[i].confidence >= ss[j].confidence
  }

  ghost predicate DistinctSymbols(ss: seq<Signal>) {
    forall i, j | 0 <= i < j < |ss| :: ss[i].symbol != ss[j].symbol
  }

  /** The place of a signal before everything that is not more confident. */
  function Insert(s: Signal, ss: seq<Signal>): (r: seq<Signal>)
    ensures multiset(r) == multiset{s} + multiset(ss)
  {
    if ss == [] || s.confidence >= ss[0].confidence then [s] + ss
    else
      assert ss == [ss[0]] + ss[1..];
      [ss[0]] + Insert(s, ss[1..])
  }

  /** The signals by descending confidence; equals keep their order. */
  function Rank(ss: seq<Signal>): (r: seq<Signal>)
    ensures multiset(r) == multiset(ss) && |r| == |ss|
  {
    if ss == [] then []
    else
      assert ss == [ss[0]] + ss[1..];
      var r := Insert(ss[0], Rank(ss[1..]));
      assert |multiset(r)| == |multiset(ss)|;
      r
  }

  lemma InsertMembers(s: Signal, ss: seq<Signal>, x: Signal)
    ensures x in Insert(s, ss) <==> x == s || x in ss
  {
    assert x in Insert(s, ss) <==> x in multiset(Insert(s, ss));
    assert x in ss <==> x in multiset(ss);
  }

  lemma RankMembers(ss: seq<Signal>, x: Signal)
    ensures x in Rank(ss) <==> x in ss
  {
    assert x in Rank(ss) <==> x in multiset(Rank(ss));
    assert x in ss <==> x in multiset(ss);
  }

  lemma {:induction false} InsertRanks(s: Signal, ss: seq<Signal>)
    requires Ranked(ss)
    ensures Ranked(Insert(s, ss))
  {
    if ss != [] && s.confidence < ss[0].confidence {
      InsertRanks(s, ss[1..]);
      var rest := Insert(s, ss[1..]);
      forall i | 0 <= i < |rest| ensures ss[0].confidence >= rest[i].confidence {
        InsertMembers(s, ss[1..], rest[i]);
      }
    }
  }

  lemma {:induction false} RankRanks(ss: seq<Signal>)
    ensures Ranked(Rank(ss))
  {
    if ss != [] {
      RankRanks(ss[1..]);
      InsertRanks(ss[0], Rank(ss[1..]));
    }
  }

  lemma {:induction false} FilterLast(keep: Signal -> bool, ss: seq<Signal>, s: Signal)
    ensures Filter(keep, ss + [s]) == Filter(keep, ss) + if keep(s) then [s] else []
  {
    if ss != [] {
      assert (ss + [s])[1..] == ss[1..] + [s];
      FilterLast(keep, ss[1..], s);
    }
  }

  lemma FilterFirst(keep: Signal -> bool, s: Signal, ss: seq<Signal>)
    ensures Filter(keep, [s] + ss) == (if keep(s) then [s] else []) + Filter(keep, ss)
  {
    assert ([s] + ss)[1..] == ss;
  }

  lemma {:induction false} InsertIsStable(s: Signal, ss: seq<Signal>, same: Signal -> bool, c: real)
    requires Ranked(ss) && forall t :: same(t) <==> t.confidence == c
    ensures Filter(same, Insert(s, ss)) == (if same(s) then [s] else []) + Filter(same, ss)
  {
    if ss != [] && s.confidence < ss[0].confidence {
      InsertIsStable(s, ss[1..], same, c);
      FilterFirst(same, ss[0], Insert(s, ss[1..]));
      assert same(s) ==> !same(ss[0]);
    } else {
      FilterFirst(same, s, ss);
    }
  }

  /** Ranking is stable: signals of equal confidence keep the order they came in. */
  lemma {:induction false} RankIsStable(ss: seq<Signal>, c: real)
    ensures var same := (t: Signal) => t.confidence == c; Filter(same, Rank(ss)) == Filter(same, ss)
  {
    if ss != [] {
      RankIsStable(ss[1..], c);
      RankRanks(ss[1..]);
      InsertIsStable(ss[0], Rank(ss[1..]), (t: Signal) => t.confidence == c, c);
    }
  }

  /** Filtering keeps ranking and distinctness, because it keeps the order. */
  lemma {:induction false} FilterKeeps(keep: Signal -> bool, ss: seq<Signal>)
    ensures Ranked(ss) ==> Ranked(Filter(keep, ss))
    ensures DistinctSymbols(ss) ==> DistinctSymbols(Filter(keep, ss))
  {
    if ss != [] {
      FilterKeeps(keep, ss[1..]);
      var rest := Filter(keep, ss[1..]);
      forall i | 0 <= i < |rest|
        ensures Ranked(ss) ==> ss[0].confidence >= rest[i].confidence
        ensures DistinctSymbols(ss) ==> ss[0].symbol != rest[i].symbol
      {
        assert rest[i] in ss[1..];
      }
    }
  }

  /** How often a symbol occurs depends on the members alone, so ranking keeps symbols distinct. */
  function CountSymbol(ss: seq<Signal>, symbol: string): nat {
    if ss == [] then 0 else CountSymbol(ss[1..], symbol) + if ss[0].symbol == symbol then 1 else 0
  }

  lemma {:induction false} InsertCounts(s: Signal, ss: seq<Signal>, symbol: string)
    ensures CountSymbol(Insert(s, ss), symbol) == CountSymbol(ss, symbol) + if s.symbol == symbol then 1 else 0
  {
    if ss != [] && s.confidence < ss[0].confidence {
      InsertCounts(s, ss[1..], symbol);
    }
  }

  lemma {:induction false} RankCounts(ss: seq<Signal>, symbol: string)
    ensures CountSymbol(Rank(ss), symbol) == CountSymbol(ss, symbol)
  {
    if ss != [] {
      RankCounts(ss[1..], symbol);
      InsertCounts(ss[0], Rank(ss[1..]), symbol);
    }
  }

  lemma {:induction false} CountPositive(ss: seq<Signal>, i: nat)
    requires i < |ss|
    ensures CountSymbol(ss, ss[i].symbol) >= 1
  {
    if i > 0 {
      CountPositive(ss[1..], i - 1);
    }
  }

  lemma {:induction false} DistinctMeansOnce(ss: seq<Signal>)
    ensures DistinctSymbols(ss) <==> forall symbol :: CountSymbol(ss, symbol) <= 1
  {
    if ss != [] {
      var rest := ss[1..];
      DistinctMeansOnce(rest);
      if DistinctSymbols(ss) {
        assert DistinctSymbols(rest);
        AbsentCount(rest, ss[0].symbol);
        forall symbol ensures CountSymbol(ss, symbol) <= 1 {
          assert CountSymbol(rest, symbol) <= 1;
        }
      } else if DistinctSymbols(rest) {
        var i :| 0 <= i < |rest| && rest[i].symbol == ss[0].symbol;
        CountPositive(rest, i);
        assert CountSymbol(ss, ss[0].symbol) > 1;
      } else {
        var symbol :| CountSymbol(rest, symbol) > 1;
        assert CountSymbol(ss, symbol) > 1;
      }
    }
  }

  lemma {:induction false} AbsentCount(ss: seq<Signal>, symbol: string)
    requires forall i | 0 <= i < |ss| :: ss[i].symbol != symbol
    ensures CountSymbol(ss, symbol) == 0
  {
    if ss != [] {
      AbsentCount(ss[1..], symbol);
    }
  }

  lemma RankKeepsDistinct(ss: seq<Signal>)
    requires DistinctSymbols(ss)
    ensures DistinctSymbols(Rank(ss))
  {
    DistinctMeansOnce(ss);
    forall symbol ensures CountSymbol(Rank(ss), symbol) <= 1 { RankCounts(ss, symbol); }
    DistinctMeansOnce(Rank(ss));
  }
}
