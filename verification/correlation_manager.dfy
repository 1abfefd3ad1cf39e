/** The correlation manager: at most one position per currency group and direction. */
module CorrelationManagement {
  import opened Wrappers
  import opened Signals
  import opened PortfolioManagement

  type Groups = map<string, set<string>>

  predicate ShareGroup(groups: Groups, a: string, b: string) {
    exists g | g in groups :: a in groups[g] && b in groups[g]
  }

  /** Two positions on different symbols of one group, in the same direction. */
  predicate Conflict(groups: Groups, a: string, x: Action, b: string, y: Action) {
    a != b && x == y && ShareGroup(groups, a, b)
  }

  ghost predicate Blocked(groups: Groups, symbol: string, action: Action, open: map<string, Action>) {
    exists o | o in open :: Conflict(groups, symbol, action, o, open[o])
  }

  /** The greedy filter: an approved signal counts as open for the ones after it. */
  ghost function Greedy(groups: Groups, ss: seq<Signal>, open: map<string, Action>): seq<Signal> {
    if ss == [] then []
    else if Blocked(groups, ss[0].symbol, ss[0].action, open) then Greedy(groups, ss[1..], open)
    else [ss[0]] + Greedy(groups, ss[1..], open[ss[0].symbol := ss[0].action])
  }

  class CorrelationManager {
    const groups: Groups

    constructor (groups: Groups)
      ensures this.groups == groups
    {
      this.groups := groups;
    }

    method Check(symbol: string, action: Action, open: map<string, Action>) returns (blocked: bool)
      ensures blocked <==> Blocked(groups, symbol, action, open)
      ensures blocked <==> exists g, o | g in groups && o in open ::
        o != symbol && symbol in groups[g] && o in groups[g] && open[o] == action
    {
      var todo := groups.Keys;
      while todo != {}
        invariant todo <= groups.Keys
        invariant forall g, o | g in groups.Keys - todo && symbol in groups[g] && o in open && o in groups[g] ::
          o == symbol || open[o] != action
        decreases todo
      {
        var g :| g in todo;
        todo := todo - {g};
        if symbol in groups[g] {
          var left := open.Keys;
          while left != {}
            invariant left <= open.Keys
            invariant forall o | o in open.Keys - left && o in groups[g] :: o == symbol || open[o] != action
            decreases left
          {
            var o :| o in left;
            left := left - {o};
            if o != symbol && o in groups[g] && open[o] == action {
              assert ShareGroup(groups, symbol, o);
              return true;
            }
          }
        }
      }
      return false;
    }

    method FilterSignals(ss: seq<Signal>, open: map<string, Action>) returns (approved: seq<Signal>)
      ensures approved == Greedy(groups, ss, open)
    {
      approved := [];
      var pending := open;
      for i := 0 to |ss|
        invariant Greedy(groups, ss, open) == approved + Greedy(groups, ss[i..], pending)
      {
        assert ss[i..][1..] == ss[i + 1..];
        var blocked := Check(ss[i].symbol, ss[i].action, pending);
        if !blocked {
          approved := approved + [ss[i]];
          pending := pending[ss[i].symbol := ss[i].action];
        }
      }
    }
  }

  // ---- The choice signal by signal ----

  /** What counts as open once the first `k` signals have been looked at. */
  ghost function OpenAfter(groups: Groups, ss: seq<Signal>, open: map<string, Action>, k: nat): map<string, Action>
    requires k <= |ss|
  {
    if k == 0 then open
    else
      var before := OpenAfter(groups, ss, open, k - 1);
      var s := ss[k - 1];
      if Blocked(groups, s.symbol, s.action, before) then before else before[s.symbol := s.action]
  }

  ghost predicate Taken(groups: Groups, ss: seq<Signal>, open: map<string, Action>, k: nat)
    requires k < |ss|
  {
    !Blocked(groups, ss[k].symbol, ss[k].action, OpenAfter(groups, ss, open, k))
  }

  ghost function TakenOf(groups: Groups, ss: seq<Signal>, open: map<string, Action>, n: nat): seq<Signal>
    requires n <= |ss|
  {
    if n == 0 then []
    else TakenOf(groups, ss, open, n - 1) + if Taken(groups, ss, open, n - 1) then [ss[n - 1]] else []
  }

  /** The greedy choice looks at one signal after the other. */
  lemma GreedyAdvances(groups: Groups, ss: seq<Signal>, open: map<string, Action>, n: nat)
    requires n < |ss|
    ensures TakenOf(groups, ss, open, n) + Greedy(groups, ss[n..], OpenAfter(groups, ss, open, n))
      == TakenOf(groups, ss, open, n + 1) + Greedy(groups, ss[n + 1..], OpenAfter(groups, ss, open, n + 1))
  {
    var rest := ss[n..];
    assert rest[0] == ss[n] && rest[1..] == ss[n + 1..];
    var taken, later := TakenOf(groups, ss, open, n), Greedy(groups, rest[1..], OpenAfter(groups, ss, open, n + 1));
    assert taken + ([ss[n]] + later) == taken + [ss[n]] + later;
  }

  lemma {:induction false} GreedyTakes(groups: Groups, ss: seq<Signal>, open: map<string, Action>, n: nat)
    requires n <= |ss|
    ensures Greedy(groups, ss, open)
      == TakenOf(groups, ss, open, n) + Greedy(groups, ss[n..], OpenAfter(groups, ss, open, n))
  {
    if n == 0 {
      assert ss[0..] == ss;
    } else {
      GreedyTakes(groups, ss, open, n - 1);
      GreedyAdvances(groups, ss, open, n - 1);
    }
  }

  lemma GreedyIsTaken(groups: Groups, ss: seq<Signal>, open: map<string, Action>)
    ensures Greedy(groups, ss, open) == TakenOf(groups, ss, open, |ss|)
  {
    GreedyTakes(groups, ss, open, |ss|);
    assert ss[|ss|..] == [];
  }

  lemma {:induction false} TakenMembers(groups: Groups, ss: seq<Signal>, open: map<string, Action>, n: nat, s: Signal)
    requires n <= |ss|
    ensures s in TakenOf(groups, ss, open, n) <==> exists i | 0 <= i < n :: Taken(groups, ss, open, i) && ss[i] == s
  {
    if n > 0 {
      TakenMembers(groups, ss, open, n - 1, s);
    }
  }

  /** Where an open symbol comes from: the signal for it that was taken last, or the positions open before. */
  lemma {:induction false} LastTaken(groups: Groups, ss: seq<Signal>, open: map<string, Action>, n: nat, o: string)
    returns (i: int)
    requires n <= |ss| && o in OpenAfter(groups, ss, open, n)
    ensures -1 <= i < n && forall l | i < l < n && ss[l].symbol == o :: !Taken(groups, ss, open, l)
    ensures if i == -1 then o in open && OpenAfter(groups, ss, open, n)[o] == open[o]
            else Taken(groups, ss, open, i) && ss[i].symbol == o && OpenAfter(groups, ss, open, n)[o] == ss[i].action
  {
    if n == 0 {
      i := -1;
    } else if Taken(groups, ss, open, n - 1) && ss[n - 1].symbol == o {
      i := n - 1;
    } else {
      i := LastTaken(groups, ss, open, n - 1, o);
    }
  }

  lemma {:induction false} TakenIsOpen(groups: Groups, ss: seq<Signal>, open: map<string, Action>, n: nat, i: nat)
    requires i < n <= |ss| && Taken(groups, ss, open, i)
    ensures ss[i].symbol in OpenAfter(groups, ss, open, n)
  {
    if i < n - 1 {
      TakenIsOpen(groups, ss, open, n - 1, i);
    }
  }

  ghost predicate Clash(groups: Groups, s: Signal, t: Signal) {
    Conflict(groups, s.symbol, s.action, t.symbol, t.action)
  }

  /** Signal `k` clashes with none that was taken before it. */
  ghost predicate Clear(groups: Groups, ss: seq<Signal>, open: map<string, Action>, k: nat)
    requires k < |ss|
  {
    forall i | 0 <= i < k && Taken(groups, ss, open, i) :: !Clash(groups, ss[k], ss[i])
  }

  /** A rejected signal conflicts with a position that was open before, or with a signal taken earlier. */
  lemma RejectionHasRival(groups: Groups, ss: seq<Signal>, open: map<string, Action>, k: nat)
    requires k < |ss| && !Taken(groups, ss, open, k)
    ensures Blocked(groups, ss[k].symbol, ss[k].action, open) || !Clear(groups, ss, open, k)
  {
    var before := OpenAfter(groups, ss, open, k);
    var o :| o in before && Conflict(groups, ss[k].symbol, ss[k].action, o, before[o]);
    var i := LastTaken(groups, ss, open, k, o);
    if i >= 0 {
      assert Clash(groups, ss[k], ss[i]);
    }
  }

  /** A later signal of the same symbol, or one for a symbol that was open before, takes the place of the rival. */
  ghost predicate Hidden(groups: Groups, ss: seq<Signal>, open: map<string, Action>, i: nat, k: nat)
    requires i < k < |ss|
  {
    exists j | i < j < k :: Taken(groups, ss, open, j) && ss[j].symbol == ss[i].symbol
  }

  lemma ConflictIsHidden(groups: Groups, ss: seq<Signal>, open: map<string, Action>, i: nat, k: nat)
    requires i < k < |ss| && Taken(groups, ss, open, i) && Taken(groups, ss, open, k)
    requires Conflict(groups, ss[k].symbol, ss[k].action, ss[i].symbol, ss[i].action)
    ensures Hidden(groups, ss, open, i, k)
  {
    var o := ss[i].symbol;
    TakenIsOpen(groups, ss, open, k, i);
    var j := LastTaken(groups, ss, open, k, o);
    assert j >= i;
    OpenConflictBlocks(groups, ss[k], OpenAfter(groups, ss, open, k), o);
  }

  lemma OpenConflictBlocks(groups: Groups, s: Signal, open: map<string, Action>, o: string)
    requires o in open
    ensures Conflict(groups, s.symbol, s.action, o, open[o]) ==> Blocked(groups, s.symbol, s.action, open)
  {
  }

  // ---- The greedy choice is a maximal set without conflicts ----

  ghost predicate FreshSymbols(ss: seq<Signal>, open: map<string, Action>) {
    DistinctSymbols(ss) && forall s | s in ss :: s.symbol !in open
  }

  ghost predicate ConflictFree(groups: Groups, ss: seq<Signal>) {
    forall i, j | 0 <= i < j < |ss| :: !Clash(groups, ss[j], ss[i])
  }

  ghost predicate ClashesWithNone(groups: Groups, s: Signal, ss: seq<Signal>) {
    forall t | t in ss :: !Clash(groups, s, t)
  }

  ghost predicate Independent(groups: Groups, ss: seq<Signal>, open: map<string, Action>) {
    ConflictFree(groups, ss) && forall s | s in ss :: !Blocked(groups, s.symbol, s.action, open)
  }

  lemma ConflictFreeAppend(groups: Groups, r: seq<Signal>, s: Signal)
    ensures ConflictFree(groups, r + [s]) <==> ConflictFree(groups, r) && ClashesWithNone(groups, s, r)
  {
    var all := r + [s];
    assert all[|r|] == s && forall i | 0 <= i < |r| :: all[i] == r[i];
    if ConflictFree(groups, all) {
      forall i, j | 0 <= i < j < |r| ensures !Clash(groups, r[j], r[i]) {
        assert all[i] == r[i] && all[j] == r[j];
      }
      forall t | t in r ensures !Clash(groups, s, t) {
        var i :| 0 <= i < |r| && r[i] == t;
        assert all[i] == t;
      }
    }
  }

  lemma ClearByMembers(groups: Groups, ss: seq<Signal>, open: map<string, Action>, k: nat)
    requires k < |ss|
    ensures ClashesWithNone(groups, ss[k], TakenOf(groups, ss, open, k)) <==> Clear(groups, ss, open, k)
  {
    var r := TakenOf(groups, ss, open, k);
    if Clear(groups, ss, open, k) {
      forall t | t in r ensures !Clash(groups, ss[k], t) {
        TakenMembers(groups, ss, open, k, t);
      }
    }
    if ClashesWithNone(groups, ss[k], r) {
      forall i | 0 <= i < k && Taken(groups, ss, open, i) ensures !Clash(groups, ss[k], ss[i]) {
        TakenMembers(groups, ss, open, k, ss[i]);
      }
    }
  }

  ghost predicate ClearBefore(groups: Groups, ss: seq<Signal>, open: map<string, Action>, n: nat)
    requires n <= |ss|
  {
    forall k | 0 <= k < n && Taken(groups, ss, open, k) :: Clear(groups, ss, open, k)
  }

  lemma {:induction false} ConflictFreeByIndex(groups: Groups, ss: seq<Signal>, open: map<string, Action>, n: nat)
    requires n <= |ss|
    ensures ConflictFree(groups, TakenOf(groups, ss, open, n)) <==> ClearBefore(groups, ss, open, n)
  {
    if n > 0 {
      ConflictFreeByIndex(groups, ss, open, n - 1);
      var r := TakenOf(groups, ss, open, n - 1);
      if Taken(groups, ss, open, n - 1) {
        ConflictFreeAppend(groups, r, ss[n - 1]);
        ClearByMembers(groups, ss, open, n - 1);
      } else {
        assert TakenOf(groups, ss, open, n) == r;
      }
      ClearAtLast(groups, ss, open, n);
    }
  }

  lemma ClearAtLast(groups: Groups, ss: seq<Signal>, open: map<string, Action>, n: nat)
    requires 0 < n <= |ss|
    ensures ClearBefore(groups, ss, open, n) <==>
      ClearBefore(groups, ss, open, n - 1) && (Taken(groups, ss, open, n - 1) ==> Clear(groups, ss, open, n - 1))
  {
  }

  lemma IndependenceByIndex(groups: Groups, ss: seq<Signal>, open: map<string, Action>)
    ensures Independent(groups, Greedy(groups, ss, open), open) <==>
      && ClearBefore(groups, ss, open, |ss|)
      && forall k | 0 <= k < |ss| && Taken(groups, ss, open, k) :: !Blocked(groups, ss[k].symbol, ss[k].action, open)
  {
    GreedyIsTaken(groups, ss, open);
    ConflictFreeByIndex(groups, ss, open, |ss|);
    var r := TakenOf(groups, ss, open, |ss|);
    forall k | 0 <= k < |ss| && Taken(groups, ss, open, k) ensures ss[k] in r {
      TakenMembers(groups, ss, open, |ss|, ss[k]);
    }
    forall s | s in r ensures exists k | 0 <= k < |ss| :: Taken(groups, ss, open, k) && ss[k] == s {
      TakenMembers(groups, ss, open, |ss|, s);
    }
  }

  /**
    On signals with distinct symbols, none of them open, the approved signals and the open positions are free of
    conflicts, and a signal is approved exactly if it conflicts neither with an open position nor with a signal that
    was approved before it.
   */
  lemma GreedyIsMaximalIndependent(groups: Groups, ss: seq<Signal>, open: map<string, Action>)
    requires FreshSymbols(ss, open)
    ensures Independent(groups, Greedy(groups, ss, open), open)
    ensures forall k | 0 <= k < |ss| :: ss[k] in Greedy(groups, ss, open) <==>
      !Blocked(groups, ss[k].symbol, ss[k].action, open) && Clear(groups, ss, open, k)
    ensures forall k | 0 <= k < |ss| :: ss[k] in Greedy(groups, ss, open) <==> Taken(groups, ss, open, k)
  {
    TakenAreClear(groups, ss, open);
    forall k | 0 <= k < |ss|
      ensures ss[k] in Greedy(groups, ss, open) <==>
        !Blocked(groups, ss[k].symbol, ss[k].action, open) && Clear(groups, ss, open, k)
      ensures ss[k] in Greedy(groups, ss, open) <==> Taken(groups, ss, open, k)
    {
      TakenWhenClear(groups, ss, open, k);
      ApprovedWhenTaken(groups, ss, open, k);
    }
  }

  lemma TakenAreClear(groups: Groups, ss: seq<Signal>, open: map<string, Action>)
    requires FreshSymbols(ss, open)
    ensures Independent(groups, Greedy(groups, ss, open), open)
  {
    forall k | 0 <= k < |ss| && Taken(groups, ss, open, k)
      ensures Clear(groups, ss, open, k) && !Blocked(groups, ss[k].symbol, ss[k].action, open)
    {
      TakenWhenClear(groups, ss, open, k);
    }
    IndependenceByIndex(groups, ss, open);
  }

  lemma ApprovedWhenTaken(groups: Groups, ss: seq<Signal>, open: map<string, Action>, k: nat)
    requires DistinctSymbols(ss) && k < |ss|
    ensures ss[k] in Greedy(groups, ss, open) <==> Taken(groups, ss, open, k)
  {
    GreedyIsTaken(groups, ss, open);
    TakenMembers(groups, ss, open, |ss|, ss[k]);
  }

  lemma TakenWhenClear(groups: Groups, ss: seq<Signal>, open: map<string, Action>, k: nat)
    requires FreshSymbols(ss, open) && k < |ss|
    ensures Taken(groups, ss, open, k)
      <==> !Blocked(groups, ss[k].symbol, ss[k].action, open) && Clear(groups, ss, open, k)
  {
    if !Taken(groups, ss, open, k) {
      RejectionHasRival(groups, ss, open, k);
    } else {
      forall j | 0 <= j < k && Taken(groups, ss, open, j) ensures !Clash(groups, ss[k], ss[j]) {
        if Clash(groups, ss[k], ss[j]) {
          ConflictIsHidden(groups, ss, open, j, k);
        }
      }
      OpenStaysOpen(groups, ss, open, k);
    }
  }

  /** No fresh symbol takes the place of a position that was open before. */
  lemma {:induction false} OpenStaysOpen(groups: Groups, ss: seq<Signal>, open: map<string, Action>, n: nat)
    requires n <= |ss| && forall s | s in ss :: s.symbol !in open
    ensures forall o | o in open :: o in OpenAfter(groups, ss, open, n) && OpenAfter(groups, ss, open, n)[o] == open[o]
  {
    if n > 0 {
      OpenStaysOpen(groups, ss, open, n - 1);
      assert ss[n - 1] in ss;
    }
  }

  /** An evaluated batch of routed signals is what the filter needs, as long as it knows exactly the open symbols. */
  lemma EvaluationIsFresh(cfg: Config, p: Portfolio, routed: seq<Signal>, open: map<string, Action>)
    requires DistinctSymbols(routed) && open.Keys == p.open
    ensures FreshSymbols(Evaluated(cfg, p, routed), open) && Ranked(Evaluated(cfg, p, routed))
  {
    EvaluatedSymbols(cfg, p, routed);
    RankRanks(Capped(cfg, p, Eligible(cfg, p, routed)));
  }

  // ---- Repeated symbols ----

  ghost predicate HasSymbols(ss: seq<Signal>, xs: seq<string>) {
    |ss| == |xs| && forall i | 0 <= i < |xs| :: ss[i].symbol == xs[i]
  }

  /** A symbol comes twice and after that another one of its groups. */
  ghost predicate Overwrites(groups: Groups, xs: seq<string>, i: nat, j: nat, k: nat) {
    i < j < k < |xs| && xs[i] == xs[j] && xs[i] != xs[k] && ShareGroup(groups, xs[k], xs[i])
  }

  /** A symbol that is open comes, and after that another one of its groups. */
  ghost predicate Covers(groups: Groups, open: set<string>, xs: seq<string>, j: nat, k: nat) {
    j < k < |xs| && xs[j] in open && xs[j] != xs[k] && ShareGroup(groups, xs[k], xs[j])
  }

  ghost predicate NothingHides(groups: Groups, open: set<string>, xs: seq<string>) {
    (forall i, j, k :: !Overwrites(groups, xs, i, j, k)) && (forall j, k :: !Covers(groups, open, xs, j, k))
  }

  lemma {:induction false} KeysStayOpen(groups: Groups, ss: seq<Signal>, open: map<string, Action>, n: nat)
    requires n <= |ss|
    ensures open.Keys <= OpenAfter(groups, ss, open, n).Keys
  {
    if n > 0 {
      KeysStayOpen(groups, ss, open, n - 1);
    }
  }

  /** A signal that is taken against an open position comes after one that took that position's place. */
  lemma BlockIsCovered(groups: Groups, ss: seq<Signal>, xs: seq<string>, open: map<string, Action>, k: nat)
    requires HasSymbols(ss, xs) && k < |ss| && Taken(groups, ss, open, k)
    requires Blocked(groups, ss[k].symbol, ss[k].action, open)
    ensures exists j :: Covers(groups, open.Keys, xs, j, k)
  {
    var o :| o in open && Conflict(groups, ss[k].symbol, ss[k].action, o, open[o]);
    KeysStayOpen(groups, ss, open, k);
    var j := LastTaken(groups, ss, open, k, o);
    OpenConflictBlocks(groups, ss[k], OpenAfter(groups, ss, open, k), o);
    assert Covers(groups, open.Keys, xs, j, k);
  }

  lemma NothingHiddenNoConflict(groups: Groups, ss: seq<Signal>, xs: seq<string>, open: map<string, Action>)
    requires HasSymbols(ss, xs) && NothingHides(groups, open.Keys, xs)
    ensures Independent(groups, Greedy(groups, ss, open), open)
  {
    IndependenceByIndex(groups, ss, open);
    forall k | 0 <= k < |ss| && Taken(groups, ss, open, k)
      ensures Clear(groups, ss, open, k) && !Blocked(groups, ss[k].symbol, ss[k].action, open)
    {
      if Blocked(groups, ss[k].symbol, ss[k].action, open) {
        BlockIsCovered(groups, ss, xs, open, k);
      }
      forall i | 0 <= i < k && Taken(groups, ss, open, i) ensures !Clash(groups, ss[k], ss[i]) {
        if Clash(groups, ss[k], ss[i]) {
          ConflictIsHidden(groups, ss, open, i, k);
          var j :| i < j < k && Taken(groups, ss, open, j) && ss[j].symbol == ss[i].symbol;
          assert Overwrites(groups, xs, i, j, k);
        }
      }
    }
  }

  /** Long, then short on the same symbol, then long on the other one; everything else only closes. */
  function Hiding(xs: seq<string>, i: int, j: nat, k: nat): (ss: seq<Signal>)
    ensures |ss| == |xs|
    ensures forall l | 0 <= l < |xs| :: ss[l].symbol == xs[l]
    ensures forall l | 0 <= l < |xs| :: ss[l].action == if l == i || l == k then BUY else if l == j then SELL else CLOSE
  {
    seq(|xs|, l requires 0 <= l < |xs| =>
      Signal("s", xs[l], if l == i || l == k then BUY else if l == j then SELL else CLOSE,
             1.0, 0.5, 2.0, 0.7, None, 300))
  }

  /** Symbol `o` stands in the way of signal `n`: through signal `l`, or as a position whose place none has taken. */
  ghost predicate Rejects(groups: Groups, ss: seq<Signal>, open: map<string, Action>, n: nat, o: string, l: int)
    requires n < |ss|
  {
    && -1 <= l < n && o != ss[n].symbol
    && (if l == -1 then o in open && ss[n].action == open[o]
        else Taken(groups, ss, open, l) && ss[l].symbol == o && ss[n].action == ss[l].action)
    && forall m | l < m < n && ss[m].symbol == o :: !Taken(groups, ss, open, m)
  }

  lemma RejectedBy(groups: Groups, ss: seq<Signal>, open: map<string, Action>, n: nat) returns (o: string, l: int)
    requires n < |ss| && !Taken(groups, ss, open, n)
    ensures Rejects(groups, ss, open, n, o, l)
  {
    var before := OpenAfter(groups, ss, open, n);
    o :| o in before && Conflict(groups, ss[n].symbol, ss[n].action, o, before[o]);
    l := LastTaken(groups, ss, open, n, o);
  }

  /** A symbol that occurs twice hides its first approval, and a conflict slips through, with no position in the way. */
  lemma RepeatedSymbolHidesConflict(groups: Groups, xs: seq<string>, open: map<string, Action>, i: nat, j: nat, k: nat)
    requires Overwrites(groups, xs, i, j, k) && forall o | o in open :: open[o] == CLOSE
    ensures !Independent(groups, Greedy(groups, Hiding(xs, i, j, k), open), open)
  {
    var ss := Hiding(xs, i, j, k);
    forall l | l in {i, j} ensures Taken(groups, ss, open, l) {
      if !Taken(groups, ss, open, l) {
        var o, m := RejectedBy(groups, ss, open, l);
      }
    }
    if !Taken(groups, ss, open, k) {
      var o, m := RejectedBy(groups, ss, open, k);
    }
    IndependenceByIndex(groups, ss, open);
    assert Clash(groups, ss[k], ss[i]) && !Clear(groups, ss, open, k);
  }

  /** A signal for an open symbol takes the place of the position, and a conflict with the position slips through. */
  lemma OpenSymbolHidesConflict(groups: Groups, xs: seq<string>, open: map<string, Action>, j: nat, k: nat)
    requires j < k < |xs| && xs[j] in open && xs[j] != xs[k] && ShareGroup(groups, xs[k], xs[j])
    requires forall o | o in open :: open[o] == if o == xs[j] then BUY else CLOSE
    ensures !Independent(groups, Greedy(groups, Hiding(xs, -1, j, k), open), open)
  {
    var ss := Hiding(xs, -1, j, k);
    if !Taken(groups, ss, open, j) {
      var o, m := RejectedBy(groups, ss, open, j);
    }
    if !Taken(groups, ss, open, k) {
      var o, m := RejectedBy(groups, ss, open, k);
    }
    IndependenceByIndex(groups, ss, open);
    assert Conflict(groups, ss[k].symbol, ss[k].action, xs[j], open[xs[j]]);
    assert Blocked(groups, ss[k].symbol, ss[k].action, open);
  }

  /**
    Whatever the directions of the positions and of the signals, the approved signals are free of conflicts with each
    other and with the positions, exactly when no symbol that is open or came before is followed, once it comes
    (again), by another symbol of one of its groups.
   */
  lemma RepeatsAreExact(groups: Groups, open: set<string>, xs: seq<string>)
    ensures (forall ss, m: map<string, Action> | HasSymbols(ss, xs) && m.Keys == open ::
               Independent(groups, Greedy(groups, ss, m), m))
      <==> NothingHides(groups, open, xs)
  {
    if NothingHides(groups, open, xs) {
      forall ss, m: map<string, Action> | HasSymbols(ss, xs) && m.Keys == open
        ensures Independent(groups, Greedy(groups, ss, m), m)
      {
        NothingHiddenNoConflict(groups, ss, xs, m);
      }
    } else if i: nat, j: nat, k: nat :| Overwrites(groups, xs, i, j, k) {
      var m := map o | o in open :: CLOSE;
      RepeatedSymbolHidesConflict(groups, xs, m, i, j, k);
      assert HasSymbols(Hiding(xs, i, j, k), xs) && m.Keys == open;
    } else {
      var j: nat, k: nat :| Covers(groups, open, xs, j, k);
      var m := map o | o in open :: if o == xs[j] then BUY else CLOSE;
      OpenSymbolHidesConflict(groups, xs, m, j, k);
      assert HasSymbols(Hiding(xs, -1, j, k), xs) && m.Keys == open;
    }
  }
}
