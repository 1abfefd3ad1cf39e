/**
  Breadth-first search over a finite directed graph, as the execution state machine
  uses it to find the shortest legal sequence of states.
  A graph is its successor function; `nodes` is a finite set closed under it.
  The successor sets have no order, so the search may visit them in any order.
 */
module GraphSearch {
  import opened Wrappers

  function Last<T>(p: seq<T>): T
    requires |p| > 0
  {
    p[|p| - 1]
  }

  /** A non-empty walk along edges of the graph. */
  ghost predicate IsPath<T(!new)>(g: T -> set<T>, p: seq<T>) {
    |p| > 0 && forall i | 0 <= i < |p| - 1 :: p[i + 1] in g(p[i])
  }

  ghost predicate Joins<T(!new)>(g: T -> set<T>, p: seq<T>, start: T, goal: T) {
    IsPath(g, p) && p[0] == start && Last(p) == goal
  }

  ghost predicate IsShortest<T(!new)>(g: T -> set<T>, p: seq<T>, start: T, goal: T) {
    Joins(g, p, start, goal) && forall q | Joins(g, q, start, goal) :: |p| <= |q|
  }

  ghost predicate Reachable<T(!new)>(g: T -> set<T>, start: T, goal: T) {
    exists p :: Joins(g, p, start, goal)
  }

  ghost predicate Closed<T(!new)>(g: T -> set<T>, nodes: set<T>) {
    forall x | x in nodes :: g(x) <= nodes
  }

  /** Every walk that starts inside a closed set stays inside it. */
  lemma {:induction false} ClosedTrapsPaths<T(!new)>(g: T -> set<T>, nodes: set<T>, p: seq<T>)
    requires Closed(g, nodes) && IsPath(g, p) && p[0] in nodes
    ensures Last(p) in nodes
    decreases |p|
  {
    if |p| > 1 {
      ClosedTrapsPaths(g, nodes, p[..|p| - 1]);
    }
  }

  /** A reachable goal has a shortest path. */
  lemma {:induction false} ShortestExists<T(!new)>(g: T -> set<T>, p: seq<T>, start: T, goal: T) returns (s: seq<T>)
    requires Joins(g, p, start, goal)
    ensures IsShortest(g, s, start, goal)
    decreases |p|
  {
    if q :| Joins(g, q, start, goal) && |q| < |p| {
      s := ShortestExists(g, q, start, goal);
    } else {
      s := p;
    }
  }

  /** The end of `f`, a shortest path from `start` of length `level` or one more, has been seen. */
  ghost predicate Pending<T(!new)>(g: T -> set<T>, start: T, f: seq<T>, seen: set<T>, level: nat) {
    |f| > 0 && IsShortest(g, f, start, Last(f)) && Last(f) in seen && level <= |f| <= level + 1
  }

  /** The shorter paths wait in front of the longer ones. */
  ghost predicate Ordered<T>(frontier: seq<seq<T>>) {
    forall i, j | 0 <= i < j < |frontier| :: |frontier[i]| <= |frontier[j]|
  }

  /** Everything within `level` nodes of the start has been seen. */
  ghost predicate Covers<T(!new)>(g: T -> set<T>, start: T, seen: set<T>, level: nat) {
    forall v, q | Joins(g, q, start, v) && |q| <= level :: v in seen
  }

  ghost predicate EndsAt<T>(f: seq<T>, v: T) {
    |f| > 0 && Last(f) == v
  }

  /** A node that was seen either waits at the end of a frontier path or has had its successors seen. */
  ghost predicate Settled<T(!new)>(g: T -> set<T>, waiting: set<T>, seen: set<T>) {
    forall v | v in seen && v !in waiting :: g(v) <= seen
  }

  ghost predicate Waiting<T>(frontier: seq<seq<T>>, waiting: set<T>) {
    forall v | v in waiting :: exists f | f in frontier :: EndsAt(f, v)
  }

  /** When only longer paths wait, the seen set covers one step more. */
  lemma NextLevel<T(!new)>(g: T -> set<T>, start: T, frontier: seq<seq<T>>, seen: set<T>, waiting: set<T>, level: nat)
    requires 0 < level && Covers(g, start, seen, level) && Settled(g, waiting, seen) && Waiting(frontier, waiting)
    requires forall f | f in frontier :: Pending(g, start, f, seen, level) && |f| == level + 1
    ensures Covers(g, start, seen, level + 1)
  {
    forall v, q | Joins(g, q, start, v) && |q| <= level + 1
      ensures v in seen
    {
      if |q| == level + 1 {
        var u := q[level - 1];
        assert Joins(g, q[..level], start, u);
        assert q[level] in g(u);
        assert u !in waiting;
      } else {
        assert |q| <= level;
      }
    }
  }

  /** A successor not seen before, one step beyond the level covered, is reached by a shortest path. */
  lemma StepIsShortest<T(!new)>(g: T -> set<T>, start: T, path: seq<T>, seen: set<T>, next: T)
    requires IsPath(g, path) && path[0] == start && Covers(g, start, seen, |path|)
    requires next in g(Last(path)) && next !in seen
    ensures IsShortest(g, path + [next], start, next)
  {
    assert Joins(g, path + [next], start, next);
  }

  /** What the search keeps between steps; the successors of the nodes in `expanding` are being visited. */
  ghost predicate SearchInv<T(!new)>(g: T -> set<T>, start: T, frontier: seq<seq<T>>, seen: set<T>,
                                     waiting: set<T>, expanding: set<T>, level: nat)
  {
    && Covers(g, start, seen, level) && Ordered(frontier)
    && (forall f | f in frontier :: Pending(g, start, f, seen, level))
    && Settled(g, waiting + expanding, seen) && Waiting(frontier, waiting)
  }

  lemma Pop<T(!new)>(g: T -> set<T>, start: T, frontier: seq<seq<T>>, seen: set<T>, waiting: set<T>, level: nat)
    requires SearchInv(g, start, frontier, seen, waiting, {}, level) && frontier != [] && frontier[0] != []
    ensures var v := Last(frontier[0]);
      SearchInv(g, start, frontier[1..], seen, waiting - {v}, {v}, level)
  {
    var v := Last(frontier[0]);
    forall u | u in waiting - {v} ensures exists f | f in frontier[1..] :: EndsAt(f, u) {
      var f :| f in frontier && EndsAt(f, u);
      assert f in frontier[1..];
    }
  }

  lemma Push<T(!new)>(g: T -> set<T>, start: T, frontier: seq<seq<T>>, seen: set<T>,
                      waiting: set<T>, expanding: set<T>, level: nat, path: seq<T>)
    requires SearchInv(g, start, frontier, seen, waiting, expanding, level)
    requires |path| == level + 1 && IsShortest(g, path, start, Last(path))
    ensures SearchInv(g, start, frontier + [path], seen + {Last(path)}, waiting + {Last(path)}, expanding, level)
  {
    var frontier', seen' := frontier + [path], seen + {Last(path)};
    forall f | f in frontier' ensures Pending(g, start, f, seen', level) {
      if f in frontier { assert Pending(g, start, f, seen, level); }
    }
    assert Ordered(frontier') by {
      forall f | f in frontier ensures |f| <= level + 1 { assert Pending(g, start, f, seen, level); }
    }
    forall v | v in waiting + {Last(path)} ensures exists f | f in frontier' :: EndsAt(f, v) {
      if v == Last(path) {
        assert path in frontier' && EndsAt(path, v);
      } else {
        var f :| f in frontier && EndsAt(f, v);
        assert f in frontier';
      }
    }
  }

  /** All waiting paths are one step longer than the level covered: the search can move to the next level. */
  lemma Deepen<T(!new)>(g: T -> set<T>, start: T, frontier: seq<seq<T>>, seen: set<T>, waiting: set<T>, level: nat)
    requires SearchInv(g, start, frontier, seen, waiting, {}, level)
    requires 0 < level && frontier != [] && |frontier[0]| == level + 1
    ensures SearchInv(g, start, frontier, seen, waiting, {}, level + 1)
  {
    forall f | f in frontier ensures Pending(g, start, f, seen, level) && |f| == level + 1 { }
    assert waiting + {} == waiting;
    NextLevel(g, start, frontier, seen, waiting, level);
  }

  /** A new successor of the node being expanded joins the search, by a shortest path. */
  lemma Discover<T(!new)>(g: T -> set<T>, start: T, frontier: seq<seq<T>>, seen: set<T>, waiting: set<T>, level: nat,
                          path: seq<T>, next: T)
    requires |path| == level > 0 && IsShortest(g, path, start, Last(path)) && next in g(Last(path)) && next !in seen
    requires SearchInv(g, start, frontier, seen, waiting, {Last(path)}, level)
    ensures IsShortest(g, path + [next], start, next)
    ensures SearchInv(g, start, frontier + [path + [next]], seen + {next}, waiting + {next}, {Last(path)}, level)
  {
    StepIsShortest(g, start, path, seen, next);
    Push(g, start, frontier, seen, waiting, {Last(path)}, level, path + [next]);
  }

  /** Visits the successors of the last node of `path`, until one of them is the goal. */
  method Expand<T(==, !new)>(g: T -> set<T>, ghost nodes: set<T>, ghost start: T, goal: T, path: seq<T>,
                             frontier0: seq<seq<T>>, seen0: set<T>, ghost waiting0: set<T>, ghost level: nat)
    returns (r: Option<seq<T>>, frontier: seq<seq<T>>, seen: set<T>, ghost waiting: set<T>)
    requires Closed(g, nodes) && seen0 <= nodes && goal !in seen0
    requires |path| == level > 0 && IsShortest(g, path, start, Last(path)) && Last(path) in seen0
    requires SearchInv(g, start, frontier0, seen0, waiting0, {Last(path)}, level)
    ensures r.Some? ==> IsShortest(g, r.value, start, goal)
    ensures r.None? ==>
      && seen0 <= seen <= nodes && goal !in seen && (seen == seen0 ==> frontier == frontier0)
      && SearchInv(g, start, frontier, seen, waiting, {}, level)
  {
    frontier, seen, waiting := frontier0, seen0, waiting0;
    var v := Last(path);
    var todo := g(v);
    while todo != {}
      invariant seen0 <= seen <= nodes && goal !in seen && todo <= g(v) && g(v) - todo <= seen
      invariant seen == seen0 ==> frontier == frontier0
      invariant SearchInv(g, start, frontier, seen, waiting, {v}, level)
      decreases todo
    {
      var next :| next in todo;
      todo := todo - {next};
      if next !in seen {
        Discover(g, start, frontier, seen, waiting, level, path, next);
        if next == goal {
          return Some(path + [next]), frontier, seen, waiting;
        }
        frontier, seen, waiting := frontier + [path + [next]], seen + {next}, waiting + {next};
      }
    }
    Expanded(g, start, frontier, seen, waiting, v, level);
    return None, frontier, seen, waiting;
  }

  lemma Expanded<T(!new)>(g: T -> set<T>, start: T, frontier: seq<seq<T>>, seen: set<T>, waiting: set<T>, v: T,
                          level: nat)
    requires SearchInv(g, start, frontier, seen, waiting, {v}, level) && g(v) <= seen
    ensures SearchInv(g, start, frontier, seen, waiting, {}, level)
  {
  }

  lemma Exhausted<T(!new)>(g: T -> set<T>, start: T, seen: set<T>, waiting: set<T>, level: nat, goal: T)
    requires SearchInv(g, start, [], seen, waiting, {}, level) && start in seen && goal !in seen
    ensures !Reachable(g, start, goal)
  {
    assert Closed(g, seen);
    forall p | Joins(g, p, start, goal) ensures false {
      ClosedTrapsPaths(g, seen, p);
    }
  }

  /**
    The search. A result is a shortest path, and there is none exactly when the goal cannot be reached.
   */
  method ShortestPath<T(==, !new)>(g: T -> set<T>, ghost nodes: set<T>, start: T, goal: T)
    returns (r: Option<seq<T>>)
    requires Closed(g, nodes) && start in nodes
    ensures r.Some? ==> IsShortest(g, r.value, start, goal)
    ensures r.None? <==> !Reachable(g, start, goal)
  {
    assert Joins(g, [start], start, start);
    if start == goal {
      return Some([start]);
    }
    var frontier: seq<seq<T>> := [[start]];
    var seen := {start};
    ghost var waiting, level := {start}, 1;
    assert EndsAt([start], start);
    while frontier != []
      invariant 0 < level && start in seen && seen <= nodes && goal !in seen
      invariant SearchInv(g, start, frontier, seen, waiting, {}, level)
      decreases nodes - seen, |frontier|
    {
      var path := frontier[0];
      assert Pending(g, start, path, seen, level);
      if |path| == level + 1 {
        Deepen(g, start, frontier, seen, waiting, level);
        level := level + 1;
      }
      Pop(g, start, frontier, seen, waiting, level);
      r, frontier, seen, waiting :=
        Expand(g, nodes, start, goal, path, frontier[1..], seen, waiting - {Last(path)}, level);
      if r.Some? {
        return r;
      }
    }
    Exhausted(g, start, seen, waiting, level, goal);
    return None;
  }
}
