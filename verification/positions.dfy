/** Broker positions as a snapshot lists them, and the lookup table that recovery builds from it. */
module Positions {
  import opened Wrappers

  datatype Position = Position(
    id: string, symbol: string, direction: string, lots: Option<int>, entry: real,
    profit: real, currentPrice: Option<real>)

  ghost predicate HasId(ps: seq<Position>, id: string) {
    exists i | 0 <= i < |ps| :: ps[i].id == id
  }

  ghost predicate DistinctIds(ps: seq<Position>) {
    forall i, j | 0 <= i < j < |ps| :: ps[i].id != ps[j].id
  }

  /** Where the table holds this id; its length when it does not. */
  function Find(table: seq<Position>, id: string): (i: nat)
    ensures i <= |table| && (i < |table| ==> table[i].id == id)
    ensures forall j | 0 <= j < i :: table[j].id != id
  {
    if table == [] || table[0].id == id then 0 else 1 + Find(table[1..], id)
  }

  /** A table entry is replaced in place when its id occurs again, and appended otherwise. */
  function Put(table: seq<Position>, p: Position): (t: seq<Position>)
    ensures DistinctIds(table) ==> DistinctIds(t)
    ensures forall id :: HasId(t, id) <==> HasId(table, id) || id == p.id
  {
    var i := Find(table, p.id);
    var t := if i == |table| then table + [p] else table[i := p];
    assert t[i] == p;
    assert forall j | 0 <= j < |table| :: t[j].id == table[j].id;
    t
  }

  /** The positions that have an id, by id, in the order in which the ids first occur. */
  function Indexed(ps: seq<Position>): (t: seq<Position>)
    ensures DistinctIds(t)
    ensures forall id :: HasId(t, id) <==> HasId(ps, id) && id != ""
  {
    if ps == [] then []
    else
      var n := |ps| - 1;
      var t := Indexed(ps[..n]);
      assert forall id :: HasId(ps, id) <==> HasId(ps[..n], id) || id == ps[n].id by { HasIdLast(ps); }
      if ps[n].id == "" then t else Put(t, ps[n])
  }

  lemma HasIdLast(ps: seq<Position>)
    requires ps != []
    ensures var n := |ps| - 1; forall id :: HasId(ps, id) <==> HasId(ps[..n], id) || id == ps[n].id
  {
    var n := |ps| - 1;
    forall i | 0 <= i < n ensures ps[..n][i] == ps[i] { }
    forall id | HasId(ps, id) && id != ps[n].id ensures HasId(ps[..n], id) {
      var i :| 0 <= i < |ps| && ps[i].id == id;
      assert ps[..n][i].id == id;
    }
    forall id | HasId(ps[..n], id) ensures HasId(ps, id) {
      var i :| 0 <= i < n && ps[..n][i].id == id;
      assert ps[i].id == id;
    }
  }

  /** A snapshot whose ids are present and distinct is its own table. */
  lemma {:induction false} IndexedIsIdentity(ps: seq<Position>)
    requires DistinctIds(ps) && !HasId(ps, "")
    ensures Indexed(ps) == ps
  {
    if ps != [] {
      var n := |ps| - 1;
      HasIdLast(ps);
      IndexedIsIdentity(ps[..n]);
      assert Find(ps[..n], ps[n].id) == n;
      assert ps == ps[..n] + [ps[n]];
      assert ps[n].id != "";
    }
  }

  /** The place where an id is listed first. */
  ghost predicate FirstAt(ps: seq<Position>, i: nat, id: string) {
    i < |ps| && ps[i].id == id && forall j | 0 <= j < i :: ps[j].id != id
  }

  /** The place where an id is listed last. */
  ghost predicate LastAt(ps: seq<Position>, i: nat, id: string) {
    i < |ps| && ps[i].id == id && forall j | i < j < |ps| :: ps[j].id != id
  }

  /** The entry is what the snapshot lists last under its id. */
  ghost predicate Latest(ps: seq<Position>, q: Position) {
    exists i: nat :: LastAt(ps, i, q.id) && ps[i] == q
  }

  /** The ids are listed first in this order. */
  ghost predicate InOrder(ps: seq<Position>, x: string, y: string) {
    forall i: nat, j: nat | FirstAt(ps, i, x) && FirstAt(ps, j, y) :: i < j
  }

  /** The table entries come in the order in which their ids are listed first, each as it is listed last. */
  ghost predicate TableOf(ps: seq<Position>, t: seq<Position>) {
    && (forall k | 0 <= k < |t| :: Latest(ps, t[k]))
    && forall k, l | 0 <= k < l < |t| :: InOrder(ps, t[k].id, t[l].id)
  }

  lemma FirstOrLast(ps: seq<Position>, p: Position, id: string, i: nat)
    ensures i < |ps| ==> (FirstAt(ps + [p], i, id) <==> FirstAt(ps, i, id))
    ensures FirstAt(ps + [p], |ps|, id) <==> p.id == id && !HasId(ps, id)
    ensures i < |ps| ==> (LastAt(ps + [p], i, id) <==> LastAt(ps, i, id) && p.id != id)
    ensures LastAt(ps + [p], |ps|, id) <==> p.id == id
  {
    var all := ps + [p];
    assert all[|ps|] == p && forall j | 0 <= j < |ps| :: all[j] == ps[j];
  }

  lemma LatestStays(ps: seq<Position>, p: Position, q: Position)
    requires Latest(ps, q) && q.id != p.id
    ensures Latest(ps + [p], q)
  {
    var i: nat :| LastAt(ps, i, q.id) && ps[i] == q;
    FirstOrLast(ps, p, q.id, i);
    assert (ps + [p])[i] == q;
  }

  lemma LatestIsNew(ps: seq<Position>, p: Position)
    ensures Latest(ps + [p], p)
  {
    FirstOrLast(ps, p, p.id, 0);
    assert LastAt(ps + [p], |ps|, p.id) && (ps + [p])[|ps|] == p;
  }

  /** One more position does not change the order of ids of which the first was listed before. */
  lemma OrderStays(ps: seq<Position>, p: Position, x: string, y: string)
    requires HasId(ps, x) && (HasId(ps, y) ==> InOrder(ps, x, y))
    ensures InOrder(ps + [p], x, y)
  {
    forall i: nat, j: nat | FirstAt(ps + [p], i, x) && FirstAt(ps + [p], j, y) ensures i < j {
      FirstOrLast(ps, p, x, i);
      FirstOrLast(ps, p, y, j);
      if j < |ps| {
        assert HasId(ps, y);
      }
    }
  }

  lemma PutKeepsTable(ps: seq<Position>, t: seq<Position>, p: Position)
    requires TableOf(ps, t) && DistinctIds(t) && (forall id :: HasId(t, id) <==> HasId(ps, id) && id != "")
    requires p.id != ""
    ensures TableOf(ps + [p], Put(t, p))
  {
    var t' := Put(t, p);
    var at := Find(t, p.id);
    forall k | 0 <= k < |t'| ensures Latest(ps + [p], t'[k]) {
      if k == at {
        LatestIsNew(ps, p);
      } else {
        assert t'[k] == t[k] && t[k].id != p.id;
        LatestStays(ps, p, t[k]);
      }
    }
    forall k, l | 0 <= k < l < |t'| ensures InOrder(ps + [p], t'[k].id, t'[l].id) {
      assert t'[k].id == t[k].id && HasId(t, t[k].id);
      if l < |t| {
        assert t'[l].id == t[l].id && InOrder(ps, t[k].id, t[l].id);
      } else {
        assert t'[l] == p && !HasId(t, p.id);
        OrderOfNew(ps, t, p, t[k].id);
      }
      OrderStays(ps, p, t'[k].id, t'[l].id);
    }
  }

  lemma OrderOfNew(ps: seq<Position>, t: seq<Position>, p: Position, x: string)
    requires forall id :: HasId(t, id) <==> HasId(ps, id) && id != ""
    requires !HasId(t, p.id) && p.id != ""
    ensures HasId(ps, p.id) ==> InOrder(ps, x, p.id)
  {
  }

  /** Where a snapshot lists an id twice, the table has it once, at its first place and with its last contents. */
  lemma {:induction false} IndexedIsTable(ps: seq<Position>)
    ensures TableOf(ps, Indexed(ps))
  {
    if ps != [] {
      var n := |ps| - 1;
      var before, p := ps[..n], ps[n];
      IndexedIsTable(before);
      assert ps == before + [p];
      if p.id == "" {
        forall k | 0 <= k < |Indexed(before)| ensures Indexed(before)[k].id != "" {
          assert HasId(Indexed(before), Indexed(before)[k].id);
        }
        NamelessIsSkipped(before, p, Indexed(before));
      } else {
        PutKeepsTable(before, Indexed(before), p);
      }
    }
  }

  lemma NamelessIsSkipped(ps: seq<Position>, p: Position, t: seq<Position>)
    requires TableOf(ps, t) && p.id == "" && forall k | 0 <= k < |t| :: t[k].id != ""
    ensures TableOf(ps + [p], t)
  {
    forall k | 0 <= k < |t| ensures Latest(ps + [p], t[k]) {
      LatestStays(ps, p, t[k]);
    }
    forall k, l | 0 <= k < l < |t| ensures InOrder(ps + [p], t[k].id, t[l].id) {
      var i: nat :| LastAt(ps, i, t[k].id) && ps[i] == t[k];
      assert HasId(ps, t[k].id) && InOrder(ps, t[k].id, t[l].id);
      OrderStays(ps, p, t[k].id, t[l].id);
    }
  }

  function Lookup(table: seq<Position>, id: string): (r: Option<Position>)
    ensures r.None? <==> !HasId(table, id)
    ensures r.Some? ==> r.value in table && r.value.id == id
  {
    var i := Find(table, id);
    if i == |table| then None else Some(table[i])
  }
}
