/** Paths in a finite directed graph given by its successor sets. */
module Reachability {
  type Graph<T> = map<T, set<T>>

  ghost predicate Edge<T>(m: Graph<T>, a: T, b: T) {
    a in m && b in m && b in m[a]
  }

  /** p is a non-empty list of nodes, each an edge away from the one before. */
  ghost predicate IsPath<T>(m: Graph<T>, older p: seq<T>) {
    && p != []
    && (forall i :: 0 <= i < |p| ==> p[i] in m)
    && (forall i :: 0 <= i < |p| - 1 ==> Edge(m, p[i], p[i + 1]))
  }

  ghost predicate Leads<T>(m: Graph<T>, older p: seq<T>, a: T, b: T) {
    IsPath(m, p) && p[0] == a && p[|p| - 1] == b
  }

  /** b is reached from a by one or more edges. */
  ghost predicate Reaches<T>(m: Graph<T>, a: T, b: T) {
    exists p :: Leads(m, p, a, b) && |p| >= 2
  }

  lemma EdgeReaches<T>(m: Graph<T>, a: T, b: T)
    requires Edge(m, a, b)
    ensures Reaches(m, a, b)
  {
    assert Leads(m, [a, b], a, b);
  }

  lemma ReachesTrans<T>(m: Graph<T>, a: T, b: T, c: T)
    requires Reaches(m, a, b) && Reaches(m, b, c)
    ensures Reaches(m, a, c)
  {
    var p :| Leads(m, p, a, b) && |p| >= 2;
    var q :| Leads(m, q, b, c) && |q| >= 2;
    var r := p + q[1..];
    forall i | 0 <= i < |r| - 1 ensures Edge(m, r[i], r[i + 1]) {
      if i >= |p| - 1 {
        assert r[i] == q[i - |p| + 1] && r[i + 1] == q[i - |p| + 2];
      }
    }
    assert Leads(m, r, a, c);
  }

  // ---------- taking a node out, its neighbours joined ----------

  /** The graph without x, every predecessor of x pointing to all successors of x instead. */
  ghost function Contract<T>(m: Graph<T>, x: T): Graph<T>
    requires x in m
  {
    map g | g in m && g != x :: if x in m[g] then (m[g] - {x}) + (m[x] - {x}) else m[g]
  }

  lemma ContractLacks<T>(m: Graph<T>, x: T)
    requires x in m
    ensures Contract(m, x).Keys == m.Keys - {x} && forall g :: g in Contract(m, x) ==> x !in Contract(m, x)[g]
  {
  }

  // ---------- the same, predecessor by predecessor ----------

  /** The graph after the predecessors in order have lost x and gained its successors, one by one; x
      may be among them. */
  ghost function Joined<T>(m: Graph<T>, x: T, order: seq<T>): (r: Graph<T>)
    requires x in m && forall p :: p in order ==> p in m
    ensures r.Keys == m.Keys
    decreases |order|
  {
    if order == [] then m
    else
      var r, p := Joined(m, x, order[..|order| - 1]), order[|order| - 1];
      r[p := if p == x then r[x] - {x} else (r[p] - {x}) + r[x]]
  }

  lemma JoinedMore<T>(m: Graph<T>, x: T, order: seq<T>, p: T)
    requires x in m && p in m && forall q :: q in order ==> q in m
    ensures var r := Joined(m, x, order);
      Joined(m, x, order + [p]) == r[p := if p == x then r[x] - {x} else (r[p] - {x}) + r[x]]
  {
    assert (order + [p])[..|order|] == order;
  }

  /** y comes after some x in order. */
  ghost predicate After<T>(order: seq<T>, x: T, y: T) {
    exists i, j :: 0 <= i < j < |order| && order[i] == x && order[j] == y
  }

  lemma {:induction false} JoinedAt<T>(m: Graph<T>, x: T, order: seq<T>, g: T)
    requires x in m && g in m && (forall p :: p in order ==> p in m)
    requires forall i, j :: 0 <= i < j < |order| ==> order[i] != order[j]
    ensures Joined(m, x, order)[g] ==
      if g == x then (if x in order then m[x] - {x} else m[x])
      else if g !in order then m[g]
      else (m[g] - {x}) + if After(order, x, g) then m[x] - {x} else m[x]
    decreases |order|
  {
    if order != [] {
      var init, p := order[..|order| - 1], order[|order| - 1];
      assert order == init + [p];
      JoinedAt(m, x, init, g);
      JoinedAt(m, x, init, x);
      AfterLast(init, p, x, g);
    }
  }

  lemma AfterLast<T>(init: seq<T>, p: T, x: T, g: T)
    requires p !in init
    ensures After(init + [p], x, g) <==> After(init, x, g) || (p == g && x in init)
  {
    var order := init + [p];
    if After(order, x, g) {
      var i, j :| 0 <= i < j < |order| && order[i] == x && order[j] == g;
      assert order[i] == init[i];
    }
    if After(init, x, g) {
      var i, j :| 0 <= i < j < |init| && init[i] == x && init[j] == g;
      assert order[i] == x && order[j] == g;
    }
    if p == g && x in init {
      var i :| 0 <= i < |init| && init[i] == x;
      assert order[i] == x && order[|init|] == g;
    }
  }

  /** But for pointers back to x, the order does not matter. */
  lemma JoinedIsContract<T>(m: Graph<T>, x: T, order: seq<T>, g: T)
    requires x in m && g in m && g != x && (forall p :: p in order <==> p in m && x in m[p])
    requires forall i, j :: 0 <= i < j < |order| ==> order[i] != order[j]
    ensures Joined(m, x, order)[g] - {x} == Contract(m, x)[g]
  {
    JoinedAt(m, x, order, g);
  }

  /** Edges to nodes outside the graph make no difference. */
  lemma SameReach<T>(m: Graph<T>, k: Graph<T>, a: T, b: T)
    requires m.Keys == k.Keys && forall g, h :: g in m && h in m ==> (h in m[g] <==> h in k[g])
    ensures Reaches(m, a, b) <==> Reaches(k, a, b)
  {
    if p :| Leads(m, p, a, b) && |p| >= 2 {
      SamePath(m, k, p);
    }
    if p :| Leads(k, p, a, b) && |p| >= 2 {
      SamePath(k, m, p);
    }
  }

  lemma SamePath<T>(m: Graph<T>, k: Graph<T>, p: seq<T>)
    requires m.Keys == k.Keys && forall g, h :: g in m && h in m ==> (h in m[g] <==> h in k[g])
    requires IsPath(m, p)
    ensures IsPath(k, p)
  {
    forall i | 0 <= i < |p| - 1 ensures Edge(k, p[i], p[i + 1]) {
      assert Edge(m, p[i], p[i + 1]);
    }
  }

  /** With a self-loop, exactly the predecessors that were handled before x itself get x back. */
  lemma JoinedPointsBack<T>(m: Graph<T>, x: T, order: seq<T>, g: T)
    requires x in m && g in m && g != x && (forall p :: p in order <==> p in m && x in m[p])
    requires forall i, j :: 0 <= i < j < |order| ==> order[i] != order[j]
    ensures x in Joined(m, x, order)[g] <==> x in m[x] && x in m[g] && !After(order, x, g)
  {
    JoinedAt(m, x, order, g);
  }

  /** Nobody else points at x in the end, if and only if x has no self-loop or was handled first. */
  lemma NobodyPointsBackIff<T>(m: Graph<T>, x: T, order: seq<T>)
    requires x in m && (forall p :: p in order <==> p in m && x in m[p])
    requires forall i, j :: 0 <= i < j < |order| ==> order[i] != order[j]
    ensures (forall g :: g in m && g != x ==> x !in Joined(m, x, order)[g]) <==> x !in m[x] || order[0] == x
  {
    forall g | g in m && g != x
      ensures x in Joined(m, x, order)[g] <==> x in m[x] && x in m[g] && !After(order, x, g)
    {
      JoinedPointsBack(m, x, order, g);
    }
    if x in m[x] {
      assert x in order;
      var k :| 0 <= k < |order| && order[k] == x;
      if k == 0 {
        forall g | g in m && g != x && x in m[g] ensures After(order, x, g) {
          var j :| 0 <= j < |order| && order[j] == g;
        }
      } else {
        assert order[0] in order && !After(order, x, order[0]);
      }
    }
  }

  lemma {:induction false} PathAround<T>(m: Graph<T>, x: T, p: seq<T>)
    requires x in m && (forall g :: g in m ==> m[g] <= m.Keys)
    requires IsPath(m, p) && |p| >= 2 && p[0] != x && p[|p| - 1] != x
    ensures Reaches(Contract(m, x), p[0], p[|p| - 1])
    decreases |p|
  {
    var k := Contract(m, x);
    var step := if p[1] == x then 2 else 1;
    assert Edge(m, p[0], p[1]);
    if step == 2 {
      assert Edge(m, p[1], p[2]);
    }
    if p[step] == x {
      var q := [p[0]] + p[2..];
      forall i | 0 <= i < |q| - 1 ensures Edge(m, q[i], q[i + 1]) {
        if i > 0 {
          assert Edge(m, p[i + 1], p[i + 2]);
        }
      }
      PathAround(m, x, q);
    } else {
      assert Edge(k, p[0], p[step]);
      EdgeReaches(k, p[0], p[step]);
      if |p| > step + 1 {
        var q := p[step..];
        forall i | 0 <= i < |q| - 1 ensures Edge(m, q[i], q[i + 1]) {
          assert Edge(m, p[i + step], p[i + step + 1]);
        }
        PathAround(m, x, q);
        ReachesTrans(k, p[0], p[step], p[|p| - 1]);
      }
    }
  }

  lemma {:induction false} PathThrough<T>(m: Graph<T>, x: T, p: seq<T>)
    requires x in m && IsPath(Contract(m, x), p) && |p| >= 2
    ensures Reaches(m, p[0], p[|p| - 1])
    decreases |p|
  {
    var k := Contract(m, x);
    assert Edge(k, p[0], p[1]);
    if p[1] in m[p[0]] {
      EdgeReaches(m, p[0], p[1]);
    } else {
      EdgeReaches(m, p[0], x);
      EdgeReaches(m, x, p[1]);
      ReachesTrans(m, p[0], x, p[1]);
    }
    if |p| > 2 {
      var q := p[1..];
      forall i | 0 <= i < |q| - 1 ensures Edge(k, q[i], q[i + 1]) {
        assert Edge(k, p[i + 1], p[i + 2]);
      }
      PathThrough(m, x, q);
      ReachesTrans(m, p[0], p[1], p[|p| - 1]);
    }
  }

  /** Between the other nodes, exactly the same reachability. */
  lemma ContractKeepsReach<T>(m: Graph<T>, x: T, a: T, b: T)
    requires x in m && (forall g :: g in m ==> m[g] <= m.Keys)
    requires a != x && b != x
    ensures Reaches(m, a, b) <==> Reaches(Contract(m, x), a, b)
  {
    if Reaches(m, a, b) {
      var p :| Leads(m, p, a, b) && |p| >= 2;
      PathAround(m, x, p);
    }
    if Reaches(Contract(m, x), a, b) {
      var p :| Leads(Contract(m, x), p, a, b) && |p| >= 2;
      PathThrough(m, x, p);
    }
  }

  // ---------- everything reached from a set ----------

  /** x is one of the starting nodes or reached from one. */
  ghost predicate From<T>(m: Graph<T>, start: set<T>, x: T) {
    exists p :: IsPath(m, p) && p[0] in start && p[|p| - 1] == x
  }

  ghost function Reached<T>(m: Graph<T>, start: set<T>): set<T> {
    set x | x in m && From(m, start, x)
  }

  lemma FromStart<T>(m: Graph<T>, start: set<T>, x: T)
    requires x in start && x in m
    ensures From(m, start, x)
  {
    assert IsPath(m, [x]);
  }

  lemma FromStep<T>(m: Graph<T>, start: set<T>, x: T, y: T)
    requires From(m, start, x) && Edge(m, x, y)
    ensures From(m, start, y)
  {
    var p :| IsPath(m, p) && p[0] in start && p[|p| - 1] == x;
    var q := p + [y];
    assert forall i :: 0 <= i < |q| - 1 ==> Edge(m, q[i], q[i + 1]);
    assert IsPath(m, q) && q[0] in start && q[|q| - 1] == y;
  }

  ghost predicate ClosedUnder<T>(m: Graph<T>, s: set<T>) {
    forall x, y :: x in s && y in m && Edge(m, x, y) ==> y in s
  }

  /** A closed set holding the start holds everything reached from it. */
  lemma {:induction false} ClosedHoldsPath<T>(m: Graph<T>, s: set<T>, p: seq<T>)
    requires ClosedUnder(m, s) && IsPath(m, p) && p[0] in s
    ensures p[|p| - 1] in s
    decreases |p|
  {
    if |p| > 1 {
      var q := p[..|p| - 1];
      assert forall i :: 0 <= i < |q| - 1 ==> Edge(m, q[i], q[i + 1]);
      ClosedHoldsPath(m, s, q);
      assert Edge(m, p[|p| - 2], p[|p| - 1]);
    }
  }

  lemma ClosedIsReached<T>(m: Graph<T>, start: set<T>, s: set<T>)
    requires ClosedUnder(m, s) && start <= s && forall x :: x in s ==> From(m, start, x)
    ensures forall x :: x in s <==> From(m, start, x)
  {
    forall x | From(m, start, x) ensures x in s {
      var p :| IsPath(m, p) && p[0] in start && p[|p| - 1] == x;
      ClosedHoldsPath(m, s, p);
    }
  }

  /** Recording every edge at both ends survives taking a node out. */
  lemma ContractBothWays<T>(m: Graph<T>, up: Graph<T>, x: T, a: T, b: T)
    requires x in m && m.Keys == up.Keys
    requires forall g, h :: g in m && h in m ==> (h in m[g] <==> g in up[h])
    requires a in m && b in m && a != x && b != x
    ensures b in Contract(m, x)[a] <==> a in Contract(up, x)[b]
  {
  }

  // ---------- a worklist: a set that grows while it is gone through ----------

  /** The first i entries of the queue have been gone through. */
  ghost predicate Worklist<T>(m: Graph<T>, start: set<T>, queue: seq<T>, i: nat) {
    && i <= |queue|
    && (forall x :: x in queue ==> x in m && From(m, start, x))
    && (forall x :: x in start ==> x in queue)
    && (forall j, y :: 0 <= j < i && queue[j] in m && y in m[queue[j]] ==> y in queue)
  }

  lemma WorklistGrows<T>(m: Graph<T>, start: set<T>, queue: seq<T>, x: T, queue': seq<T>)
    requires forall y :: y in queue ==> y in m && From(m, start, y)
    requires x in queue && m[x] <= m.Keys
    requires forall y :: y in queue' <==> y in queue || y in m[x]
    ensures forall y :: y in queue' ==> y in m && From(m, start, y)
  {
    forall y | y in queue' ensures y in m && From(m, start, y) {
      if y !in queue {
        FromStep(m, start, x, y);
      }
    }
  }

  lemma WorklistStep<T>(m: Graph<T>, start: set<T>, queue: seq<T>, i: nat, queue': seq<T>)
    requires Worklist(m, start, queue, i) && i < |queue| && queue <= queue'
    requires queue[i] in m && m[queue[i]] <= m.Keys
    requires forall x :: x in queue' <==> x in queue || x in m[queue[i]]
    ensures Worklist(m, start, queue', i + 1)
  {
    WorklistGrows(m, start, queue, queue[i], queue');
    hide From;
    forall j, y | 0 <= j < i + 1 && queue'[j] in m && y in m[queue'[j]] ensures y in queue' {
      assert queue'[j] == queue[j];
    }
  }

  lemma WorklistStart<T>(m: Graph<T>, start: set<T>, queue: seq<T>)
    requires start <= m.Keys && forall x :: x in queue <==> x in start
    ensures Worklist(m, start, queue, 0)
  {
    forall x | x in queue ensures From(m, start, x) {
      FromStart(m, start, x);
    }
  }

  /** Gone through to the end, the queue holds exactly what is reached. */
  lemma WorklistDone<T>(m: Graph<T>, start: set<T>, queue: seq<T>)
    requires Worklist(m, start, queue, |queue|)
    ensures (set x | x in queue) == Reached(m, start)
  {
    var s := set x | x in queue;
    forall x, y | x in s && y in m && Edge(m, x, y) ensures y in s {
      var j :| 0 <= j < |queue| && queue[j] == x;
    }
    assert ClosedUnder(m, s);
    ClosedIsReached(m, start, s);
  }

  // ---------- paths that leave the entries ----------

  /** The edges into nodes of e. */
  ghost function Into<T>(m: Graph<T>, e: set<T>): Graph<T> {
    map g | g in m :: m[g] * e
  }

  /** The nodes outside e one edge away from what entries alone reach. */
  ghost predicate Leaves<T>(m: Graph<T>, e: set<T>, start: set<T>, x: T) {
    x in m && x !in e && exists g :: g in m && From(Into(m, e), start, g) && x in m[g]
  }

  /** A path from the start to x with a node outside e somewhere after its first. */
  ghost predicate LeavingPath<T>(m: Graph<T>, e: set<T>, start: set<T>, older p: seq<T>, x: T) {
    IsPath(m, p) && p[0] in start && p[|p| - 1] == x && exists i :: 1 <= i < |p| && p[i] !in e
  }

  lemma {:induction false} LeavingIsReached<T>(m: Graph<T>, e: set<T>, start: set<T>, left: set<T>, p: seq<T>, x: T)
    requires forall g :: g in m ==> m[g] <= m.Keys
    requires forall y :: y in left <==> Leaves(m, e, start, y)
    requires LeavingPath(m, e, start, p, x)
    ensures From(m, left, x)
    decreases |p|
  {
    var n := |p| - 1;
    var q := p[..n];
    assert Edge(m, p[n - 1], p[n]);
    assert forall i :: 0 <= i < |q| - 1 ==> Edge(m, q[i], q[i + 1]) by {
      forall i | 0 <= i < |q| - 1 ensures Edge(m, q[i], q[i + 1]) {
        assert Edge(m, p[i], p[i + 1]);
      }
    }
    if i :| 1 <= i < n && p[i] !in e {
      assert q[i] !in e;
      LeavingIsReached(m, e, start, left, q, p[n - 1]);
      FromStep(m, left, p[n - 1], x);
    } else {
      forall i | 0 <= i < |q| - 1 ensures Edge(Into(m, e), q[i], q[i + 1]) {
        assert Edge(m, q[i], q[i + 1]);
      }
      assert IsPath(Into(m, e), q);
      assert From(Into(m, e), start, p[n - 1]);
      assert Leaves(m, e, start, x);
      FromStart(m, left, x);
    }
  }

  lemma IntoIsPath<T>(m: Graph<T>, e: set<T>, p: seq<T>)
    requires IsPath(Into(m, e), p)
    ensures IsPath(m, p)
  {
    forall i | 0 <= i < |p| - 1 ensures Edge(m, p[i], p[i + 1]) {
      assert Edge(Into(m, e), p[i], p[i + 1]);
    }
  }

  lemma ReachedIsLeaving<T>(m: Graph<T>, e: set<T>, start: set<T>, left: set<T>, x: T) returns (p: seq<T>)
    requires forall y :: y in left <==> Leaves(m, e, start, y)
    requires From(m, left, x)
    ensures LeavingPath(m, e, start, p, x)
  {
    var r :| IsPath(m, r) && r[0] in left && r[|r| - 1] == x;
    assert Leaves(m, e, start, r[0]);
    var g :| g in m && From(Into(m, e), start, g) && r[0] in m[g];
    var q :| IsPath(Into(m, e), q) && q[0] in start && q[|q| - 1] == g;
    IntoIsPath(m, e, q);
    p := q + r;
    forall i | 0 <= i < |p| - 1 ensures Edge(m, p[i], p[i + 1]) {
      if i < |q| - 1 {
        assert Edge(m, q[i], q[i + 1]);
      } else if i >= |q| {
        assert Edge(m, r[i - |q|], r[i - |q| + 1]);
      }
    }
    assert p[|q|] == r[0] && p[|q|] !in e;
  }
}
