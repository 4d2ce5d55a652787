/** First-fit assignment: every item of a list takes the first free slot that suits it. When that finds
    an assignment whenever there is one. */
module Matching {
  /** rows[i][j] says whether slot j suits item i. */
  type Rows = seq<seq<bool>>

  /** The first free suitable slot from j on, or |row|. */
  function Fit(row: seq<bool>, used: set<nat>, j: nat): (r: nat)
    requires j <= |row|
    ensures j <= r <= |row| && (r < |row| ==> row[r] && r !in used)
    ensures forall k :: j <= k < r ==> !row[k] || k in used
    decreases |row| - j
  {
    if j == |row| || (row[j] && j !in used) then j else Fit(row, used, j + 1)
  }

  predicate Fits(rows: Rows, used: set<nat>) {
    rows == [] ||
    var j := Fit(rows[0], used, 0);
    j < |rows[0]| && Fits(rows[1..], used + {j})
  }

  /** m gives every item a free suitable slot of its own. */
  ghost predicate Assigns(rows: Rows, used: set<nat>, m: seq<nat>) {
    && |m| == |rows|
    && (forall i :: 0 <= i < |m| ==> m[i] < |rows[i]| && rows[i][m[i]] && m[i] !in used)
    && forall i, k :: 0 <= i < k < |m| ==> m[i] != m[k]
  }

  ghost predicate Assignable(rows: Rows, used: set<nat>) {
    exists m :: Assigns(rows, used, m)
  }

  lemma {:induction false} FitsAssigns(rows: Rows, used: set<nat>) returns (m: seq<nat>)
    requires Fits(rows, used)
    ensures Assigns(rows, used, m)
  {
    if rows == [] {
      m := [];
    } else {
      var j := Fit(rows[0], used, 0);
      var rest := FitsAssigns(rows[1..], used + {j});
      m := [j] + rest;
    }
  }

  predicate Suits(rows: Rows, i: nat, j: nat) {
    i < |rows| && j < |rows[i]| && rows[i][j]
  }

  /** An earlier item that shares a slot with a later one is content with no more than the later one. */
  ghost predicate Nested(rows: Rows) {
    forall i: nat, k: nat, x: nat, y: nat :: i < k && Suits(rows, i, x) && Suits(rows, k, x) && Suits(rows, i, y) ==>
      Suits(rows, k, y)
  }

  lemma {:induction false} NestedFits(rows: Rows, used: set<nat>, m: seq<nat>)
    requires Nested(rows) && Assigns(rows, used, m)
    ensures Fits(rows, used)
    decreases |rows|
  {
    if rows != [] {
      var j := Fit(rows[0], used, 0);
      var rest, tail := rows[1..], m[1..];
      if j in tail {
        tail := Exchange(rows, used, m, j);
      }
      NestedRest(rows);
      NestedFits(rest, used + {j}, tail);
    }
  }

  /** The item that has slot j takes the first item's slot instead. */
  lemma Exchange(rows: Rows, used: set<nat>, m: seq<nat>, j: nat) returns (tail: seq<nat>)
    requires Nested(rows) && Assigns(rows, used, m) && rows != [] && j in m[1..] && Suits(rows, 0, j)
    ensures Assigns(rows[1..], used + {j}, tail)
  {
    tail := m[1..];
    var p :| 0 <= p < |tail| && tail[p] == j;
    assert Suits(rows, p + 1, j) && Suits(rows, 0, m[0]) && m[0] != m[p + 1];
    assert Suits(rows, p + 1, m[0]);
    tail := tail[p := m[0]];
  }

  lemma NestedRest(rows: Rows)
    requires Nested(rows) && rows != []
    ensures Nested(rows[1..])
  {
    var rest := rows[1..];
    assert forall i: nat, x: nat :: Suits(rest, i, x) <==> Suits(rows, i + 1, x);
  }

  function Upto(n: nat): (s: set<nat>)
    ensures forall k :: k in s <==> 0 <= k < n
  {
    if n == 0 then {} else Upto(n - 1) + {n - 1}
  }

  /** With the slots before i taken, item i goes to slot i when it suits, and so on. */
  lemma {:induction false} DiagonalFits(rows: Rows, i: nat, n: nat)
    requires i <= n <= |rows|
    requires forall k :: i <= k < n ==> Suits(rows, k, k)
    ensures Fits(rows[i..], Upto(i)) <==> Fits(rows[n..], Upto(n))
    decreases n - i
  {
    if i < n {
      assert Suits(rows, i, i) && Fit(rows[i], Upto(i), 0) == i;
      assert rows[i..][1..] == rows[i + 1..];
      assert Upto(i) + {i} == Upto(i + 1);
      DiagonalFits(rows, i + 1, n);
    }
  }

  // ---------- which lists are fitted whenever they can be ----------

  function Grid<T>(fits: (T, T) -> bool, items: seq<T>, slots: seq<T>): (rows: Rows)
    ensures |rows| == |items|
    ensures forall i :: 0 <= i < |items| ==> |rows[i]| == |slots|
    ensures forall i, j :: 0 <= i < |items| && 0 <= j < |slots| ==> rows[i][j] == fits(items[i], slots[j])
  {
    seq(|items|, i requires 0 <= i < |items| => seq(|slots|, j requires 0 <= j < |slots| => fits(items[i], slots[j])))
  }

  ghost predicate Preorder<T(!new)>(fits: (T, T) -> bool) {
    && (forall x :: fits(x, x))
    && forall x, y, z :: fits(x, y) && fits(y, z) ==> fits(x, z)
  }

  /** Whenever one slot suits two items, the later one takes every slot the earlier one takes. */
  ghost predicate Ordered<T(!new)>(fits: (T, T) -> bool, items: seq<T>) {
    forall i, k, t, t' :: 0 <= i < k < |items| && fits(items[i], t) && fits(items[k], t) && fits(items[i], t') ==>
      fits(items[k], t')
  }

  ghost predicate Exact<T(!new)>(fits: (T, T) -> bool, items: seq<T>) {
    forall slots :: Fits(Grid(fits, items, slots), {}) <==> Assignable(Grid(fits, items, slots), {})
  }

  lemma OrderedIsExact<T(!new)>(fits: (T, T) -> bool, items: seq<T>)
    requires Ordered(fits, items)
    ensures Exact(fits, items)
  {
    forall slots ensures Fits(Grid(fits, items, slots), {}) <==> Assignable(Grid(fits, items, slots), {}) {
      var rows := Grid(fits, items, slots);
      hide Fits, Assigns, Grid, Nested;
      GridNested(fits, items, slots);
      if Fits(rows, {}) {
        var m := FitsAssigns(rows, {});
      }
      if m :| Assigns(rows, {}, m) {
        NestedFits(rows, {}, m);
      }
    }
  }

  lemma GridNested<T(!new)>(fits: (T, T) -> bool, items: seq<T>, slots: seq<T>)
    requires Ordered(fits, items)
    ensures Nested(Grid(fits, items, slots))
  {
    var rows := Grid(fits, items, slots);
    forall i: nat, k: nat, x: nat, y: nat | i < k && Suits(rows, i, x) && Suits(rows, k, x) && Suits(rows, i, y)
      ensures Suits(rows, k, y)
    {
      assert fits(items[i], slots[x]) && fits(items[k], slots[x]) && fits(items[i], slots[y]);
    }
  }

  lemma FitsStep(rows: Rows, n: nat, used: set<nat>)
    requires n < |rows|
    ensures var q := Fit(rows[n], used, 0);
      Fits(rows[n..], used) <==> q < |rows[n]| && Fits(rows[n + 1..], used + {q})
  {
    assert rows[n..][0] == rows[n] && rows[n..][1..] == rows[n + 1..];
  }

  /** Past item k, every item suits its own slot, and an item whose slot suits k is content with no
      more than k is. */
  ghost predicate Downward(rows: Rows, k: nat) {
    && (forall n: nat :: k < n < |rows| ==> |rows[n]| == |rows| && Suits(rows, n, n))
    && forall n: nat, q: nat :: k < n && Suits(rows, k, n) && Suits(rows, n, q) ==> Suits(rows, k, q)
  }

  /** An item that lost its slot p to an earlier one can only take the slot of an item that k could
      replace; the slot h that stays open suits none of these. */
  lemma {:induction false} Displaced(rows: Rows, k: nat, n: nat, h: nat, p: nat)
    requires Downward(rows, k) && k < n <= p < |rows| && h < n
    requires Suits(rows, k, p) && !Suits(rows, k, h)
    ensures !Fits(rows[n..], Except(n, h, p))
    decreases |rows| - n
  {
    hide *;
    var q := Taken(rows, k, n, h, p);
    if n == p {
      if q < |rows| {
        OneTaken(n, h, q);
        Displaced(rows, k, n + 1, h, q);
      }
    } else if Suits(rows, n, h) {
      HoleTaken(n, h, p);
      Displaced(rows, k, n + 1, n, p);
    } else {
      OwnTaken(n, h, p);
      Displaced(rows, k, n + 1, h, p);
    }
  }

  lemma Taken(rows: Rows, k: nat, n: nat, h: nat, p: nat) returns (q: nat)
    requires Downward(rows, k) && k < n <= p < |rows| && h < n
    requires Suits(rows, k, p) && !Suits(rows, k, h)
    ensures Fits(rows[n..], Except(n, h, p)) ==> q < |rows| && Fits(rows[n + 1..], Except(n, h, p) + {q})
    ensures n < p && !Suits(rows, n, h) ==> q == n
    ensures n < p && Suits(rows, n, h) ==> q == h && !Suits(rows, k, n)
    ensures n == p && q < |rows| ==> n < q && Suits(rows, k, q)
  {
    assert Suits(rows, n, n);
    var used := Except(n, h, p);
    q := Fit(rows[n], used, 0);
    FitsStep(rows, n, used);
    assert q < |rows| ==> Suits(rows, n, q) && q !in used;
    hide Fit, Fits, Upto;
    if n < p {
      assert n !in used && h !in used && forall l :: 0 <= l < n && l != h ==> l in used;
    }
  }

  /** The slots before n without h, and p. */
  function Except(n: nat, h: nat, p: nat): set<nat> {
    Upto(n) - {h} + {p}
  }

  lemma OneTaken(n: nat, h: nat, q: nat)
    requires h < n
    ensures Except(n, h, n) + {q} == Except(n + 1, h, q)
  {
  }

  lemma HoleTaken(n: nat, h: nat, p: nat)
    requires h < n
    ensures Except(n, h, p) + {h} == Except(n + 1, n, p)
  {
  }

  lemma OwnTaken(n: nat, h: nat, p: nat)
    requires h < n
    ensures Except(n, h, p) + {n} == Except(n + 1, h, p)
  {
  }

  lemma Reflexive<T(!new)>(fits: (T, T) -> bool, a: T)
    requires Preorder(fits)
    ensures fits(a, a)
  {
  }

  /** Items i and k both suit t, and t' suits only i: in front of these slots, among the items
      themselves, item i takes t and nothing is left for k in the end. */
  lemma UnorderedFails<T(!new)>(fits: (T, T) -> bool, items: seq<T>, i: nat, k: nat, t: T, t': T)
    requires Preorder(fits) && i < k < |items|
    requires fits(items[i], t) && fits(items[k], t) && fits(items[i], t') && !fits(items[k], t')
    ensures var rows := Grid(fits, items, items[i := t][k := t']); Assignable(rows, {}) && !Fits(rows, {})
  {
    var slots := items[i := t][k := t'];
    var rows := Grid(fits, items, slots);
    hide *;
    SwapAssigns(fits, items, i, k, t, t');
    assert forall l :: 0 <= l < |items| && l != i && l != k ==> slots[l] == items[l];
    assert slots[i] == t && slots[k] == t';
    Prefix(fits, items, slots, k, i, t);
    GridDownward(fits, items, slots, k);
    NotOnGrid(fits, items, slots, k);
    Blocked(rows, k);
  }

  lemma GridDownward<T(!new)>(fits: (T, T) -> bool, items: seq<T>, slots: seq<T>, k: nat)
    requires Preorder(fits) && k < |items| == |slots| && forall l :: k < l < |items| ==> slots[l] == items[l]
    ensures Downward(Grid(fits, items, slots), k)
  {
    var rows := Grid(fits, items, slots);
    forall n: nat | k < n < |rows| ensures |rows[n]| == |rows| && Suits(rows, n, n) {
      Reflexive(fits, items[n]);
    }
    forall n: nat, q: nat | k < n && Suits(rows, k, n) && Suits(rows, n, q) ensures Suits(rows, k, q) {
      Further(fits, items[k], items[n], slots[q]);
    }
  }

  lemma NotOnGrid<T(!new)>(fits: (T, T) -> bool, items: seq<T>, slots: seq<T>, k: nat)
    requires k < |items| == |slots| && !fits(items[k], slots[k])
    ensures !Suits(Grid(fits, items, slots), k, k)
  {
  }

  lemma Further<T(!new)>(fits: (T, T) -> bool, a: T, b: T, t: T)
    requires Preorder(fits) && fits(a, b) && fits(b, t)
    ensures fits(a, t)
  {
  }

  lemma Blocked(rows: Rows, k: nat)
    requires k < |rows| && Downward(rows, k) && |rows[k]| == |rows| && !Suits(rows, k, k)
    requires forall l :: 0 <= l < k ==> Suits(rows, l, l)
    ensures !Fits(rows, {})
  {
    DiagonalFits(rows, 0, k);
    UptoZero();
    assert rows[0..] == rows;
    var p := Fit(rows[k], Upto(k), 0);
    assert p < |rows| ==> p > k && Suits(rows, k, p);
    hide *;
    FitsStep(rows, k, Upto(k));
    if p < |rows| {
      WithHole(k, p);
      Displaced(rows, k, k + 1, k, p);
    }
  }

  lemma UptoZero()
    ensures Upto(0) == {}
  {
  }

  lemma WithHole(k: nat, p: nat)
    ensures Upto(k) + {p} == Except(k + 1, k, p)
  {
  }

  lemma Prefix<T(!new)>(fits: (T, T) -> bool, items: seq<T>, slots: seq<T>, k: nat, i: nat, t: T)
    requires Preorder(fits) && i < k < |items| && |slots| == |items| && fits(items[i], t) && slots[i] == t
    requires forall l :: 0 <= l < k && l != i ==> slots[l] == items[l]
    ensures forall l :: 0 <= l < k ==> Suits(Grid(fits, items, slots), l, l)
  {
    var rows := Grid(fits, items, slots);
    forall l | 0 <= l < k ensures Suits(rows, l, l) {
      Reflexive(fits, items[l]);
    }
  }

  lemma SwapAssigns<T(!new)>(fits: (T, T) -> bool, items: seq<T>, i: nat, k: nat, t: T, t': T)
    requires Preorder(fits) && i < k < |items| && fits(items[k], t) && fits(items[i], t')
    ensures Assignable(Grid(fits, items, items[i := t][k := t']), {})
  {
    var slots := items[i := t][k := t'];
    var rows := Grid(fits, items, slots);
    var m := seq(|items|, l => if l == i then k else if l == k then i else l);
    hide Preorder;
    forall l | 0 <= l < |items| ensures m[l] < |items| && rows[l][m[l]] {
      Reflexive(fits, items[l]);
    }
    assert Assigns(rows, {}, m);
  }

  /** First fit finds an assignment for every list of slots that has one, if and only if the items are
      ordered. */
  lemma ExactIffOrdered<T(!new)>(fits: (T, T) -> bool, items: seq<T>)
    requires Preorder(fits)
    ensures Exact(fits, items) <==> Ordered(fits, items)
  {
    if Ordered(fits, items) {
      OrderedIsExact(fits, items);
    } else {
      var i, k, t, t' := NotOrdered(fits, items);
      hide *;
      UnorderedFails(fits, items, i, k, t, t');
      NotExact(fits, items, items[i := t][k := t']);
    }
  }

  lemma NotOrdered<T(!new)>(fits: (T, T) -> bool, items: seq<T>) returns (i: nat, k: nat, t: T, t': T)
    requires !Ordered(fits, items)
    ensures i < k < |items| && fits(items[i], t) && fits(items[k], t) && fits(items[i], t') && !fits(items[k], t')
  {
    i, k, t, t' :| 0 <= i < k < |items| && fits(items[i], t) && fits(items[k], t) && fits(items[i], t')
      && !fits(items[k], t');
  }

  lemma NotExact<T(!new)>(fits: (T, T) -> bool, items: seq<T>, slots: seq<T>)
    requires Assignable(Grid(fits, items, slots), {}) && !Fits(Grid(fits, items, slots), {})
    ensures !Exact(fits, items)
  {
  }
}
