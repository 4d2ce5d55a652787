/** The partial, unordered deep match: what it decides, and when that is whether the source is contained
    in the target. */
module PartialMatch {
  import opened JsHeap
  import opened JsTree
  import opened Matching

  const LENGTH := Name("length")

  // ---------- the match ----------

  /** Whether s matches t in part. Of fields with one key, the first counts. */
  predicate Part(s: Tree, t: Tree)
    decreases s, 1
  {
    match s
    case Leaf(_) => t == s
    case Node(_, a, fs) =>
      && t.Node? && t.isArray == a
      && (a ==> |fs| <= |t.fields| && Fits(PartRows(fs, t.fields), {}))
      && (!a ==> PartFields(fs, t.fields))
  }

  function PartRows(fs: seq<Field>, ts: seq<Field>): (rows: Rows)
    ensures |rows| == |fs| && forall i :: 0 <= i < |fs| ==> rows[i] == PartRow(fs[i], ts)
    decreases fs, 0
  {
    seq(|fs|, i requires 0 <= i < |fs| => PartRow(fs[i], ts))
  }

  function PartRow(f: Field, ts: seq<Field>): (row: seq<bool>)
    ensures |row| == |ts| && forall j :: 0 <= j < |ts| ==> row[j] == Part(f.value, ts[j].value)
    decreases f, 0
  {
    seq(|ts|, j requires 0 <= j < |ts| => Part(f.value, ts[j].value))
  }

  predicate PartFields(fs: seq<Field>, ts: seq<Field>)
    decreases fs, 0
  {
    forall i :: 0 <= i < |fs| && Find(fs, fs[i].key) == i ==> PartOf(fs[i], ts)
  }

  predicate PartOf(f: Field, ts: seq<Field>)
    decreases f, 0
  {
    Has(ts, f.key) && Part(f.value, Get(ts, f.key))
  }

  // ---------- containment ----------

  /** s is contained in t: equal leaves; arrays under an injective choice of target elements; objects
      under inclusion of keys. */
  ghost predicate Embeds(s: Tree, t: Tree)
    decreases s, 1
  {
    match s
    case Leaf(_) => t == s
    case Node(_, a, fs) =>
      && t.Node? && t.isArray == a
      && (a ==> Assignable(EmbedRows(fs, t.fields), {}))
      && (!a ==> EmbedFields(fs, t.fields))
  }

  ghost function EmbedRows(fs: seq<Field>, ts: seq<Field>): (rows: Rows)
    ensures |rows| == |fs| && forall i :: 0 <= i < |fs| ==> rows[i] == EmbedRow(fs[i], ts)
    decreases fs, 0
  {
    seq(|fs|, i requires 0 <= i < |fs| => EmbedRow(fs[i], ts))
  }

  ghost function EmbedRow(f: Field, ts: seq<Field>): (row: seq<bool>)
    ensures |row| == |ts| && forall j :: 0 <= j < |ts| ==> row[j] == Embeds(f.value, ts[j].value)
    decreases f, 0
  {
    seq(|ts|, j requires 0 <= j < |ts| => Embeds(f.value, ts[j].value))
  }

  ghost predicate EmbedFields(fs: seq<Field>, ts: seq<Field>)
    decreases fs, 0
  {
    forall i :: 0 <= i < |fs| && Find(fs, fs[i].key) == i ==> EmbedOf(fs[i], ts)
  }

  ghost predicate EmbedOf(f: Field, ts: seq<Field>)
    decreases f, 0
  {
    Has(ts, f.key) && Embeds(f.value, Get(ts, f.key))
  }

  // ---------- soundness ----------

  lemma {:induction false} PartEmbeds(s: Tree, t: Tree)
    requires Part(s, t)
    ensures Embeds(s, t)
    decreases s
  {
    if s.Node? && s.isArray {
      var m := FitsAssigns(PartRows(s.fields, t.fields), {});
      forall i | 0 <= i < |m| ensures EmbedRows(s.fields, t.fields)[i][m[i]] {
        PartEmbeds(s.fields[i].value, t.fields[m[i]].value);
      }
      assert Assigns(EmbedRows(s.fields, t.fields), {}, m);
    } else if s.Node? {
      forall i | 0 <= i < |s.fields| && Find(s.fields, s.fields[i].key) == i ensures EmbedOf(s.fields[i], t.fields) {
        assert PartOf(s.fields[i], t.fields);
        PartEmbeds(s.fields[i].value, Get(t.fields, s.fields[i].key));
      }
    }
  }

  lemma {:induction false} PartReflexive(t: Tree)
    ensures Part(t, t)
    decreases t
  {
    if t.Node? && t.isArray {
      var rows := PartRows(t.fields, t.fields);
      forall i: nat | i < |rows| ensures Suits(rows, i, i) {
        PartReflexive(t.fields[i].value);
      }
      DiagonalFits(rows, 0, |rows|);
      assert rows[0..] == rows && rows[|rows|..] == [] && Upto(0) == {};
    } else if t.Node? {
      forall i | 0 <= i < |t.fields| && Find(t.fields, t.fields[i].key) == i ensures PartOf(t.fields[i], t.fields) {
        PartReflexive(t.fields[i].value);
      }
    }
  }

  lemma EmbedsReflexive(t: Tree)
    ensures Embeds(t, t)
  {
    PartReflexive(t);
    PartEmbeds(t, t);
  }

  lemma {:induction false} EmbedsTransitive(x: Tree, y: Tree, z: Tree)
    requires Embeds(x, y) && Embeds(y, z)
    ensures Embeds(x, z)
    decreases x
  {
    if x.Node? && x.isArray {
      var m :| Assigns(EmbedRows(x.fields, y.fields), {}, m);
      var n :| Assigns(EmbedRows(y.fields, z.fields), {}, n);
      forall i | 0 <= i < |m| ensures EmbedRows(x.fields, z.fields)[i][n[m[i]]] {
        assert EmbedRows(x.fields, y.fields)[i][m[i]] && EmbedRows(y.fields, z.fields)[m[i]][n[m[i]]];
        EmbedsTransitive(x.fields[i].value, y.fields[m[i]].value, z.fields[n[m[i]]].value);
      }
      ComposeAssigns(EmbedRows(x.fields, z.fields), m, n);
    } else if x.Node? {
      forall i | 0 <= i < |x.fields| && Find(x.fields, x.fields[i].key) == i ensures EmbedOf(x.fields[i], z.fields) {
        var f := x.fields[i];
        assert EmbedOf(f, y.fields);
        assert EmbedOf(y.fields[Find(y.fields, f.key)], z.fields);
        EmbedsTransitive(f.value, Get(y.fields, f.key), Get(z.fields, f.key));
      }
    }
  }

  lemma ComposeAssigns(rows: Rows, m: seq<nat>, n: seq<nat>)
    requires |m| == |rows| && forall i :: 0 <= i < |m| ==> m[i] < |n| && n[m[i]] < |rows[i]| && rows[i][n[m[i]]]
    requires forall i, k :: 0 <= i < k < |m| ==> m[i] != m[k]
    requires forall i, k :: 0 <= i < k < |n| ==> n[i] != n[k]
    ensures Assignable(rows, {})
  {
    var c := seq(|m|, i requires 0 <= i < |m| => n[m[i]]);
    assert Assigns(rows, {}, c);
  }

  // ---------- exactness ----------

  function Items(fs: seq<Field>): (ts: seq<Tree>)
    ensures |ts| == |fs| && forall i :: 0 <= i < |fs| ==> ts[i] == fs[i].value
  {
    seq(|fs|, i requires 0 <= i < |fs| => fs[i].value)
  }

  ghost function Containment(): (fits: (Tree, Tree) -> bool)
    ensures forall s, t :: fits(s, t) == Embeds(s, t)
  {
    (s, t) => Embeds(s, t)
  }

  /** The match finds s in every target that contains it. */
  ghost predicate Decides(s: Tree) {
    forall t :: Part(s, t) <==> Embeds(s, t)
  }

  lemma AllDecideRows(fs: seq<Field>, ts: seq<Field>)
    requires forall i :: 0 <= i < |fs| ==> Decides(fs[i].value)
    ensures PartRows(fs, ts) == EmbedRows(fs, ts) == Grid(Containment(), Items(fs), Items(ts))
  {
    forall i | 0 <= i < |fs|
      ensures PartRows(fs, ts)[i] == EmbedRows(fs, ts)[i] == Grid(Containment(), Items(fs), Items(ts))[i]
    {
      assert Decides(fs[i].value);
    }
  }

  lemma AssignableFew(rows: Rows, n: nat)
    requires Assignable(rows, {}) && forall i :: 0 <= i < |rows| ==> |rows[i]| == n
    ensures |rows| <= n
  {
    var m :| Assigns(rows, {}, m);
    Pigeons(m, n);
  }

  lemma {:induction false} Pigeons(m: seq<nat>, n: nat)
    requires (forall i :: 0 <= i < |m| ==> m[i] < n) && forall i, k :: 0 <= i < k < |m| ==> m[i] != m[k]
    ensures |m| <= n
  {
    if m != [] {
      if i :| 0 <= i < |m| && m[i] == n - 1 {
        Pigeons(m[..i] + m[i + 1..], n - 1);
      } else {
        assert m[0] < n;
        Pigeons(m[1..], n - 1);
      }
    }
  }

  /** For an array whose elements are decided: the match finds it in every target containing it, if and
      only if its elements are ordered by containment. */
  lemma ArrayDecidedIffOrdered(s: Tree)
    requires s.Node? && s.isArray && forall i :: 0 <= i < |s.fields| ==> Decides(s.fields[i].value)
    ensures Decides(s) <==> Ordered(Containment(), Items(s.fields))
  {
    var fits, items := Containment(), Items(s.fields);
    ContainmentOrders();
    ExactIffOrdered(fits, items);
    hide *;
    if Exact(fits, items) {
      forall t ensures Part(s, t) <==> Embeds(s, t) {
        if t.Node? && t.isArray {
          ArrayRows(s, t);
          ExactAt(fits, items, Items(t.fields));
        } else {
          OtherKind(s, t);
        }
      }
      Decided(s);
    }
    if Decides(s) {
      forall slots ensures Fits(Grid(fits, items, slots), {}) <==> Assignable(Grid(fits, items, slots), {}) {
        DecidedAt(s, slots);
      }
      ExactMade(fits, items);
    }
  }

  lemma ExactAt(fits: (Tree, Tree) -> bool, items: seq<Tree>, slots: seq<Tree>)
    requires Exact(fits, items)
    ensures Fits(Grid(fits, items, slots), {}) <==> Assignable(Grid(fits, items, slots), {})
  {
  }

  lemma ExactMade(fits: (Tree, Tree) -> bool, items: seq<Tree>)
    requires forall slots :: Fits(Grid(fits, items, slots), {}) <==> Assignable(Grid(fits, items, slots), {})
    ensures Exact(fits, items)
  {
  }

  lemma Decided(s: Tree)
    requires forall t :: Part(s, t) <==> Embeds(s, t)
    ensures Decides(s)
  {
  }

  lemma OtherKind(s: Tree, t: Tree)
    requires s.Node? && s.isArray && !(t.Node? && t.isArray)
    ensures !Part(s, t) && !Embeds(s, t)
  {
  }

  lemma ArrayRows(s: Tree, t: Tree)
    requires s.Node? && s.isArray && t.Node? && t.isArray
    requires forall i :: 0 <= i < |s.fields| ==> Decides(s.fields[i].value)
    ensures var rows := Grid(Containment(), Items(s.fields), Items(t.fields));
      (Part(s, t) <==> Fits(rows, {})) && (Embeds(s, t) <==> Assignable(rows, {}))
  {
    AllDecideRows(s.fields, t.fields);
    var rows := Grid(Containment(), Items(s.fields), Items(t.fields));
    hide Fits, Assigns;
    if Fits(rows, {}) {
      var m := FitsAssigns(rows, {});
      AssignableFew(rows, |t.fields|);
    }
  }

  lemma DecidedAt(s: Tree, slots: seq<Tree>)
    requires s.Node? && s.isArray && Decides(s) && forall i :: 0 <= i < |s.fields| ==> Decides(s.fields[i].value)
    ensures var rows := Grid(Containment(), Items(s.fields), slots); Fits(rows, {}) <==> Assignable(rows, {})
  {
    var t := Node(0, true, seq(|slots|, j requires 0 <= j < |slots| => Field(Index(j), slots[j])));
    assert Items(t.fields) == slots;
    assert Part(s, t) <==> Embeds(s, t);
    hide *;
    ArrayRows(s, t);
  }

  lemma ContainmentOrders()
    ensures Preorder(Containment())
  {
    forall x ensures Embeds(x, x) {
      EmbedsReflexive(x);
    }
    forall x, y, z | Embeds(x, y) && Embeds(y, z) ensures Embeds(x, z) {
      EmbedsTransitive(x, y, z);
    }
  }

  lemma ObjectDecides(s: Tree, t: Tree)
    requires s.Node? && !s.isArray && t.Node?
    requires forall i :: 0 <= i < |s.fields| && Find(s.fields, s.fields[i].key) == i ==> Decides(s.fields[i].value)
    ensures Part(s, t) <==> Embeds(s, t)
  {
    forall i | 0 <= i < |s.fields| && Find(s.fields, s.fields[i].key) == i
      ensures PartOf(s.fields[i], t.fields) <==> EmbedOf(s.fields[i], t.fields)
    {
      assert Decides(s.fields[i].value);
    }
  }

  // ---------- arrays of primitives ----------

  /** The elements of ts from j on whose index is free. */
  ghost function Free(ts: seq<Tree>, used: set<nat>, j: nat): multiset<Tree>
    requires j <= |ts|
    decreases |ts| - j
  {
    if j == |ts| then multiset{}
    else (if j in used then multiset{} else multiset{ts[j]}) + Free(ts, used, j + 1)
  }

  lemma {:induction false} FreeLess(ts: seq<Tree>, used: set<nat>, p: nat, j: nat)
    requires j <= |ts| && p < |ts| && p !in used
    ensures Free(ts, used, j) == Free(ts, used + {p}, j) + (if j <= p then multiset{ts[p]} else multiset{})
    decreases |ts| - j
  {
    if j < |ts| {
      FreeLess(ts, used, p, j + 1);
      assert j in used + {p} <==> j in used || j == p;
    }
  }

  lemma {:induction false} NotFree(ts: seq<Tree>, used: set<nat>, x: Tree, j: nat)
    requires j <= |ts| && forall p :: j <= p < |ts| ==> ts[p] != x || p in used
    ensures x !in Free(ts, used, j)
    decreases |ts| - j
  {
    if j < |ts| {
      NotFree(ts, used, x, j + 1);
    }
  }

  lemma {:induction false} FreeAll(ts: seq<Tree>, j: nat)
    requires j <= |ts|
    ensures Free(ts, {}, j) == multiset(ts[j..])
    decreases |ts| - j
  {
    if j < |ts| {
      FreeAll(ts, j + 1);
      assert ts[j..] == [ts[j]] + ts[j + 1..];
    }
  }

  lemma {:induction false} FitsCounts(fs: seq<Field>, ts: seq<Field>, used: set<nat>)
    requires forall i :: 0 <= i < |fs| ==> fs[i].value.Leaf?
    ensures Fits(PartRows(fs, ts), used) <==> multiset(Items(fs)) <= Free(Items(ts), used, 0)
    decreases |fs|
  {
    if fs != [] {
      var x, slots := fs[0].value, Items(ts);
      var j := Fit(PartRow(fs[0], ts), used, 0);
      FirstRow(fs, ts, used);
      FirstItem(fs);
      assert forall p :: 0 <= p < |ts| && slots[p] == x ==> PartRow(fs[0], ts)[p];
      hide *;
      if j < |ts| {
        FitsCounts(fs[1..], ts, used + {j});
        FreeLess(slots, used, j, 0);
        OneMore(x, multiset(Items(fs[1..])), Free(slots, used + {j}, 0));
      } else {
        NotFree(slots, used, x, 0);
        Missing(x, multiset(Items(fs[1..])), Free(slots, used, 0));
      }
    }
  }

  lemma OneMore(x: Tree, a: multiset<Tree>, b: multiset<Tree>)
    ensures multiset{x} + a <= b + multiset{x} <==> a <= b
  {
    if multiset{x} + a <= b + multiset{x} {
      forall y ensures a[y] <= b[y] {
        assert (multiset{x} + a)[y] <= (b + multiset{x})[y];
      }
    }
  }

  lemma Missing(x: Tree, a: multiset<Tree>, b: multiset<Tree>)
    requires x !in b
    ensures !(multiset{x} + a <= b)
  {
    assert x in multiset{x} + a;
  }

  lemma FirstRow(fs: seq<Field>, ts: seq<Field>, used: set<nat>)
    requires fs != []
    ensures var j := Fit(PartRow(fs[0], ts), used, 0);
      Fits(PartRows(fs, ts), used) <==> j < |ts| && Fits(PartRows(fs[1..], ts), used + {j})
    ensures var j := Fit(PartRow(fs[0], ts), used, 0);
      j < |ts| && fs[0].value.Leaf? ==> ts[j].value == fs[0].value
  {
    assert PartRows(fs, ts)[1..] == PartRows(fs[1..], ts);
  }

  lemma FirstItem(fs: seq<Field>)
    requires fs != []
    ensures multiset(Items(fs)) == multiset{fs[0].value} + multiset(Items(fs[1..]))
  {
    assert Items(fs) == [fs[0].value] + Items(fs[1..]);
  }

  /** An array of primitives matches exactly the arrays holding each of its elements at least as often. */
  lemma FlatArrayCounts(s: Tree, t: Tree)
    requires s.Node? && s.isArray && t.Node? && t.isArray
    requires forall i :: 0 <= i < |s.fields| ==> s.fields[i].value.Leaf?
    ensures Part(s, t) <==> multiset(Items(s.fields)) <= multiset(Items(t.fields))
  {
    FitsCounts(s.fields, t.fields, {});
    FreeAll(Items(t.fields), 0);
    assert Items(t.fields)[0..] == Items(t.fields);
    if multiset(Items(s.fields)) <= multiset(Items(t.fields)) {
      var m := FitsAssigns(PartRows(s.fields, t.fields), {});
      AssignableFew(PartRows(s.fields, t.fields), |t.fields|);
    }
  }

  // ---------- what the match misses ----------

  function Object(k: string, n: int): Tree {
    Node(0, false, [Field(Name(k), Leaf(Number(n)))])
  }

  function Pair(a: Tree, b: Tree): Tree {
    Node(0, true, [Field(Index(0), a), Field(Index(1), b)])
  }

  /** [{}, {a: 1}] is contained in [{a: 1}, {b: 2}], but {} takes {a: 1} and nothing is left. */
  lemma GreedyMisses()
    ensures var s, t := Pair(Node(0, false, []), Object("a", 1)), Pair(Object("a", 1), Object("b", 2));
      Embeds(s, t) && !Part(s, t)
  {
    var s, t := Pair(Node(0, false, []), Object("a", 1)), Pair(Object("a", 1), Object("b", 2));
    PairRows(s.fields, t.fields);
    hide PartRows, EmbedRows, Object;
    FirstTakesBoth();
  }

  lemma FirstTakesBoth()
    ensures var rows := [[true, true], [true, false]]; !Fits(rows, {}) && Assignable(rows, {})
  {
    var rows := [[true, true], [true, false]];
    assert Fit(rows[0], {}, 0) == 0;
    assert Fit(rows[1], {0}, 0) == 2;
    assert rows[1..][0] == rows[1];
    assert Assigns(rows, {}, [1, 0]);
  }

  lemma PairRows(fs: seq<Field>, ts: seq<Field>)
    requires |fs| == 2 && |ts| == 2
    requires fs[0].value == Node(0, false, []) && fs[1].value == Object("a", 1)
    requires ts[0].value == Object("a", 1) && ts[1].value == Object("b", 2)
    ensures PartRows(fs, ts) == [[true, true], [true, false]] && EmbedRows(fs, ts) == [[true, true], [true, false]]
  {
    EmptyMatches(ts[0].value);
    EmptyMatches(ts[1].value);
    PartReflexive(fs[1].value);
    assert !Has(ts[1].value.fields, Name("a"));
    assert !PartOf(fs[1].value.fields[0], ts[1].value.fields);
    assert !EmbedOf(fs[1].value.fields[0], ts[1].value.fields);
    PartEmbeds(fs[1].value, ts[0].value);
    PartEmbeds(fs[0].value, ts[0].value);
    PartEmbeds(fs[0].value, ts[1].value);
    assert PartRow(fs[0], ts) == [true, true] && PartRow(fs[1], ts) == [true, false];
    assert EmbedRow(fs[0], ts) == [true, true] && EmbedRow(fs[1], ts) == [true, false];
  }

  /** The empty object matches every object, with an own "constructor" or without, and nothing else. */
  lemma EmptyMatches(t: Tree)
    ensures Part(Node(0, false, []), t) <==> t.Node? && !t.isArray
  {
  }

  // ---------- the match of a whole source ----------

  /** Property k of any value but null and undefined. */
  predicate HasProperty(t: Tree, k: Key) {
    match t
    case Leaf(Text(s)) => k == LENGTH || (k.Index? && k.i < |s|)
    case Leaf(_) => false
    case Node(_, a, fs) => Has(fs, k) || (a && k == LENGTH)
  }

  function Property(t: Tree, k: Key): Tree {
    match t
    case Leaf(Text(s)) =>
      if k == LENGTH then Leaf(Number(|s|)) else if k.Index? && k.i < |s| then Leaf(Text([s[k.i]])) else Leaf(Undefined)
    case Leaf(_) => Leaf(Undefined)
    case Node(_, a, fs) => if a && k == LENGTH then Leaf(Number(|fs|)) else Get(fs, k)
  }

  /** matches(s)(t), fs being the fields of s. */
  predicate Match(fs: seq<Field>, t: Tree) {
    if t == Leaf(Undefined) || t == Leaf(Null) then fs == []
    else forall i :: 0 <= i < |fs| && Find(fs, fs[i].key) == i ==> MatchesField(fs[i], t)
  }

  predicate MatchesField(f: Field, t: Tree) {
    HasProperty(t, f.key) && Part(f.value, Property(t, f.key))
  }

  /** What a source with one property asks of an array or a string: "length" is the length of either, an
      index is one of the string's characters. */
  lemma LengthMatches(n: int, i: nat, c: char, l: Loc, fs: seq<Field>, s: string)
    requires forall j :: 0 <= j < |fs| ==> fs[j].key.Index?
    ensures Match([Field(Name("length"), Leaf(Number(n)))], Node(l, true, fs)) <==> n == |fs|
    ensures Match([Field(Name("length"), Leaf(Number(n)))], Leaf(Text(s))) <==> n == |s|
    ensures Match([Field(Index(i), Leaf(Text([c])))], Leaf(Text(s))) <==> i < |s| && s[i] == c
  {
    OneProperty(Field(Name("length"), Leaf(Number(n))), Node(l, true, fs));
    OneProperty(Field(Name("length"), Leaf(Number(n))), Leaf(Text(s)));
    OneProperty(Field(Index(i), Leaf(Text([c]))), Leaf(Text(s)));
    assert !Has(fs, Name("length"));
    if i < |s| {
      assert [s[i]][0] == s[i];
    }
  }

  /** Null, undefined, booleans and numbers match the empty source only; of an array, any other property asked
      for is its own. */
  lemma PrimitivesMatchEmpty(fs: seq<Field>, v: Value, f: Field, l: Loc, es: seq<Field>)
    requires !v.Text?
    ensures Match(fs, Leaf(v)) <==> fs == []
    ensures f.key != Name("length") ==>
      (Match([f], Node(l, true, es)) <==> Has(es, f.key) && Part(f.value, Get(es, f.key)))
  {
    if fs != [] {
      assert Find(fs, fs[0].key) == 0;
    }
    OneProperty(f, Node(l, true, es));
  }

  lemma OneProperty(f: Field, t: Tree)
    ensures Match([f], t) <==> t != Leaf(Undefined) && t != Leaf(Null) && MatchesField(f, t)
  {
    assert [f][0] == f && Find([f], f.key) == 0;
  }

  /** On objects, the whole match, which starts with all keys and primitive values, is the deep one. */
  lemma MatchIsPart(s: Tree, t: Tree)
    requires s.Node? && !s.isArray && t.Node? && !t.isArray
    ensures Part(s, t) <==> Match(s.fields, t)
  {
    forall i | 0 <= i < |s.fields| ensures MatchesField(s.fields[i], t) <==> PartOf(s.fields[i], t.fields) {
    }
  }

  /** Every object matches itself. */
  lemma MatchesItself(t: Tree)
    requires t.Node? && !t.isArray
    ensures Match(t.fields, t)
  {
    PartReflexive(t);
    MatchIsPart(t, t);
  }
}
