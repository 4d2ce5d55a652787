/** Which sources the partial match finds in every target that contains them: a test on the source
    alone. */
module MatchOrder {
  import opened JsHeap
  import opened JsTree
  import opened Matching
  import opened PartialMatch

  // ---------- values that one value can contain ----------

  /** Some value contains both a and b. */
  predicate Compatible(a: Tree, b: Tree)
    decreases a, 1
  {
    match a
    case Leaf(_) => b == a
    case Node(_, arr, fs) =>
      && b.Node? && b.isArray == arr
      && (!arr ==> CompatibleFields(fs, b.fields))
  }

  predicate CompatibleFields(fs: seq<Field>, ts: seq<Field>)
    decreases fs, 0
  {
    forall i :: 0 <= i < |fs| && Find(fs, fs[i].key) == i ==> CompatibleField(fs[i], ts)
  }

  predicate CompatibleField(f: Field, ts: seq<Field>)
    decreases f, 0
  {
    Has(ts, f.key) ==> Compatible(f.value, Get(ts, f.key))
  }

  /** A value that contains a and b. */
  function Join(a: Tree, b: Tree): Tree
    decreases a, 1
  {
    if a.Leaf? || b.Leaf? then a
    else if a.isArray then Node(0, true, Numbered(Items(a.fields) + Items(b.fields)))
    else Node(0, false, JoinFields(a.fields, b.fields) + Others(b.fields, a.fields))
  }

  function Numbered(ts: seq<Tree>): (fs: seq<Field>)
    ensures |fs| == |ts| && forall i :: 0 <= i < |ts| ==> fs[i].value == ts[i]
  {
    seq(|ts|, i requires 0 <= i < |ts| => Field(Index(i), ts[i]))
  }

  function JoinFields(fs: seq<Field>, ts: seq<Field>): (r: seq<Field>)
    ensures |r| == |fs| && forall i :: 0 <= i < |fs| ==> r[i] == JoinField(fs[i], ts)
    decreases fs, 0
  {
    seq(|fs|, i requires 0 <= i < |fs| => JoinField(fs[i], ts))
  }

  function JoinField(f: Field, ts: seq<Field>): (r: Field)
    ensures r.key == f.key
    decreases f, 0
  {
    Field(f.key, if Has(ts, f.key) then Join(f.value, Get(ts, f.key)) else f.value)
  }

  /** The fields of ts whose keys are not in fs. */
  function Others(ts: seq<Field>, fs: seq<Field>): seq<Field> {
    if ts == [] then [] else (if Has(fs, ts[0].key) then [] else [ts[0]]) + Others(ts[1..], fs)
  }

  lemma {:induction false} OthersHas(ts: seq<Field>, fs: seq<Field>, k: Key)
    ensures Has(Others(ts, fs), k) <==> Has(ts, k) && !Has(fs, k)
    ensures !Has(fs, k) ==> Get(Others(ts, fs), k) == Get(ts, k)
    decreases |ts|
  {
    if ts != [] {
      OthersHas(ts[1..], fs, k);
      FindIn([ts[0]], Others(ts[1..], fs), k);
      FindIn([ts[0]], ts[1..], k);
      assert [ts[0]] + ts[1..] == ts;
      if Has(fs, ts[0].key) {
        assert [] + Others(ts[1..], fs) == Others(ts[1..], fs);
      }
    }
  }

  lemma {:induction false} FindIn(a: seq<Field>, b: seq<Field>, k: Key)
    ensures Has(a + b, k) <==> Has(a, k) || Has(b, k)
    ensures Get(a + b, k) == if Has(a, k) then Get(a, k) else Get(b, k)
    decreases |a|
  {
    FindSum(a, b, k);
    if Has(a, k) {
      assert (a + b)[Find(a, k)] == a[Find(a, k)];
    } else if Has(b, k) {
      assert (a + b)[|a| + Find(b, k)] == b[Find(b, k)];
    }
  }

  lemma {:induction false} FindSum(a: seq<Field>, b: seq<Field>, k: Key)
    ensures Find(a + b, k) == if Has(a, k) then Find(a, k) else |a| + Find(b, k)
    decreases |a|
  {
    if a == [] {
      assert a + b == b;
    } else {
      assert (a + b)[1..] == a[1..] + b;
      FindSum(a[1..], b, k);
    }
  }

  lemma {:induction false} JoinFieldsFind(fs: seq<Field>, ts: seq<Field>, k: Key)
    ensures Find(JoinFields(fs, ts), k) == Find(fs, k)
    decreases |fs|
  {
    if fs != [] {
      JoinFieldsFind(fs[1..], ts, k);
      assert JoinFields(fs, ts)[1..] == JoinFields(fs[1..], ts);
    }
  }

  /** What the join of two objects has under k. */
  lemma JoinGet(a: Tree, b: Tree, k: Key)
    requires a.Node? && b.Node? && !a.isArray && !b.isArray
    ensures Join(a, b).Node? && !Join(a, b).isArray
    ensures Has(Join(a, b).fields, k) <==> Has(a.fields, k) || Has(b.fields, k)
    ensures Get(Join(a, b).fields, k) ==
      if Has(a.fields, k) && Has(b.fields, k) then Join(Get(a.fields, k), Get(b.fields, k))
      else if Has(a.fields, k) then Get(a.fields, k) else Get(b.fields, k)
  {
    FindIn(JoinFields(a.fields, b.fields), Others(b.fields, a.fields), k);
    JoinFieldsFind(a.fields, b.fields, k);
    OthersHas(b.fields, a.fields, k);
  }

  lemma {:induction false} JoinContains(a: Tree, b: Tree)
    requires Compatible(a, b)
    ensures Embeds(a, Join(a, b)) && Embeds(b, Join(a, b))
    decreases a
  {
    if a.Node? && a.isArray {
      ConcatContains(a, b);
    } else if a.Node? {
      var j := Join(a, b);
      forall i | 0 <= i < |a.fields| && Find(a.fields, a.fields[i].key) == i ensures EmbedOf(a.fields[i], j.fields) {
        var f := a.fields[i];
        assert CompatibleField(f, b.fields);
        JoinGet(a, b, f.key);
        if Has(b.fields, f.key) {
          JoinContains(f.value, Get(b.fields, f.key));
        } else {
          EmbedsReflexive(f.value);
        }
      }
      forall i | 0 <= i < |b.fields| && Find(b.fields, b.fields[i].key) == i ensures EmbedOf(b.fields[i], j.fields) {
        var f := b.fields[i];
        JoinGet(a, b, f.key);
        if Has(a.fields, f.key) {
          var g := a.fields[Find(a.fields, f.key)];
          assert CompatibleField(g, b.fields);
          JoinContains(g.value, f.value);
        } else {
          EmbedsReflexive(f.value);
        }
      }
    } else {
      EmbedsReflexive(a);
    }
  }

  lemma ConcatContains(a: Tree, b: Tree)
    requires a.Node? && b.Node? && a.isArray && b.isArray
    ensures Embeds(a, Join(a, b)) && Embeds(b, Join(a, b))
  {
    var ts := Numbered(Items(a.fields) + Items(b.fields));
    ConcatAt(a.fields, b.fields);
    assert Join(a, b) == Node(0, true, ts);
    hide Join, Numbered;
    Shifted(a.fields, ts, 0);
    Shifted(b.fields, ts, |a.fields|);
    hide Assignable, EmbedRows;
  }

  lemma ConcatAt(a: seq<Field>, b: seq<Field>)
    ensures var ts := Numbered(Items(a) + Items(b));
      && |ts| == |a| + |b| && (forall i :: 0 <= i < |a| ==> ts[i].value == a[i].value)
      && forall i :: 0 <= i < |b| ==> ts[|a| + i].value == b[i].value
  {
  }

  /** A list found in another one from position n on. */
  lemma Shifted(fs: seq<Field>, ts: seq<Field>, n: nat)
    requires n + |fs| <= |ts| && forall i :: 0 <= i < |fs| ==> ts[n + i].value == fs[i].value
    ensures Assignable(EmbedRows(fs, ts), {})
  {
    var m := seq(|fs|, i => n + i);
    forall i | 0 <= i < |m| ensures EmbedRows(fs, ts)[i][m[i]] {
      EmbedsReflexive(fs[i].value);
      hide Embeds;
    }
    assert Assigns(EmbedRows(fs, ts), {}, m);
  }

  lemma {:induction false} ContainedIsCompatible(a: Tree, b: Tree, t: Tree)
    requires Embeds(a, t) && Embeds(b, t)
    ensures Compatible(a, b)
    decreases a
  {
    if a.Node? && !a.isArray {
      forall i | 0 <= i < |a.fields| && Find(a.fields, a.fields[i].key) == i
        ensures CompatibleField(a.fields[i], b.fields)
      {
        var f := a.fields[i];
        assert EmbedOf(f, t.fields);
        if Has(b.fields, f.key) {
          assert EmbedOf(b.fields[Find(b.fields, f.key)], t.fields);
          ContainedIsCompatible(f.value, Get(b.fields, f.key), Get(t.fields, f.key));
        }
      }
    }
  }

  /** Two values are compatible, if and only if some value contains both. */
  lemma CompatibleIff(a: Tree, b: Tree)
    ensures Compatible(a, b) <==> exists t :: Embeds(a, t) && Embeds(b, t)
  {
    hide Compatible, Embeds, Join;
    if Compatible(a, b) {
      JoinContains(a, b);
      var t := Join(a, b);
      assert Embeds(a, t) && Embeds(b, t);
    } else {
      forall t ensures !(Embeds(a, t) && Embeds(b, t)) {
        if Embeds(a, t) && Embeds(b, t) {
          ContainedIsCompatible(a, b, t);
        }
      }
    }
  }

  // ---------- the test on a source ----------

  /** Of two elements that one value can contain, the later is found in the earlier. */
  predicate InOrder(items: seq<Tree>) {
    forall i, k :: 0 <= i < k < |items| && Compatible(items[i], items[k]) ==> Part(items[k], items[i])
  }

  /** Every array of s, at any depth, is in order; of fields with one key, the first counts. */
  predicate WellOrdered(s: Tree)
    decreases s, 1
  {
    match s
    case Leaf(_) => true
    case Node(_, a, fs) =>
      && (a ==> InOrder(Items(fs)))
      && forall i :: 0 <= i < |fs| && (a || Find(fs, fs[i].key) == i) ==> WellOrderedField(fs[i])
  }

  predicate WellOrderedField(f: Field)
    decreases f, 0
  {
    WellOrdered(f.value)
  }

  lemma OrderedIffInOrder(items: seq<Tree>)
    requires forall i :: 0 <= i < |items| ==> Decides(items[i])
    ensures Ordered(Containment(), items) <==> InOrder(items)
  {
    var fits := Containment();
    if Ordered(fits, items) {
      forall i, k | 0 <= i < k < |items| && Compatible(items[i], items[k]) ensures Part(items[k], items[i]) {
        CompatibleIff(items[i], items[k]);
        var t :| Embeds(items[i], t) && Embeds(items[k], t);
        EmbedsReflexive(items[i]);
        assert fits(items[i], t) && fits(items[k], t) && fits(items[i], items[i]);
        assert Decides(items[k]);
      }
    }
    if InOrder(items) {
      forall i, k, t, t' | 0 <= i < k < |items| && fits(items[i], t) && fits(items[k], t) && fits(items[i], t')
        ensures fits(items[k], t')
      {
        ContainedIsCompatible(items[i], items[k], t);
        PartEmbeds(items[k], items[i]);
        EmbedsTransitive(items[k], items[i], t');
      }
    }
  }

  /** For an array whose elements are decided: it is found in every target that contains it, if and only
      if its elements are in order. */
  lemma ArrayDecidedIffInOrder(s: Tree)
    requires s.Node? && s.isArray && forall i :: 0 <= i < |s.fields| ==> Decides(s.fields[i].value)
    ensures Decides(s) <==> InOrder(Items(s.fields))
  {
    hide Decides, Ordered, InOrder;
    OrderedIffInOrder(Items(s.fields));
    ArrayDecidedIffOrdered(s);
  }

  // ---------- a source that is decided has decided parts ----------

  lemma {:induction false} ImageSize(m: seq<nat>, a: set<nat>, b: set<nat>)
    requires forall l :: l in a ==> l < |m| && m[l] in b
    requires forall l, k :: 0 <= l < k < |m| ==> m[l] != m[k]
    ensures |a| <= |b|
    decreases a
  {
    if a != {} {
      var l :| l in a;
      forall k | k in a - {l} ensures m[k] in b - {m[l]} {
        assert k < l || l < k;
      }
      ImageSize(m, a - {l}, b - {m[l]});
    }
  }

  /** An injection on a and one element more leads out of a. */
  lemma LeadsOut(m: seq<nat>, a: set<nat>, i: nat) returns (l: nat)
    requires i !in a && forall l :: l in a + {i} ==> l < |m|
    requires forall l, k :: 0 <= l < k < |m| ==> m[l] != m[k]
    ensures l in a + {i} && m[l] !in a
  {
    var c := a + {i};
    assert |c| == |a| + 1;
    SomeOut(m, c, a);
    l :| l in c && m[l] !in a;
  }

  lemma SomeOut(m: seq<nat>, c: set<nat>, a: set<nat>)
    requires |c| > |a| && forall l :: l in c ==> l < |m|
    requires forall l, k :: 0 <= l < k < |m| ==> m[l] != m[k]
    ensures exists l :: l in c && m[l] !in a
  {
    if forall l :: l in c ==> m[l] in a {
      ImageSize(m, c, a);
    }
  }

  /** x, or t in place of an x between e and t. */
  ghost function Spoil(e: Tree, x: Tree, t: Tree): Tree {
    if Embeds(e, x) && Embeds(x, t) then t else x
  }

  ghost predicate IsSpoiled(fs: seq<Field>, i: nat, t: Tree, ts: seq<Field>) {
    i < |fs| == |ts| && forall l :: 0 <= l < |fs| ==> ts[l].value == Spoil(fs[i].value, fs[l].value, t)
  }

  ghost predicate IsAbove(e: Tree, x: Tree, t: Tree) {
    Embeds(e, x) && !Embeds(x, t)
  }

  /** If the match misses that t contains e, then e and what is above it are only found above e. */
  lemma OnlyAbove(e: Tree, x: Tree, y: Tree, t: Tree)
    requires !Part(e, t) && (x == e || IsAbove(e, x, t)) && Part(x, Spoil(e, y, t))
    ensures IsAbove(e, y, t)
  {
    EmbedsReflexive(e);
    PartEmbeds(x, Spoil(e, y, t));
    hide Part, Embeds;
    EmbedsTransitive(e, x, Spoil(e, y, t));
  }

  lemma SpoiledStep(fs: seq<Field>, i: nat, t: Tree, ts: seq<Field>, m: seq<nat>, l: nat)
    requires i < |fs| && IsSpoiled(fs, i, t, ts) && !Part(fs[i].value, t) && Assigns(PartRows(fs, ts), {}, m)
    requires l < |fs| && (l == i || IsAbove(fs[i].value, fs[l].value, t))
    ensures l < |m| && m[l] < |fs| && IsAbove(fs[i].value, fs[m[l]].value, t)
  {
    assert PartRows(fs, ts)[l][m[l]];
    hide Part, IsAbove;
    OnlyAbove(fs[i].value, fs[l].value, fs[m[l]].value, t);
  }

  /** If the match misses that t contains element i, no assignment leads from element i back to its own
      place: it would pass through elements above element i for ever. */
  lemma SpoiledFails(fs: seq<Field>, i: nat, t: Tree, ts: seq<Field>)
    requires i < |fs| && IsSpoiled(fs, i, t, ts) && Embeds(fs[i].value, t) && !Part(fs[i].value, t)
    ensures !Fits(PartRows(fs, ts), {})
  {
    hide *;
    if Fits(PartRows(fs, ts), {}) {
      var m := FitsAssigns(PartRows(fs, ts), {});
      AssignsApart(PartRows(fs, ts), m);
      AboveIs(fs, i, t);
      var l := LeadsOut(m, AboveSet(fs, i, t), i);
      SpoiledStep(fs, i, t, ts, m, l);
    }
  }

  ghost function AboveSet(fs: seq<Field>, i: nat, t: Tree): set<nat>
    requires i < |fs|
  {
    set l: nat | l < |fs| && IsAbove(fs[i].value, fs[l].value, t)
  }

  lemma AboveIs(fs: seq<Field>, i: nat, t: Tree)
    requires i < |fs| && Embeds(fs[i].value, t)
    ensures i !in AboveSet(fs, i, t)
    ensures forall l: nat :: l in AboveSet(fs, i, t) <==> l < |fs| && IsAbove(fs[i].value, fs[l].value, t)
  {
  }

  lemma AssignsApart(rows: Rows, m: seq<nat>)
    requires Assigns(rows, {}, m)
    ensures |m| == |rows| && forall l, k :: 0 <= l < k < |m| ==> m[l] != m[k]
  {
  }

  lemma SpoiledContains(fs: seq<Field>, i: nat, t: Tree, ts: seq<Field>)
    requires IsSpoiled(fs, i, t, ts)
    ensures Assignable(EmbedRows(fs, ts), {})
  {
    var m := seq(|fs|, l => l);
    forall l | 0 <= l < |m| ensures EmbedRows(fs, ts)[l][m[l]] {
      EmbedsReflexive(fs[l].value);
      hide Embeds;
    }
    assert Assigns(EmbedRows(fs, ts), {}, m);
  }

  lemma Spoiled(fs: seq<Field>, i: nat, t: Tree) returns (ts: seq<Field>)
    requires i < |fs|
    ensures IsSpoiled(fs, i, t, ts)
  {
    ts := seq(|fs|, l requires 0 <= l < |fs| => Field(Index(l), Spoil(fs[i].value, fs[l].value, t)));
  }

  lemma ArrayWith(s: Tree, ts: seq<Field>)
    requires s.Node? && s.isArray && Assignable(EmbedRows(s.fields, ts), {}) && !Fits(PartRows(s.fields, ts), {})
    ensures !Decides(s)
  {
    var t := Node(0, true, ts);
    assert Embeds(s, t) && !Part(s, t);
  }

  lemma ElementsDecide(s: Tree, i: nat)
    requires s.Node? && s.isArray && i < |s.fields| && Decides(s)
    ensures Decides(s.fields[i].value)
  {
    forall t ensures Part(s.fields[i].value, t) <==> Embeds(s.fields[i].value, t) {
      if Part(s.fields[i].value, t) {
        PartEmbeds(s.fields[i].value, t);
      } else if Embeds(s.fields[i].value, t) {
        var ts := Spoiled(s.fields, i, t);
        SpoiledContains(s.fields, i, t, ts);
        SpoiledFails(s.fields, i, t, ts);
        ArrayWith(s, ts);
      }
    }
  }

  lemma PropertiesDecide(s: Tree, i: nat)
    requires s.Node? && !s.isArray && i < |s.fields| && Find(s.fields, s.fields[i].key) == i && Decides(s)
    ensures Decides(s.fields[i].value)
  {
    var f := s.fields[i];
    forall t ensures Part(f.value, t) <==> Embeds(f.value, t) {
      if Part(f.value, t) {
        PartEmbeds(f.value, t);
      } else if Embeds(f.value, t) {
        hide Part, Embeds;
        PropertySpoiled(s, i, t);
      }
    }
  }

  lemma PropertySpoiled(s: Tree, i: nat, t: Tree)
    requires s.Node? && !s.isArray && i < |s.fields| && Find(s.fields, s.fields[i].key) == i
    requires Embeds(s.fields[i].value, t) && !Part(s.fields[i].value, t)
    ensures var r := Node(0, false, SetField(s.fields, s.fields[i].key, t)); Embeds(s, r) && !Part(s, r)
  {
    var k := s.fields[i].key;
    var r := Node(0, false, SetField(s.fields, k, t));
    GetAfter(s.fields, k, t, k);
    assert !PartOf(s.fields[i], r.fields);
    forall j | 0 <= j < |s.fields| && Find(s.fields, s.fields[j].key) == j ensures EmbedOf(s.fields[j], r.fields) {
      GetAfter(s.fields, k, t, s.fields[j].key);
      EmbedsReflexive(s.fields[j].value);
    }
  }

  // ---------- the exact condition ----------

  /** The match finds a source in every target that contains it, if and only if all its arrays are in
      order, however deep they lie. */
  lemma {:induction false} DecidesIffWellOrdered(s: Tree)
    ensures Decides(s) <==> WellOrdered(s)
    decreases s
  {
    if s.Node? {
      forall i | 0 <= i < |s.fields| ensures Decides(s.fields[i].value) <==> WellOrderedField(s.fields[i]) {
        DecidesIffWellOrdered(s.fields[i].value);
      }
      hide Decides, WellOrderedField, InOrder;
      if s.isArray {
        if Decides(s) {
          forall i | 0 <= i < |s.fields| ensures Decides(s.fields[i].value) {
            ElementsDecide(s, i);
          }
        }
        if forall i :: 0 <= i < |s.fields| ==> Decides(s.fields[i].value) {
          ArrayDecidedIffInOrder(s);
        }
      } else {
        if Decides(s) {
          forall i | 0 <= i < |s.fields| && Find(s.fields, s.fields[i].key) == i ensures Decides(s.fields[i].value) {
            PropertiesDecide(s, i);
          }
        }
        if forall i :: 0 <= i < |s.fields| && Find(s.fields, s.fields[i].key) == i ==> Decides(s.fields[i].value) {
          ObjectDecided(s);
        }
      }
    } else {
      LeafDecides(s);
    }
  }

  lemma LeafDecides(s: Tree)
    requires s.Leaf?
    ensures Decides(s)
  {
  }

  lemma ObjectDecided(s: Tree)
    requires s.Node? && !s.isArray
    requires forall i :: 0 <= i < |s.fields| && Find(s.fields, s.fields[i].key) == i ==> Decides(s.fields[i].value)
    ensures Decides(s)
  {
    forall t ensures Part(s, t) <==> Embeds(s, t) {
      if t.Node? {
        ObjectDecides(s, t);
      }
    }
  }

  /** Arrays of primitives are in order. */
  lemma FlatIsInOrder(fs: seq<Field>)
    requires forall i :: 0 <= i < |fs| ==> fs[i].value.Leaf?
    ensures InOrder(Items(fs))
  {
  }
}
