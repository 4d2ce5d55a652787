/** The partial match on the heap, with the Stack that guards it against cycles. */
module DeepMatch {
  import opened JsHeap
  import opened JsTree
  import opened MergeHeap
  import opened Matching
  import opened PartialMatch

  /** An array as the comparison sees it: an element for every index below its length, undefined for a hole,
      and no other properties. */
  ghost function ElementsOf(c: Cell): Cell {
    if c.isArray then Cell(true, c.length, Indexes(c.length), map k | k in Indexes(c.length) :: ReadSlot(c, k)) else c
  }

  ghost function View(cells: Cells): Cells {
    map l | l in cells :: ElementsOf(cells[l])
  }

  /** v is the tree t, seen like that. */
  ghost predicate Is(cells: Cells, v: Value, t: Tree) {
    Holds(View(cells), v, t)
  }

  /** The Stack holds only objects bigger than one of the two compared. */
  ghost predicate Above(cells: Cells, stack: map<Loc, Loc>, s: Tree, t: Tree) {
    forall l :: l in stack ==> exists x :: Is(cells, Ref(l), x) && (Size(x) > Size(s) || Size(x) > Size(t))
  }

  class Matcher {
    const cells: Cells
    var stack: map<Loc, Loc>

    constructor (cells: Cells)
      ensures this.cells == cells && stack == map[]
    {
      this.cells, stack := cells, map[];
    }

    method IsEqual(v: Value, w: Value, ghost s: Tree, ghost t: Tree) returns (r: bool)
      requires Is(cells, v, s) && Is(cells, w, t) && Above(cells, stack, s, t)
      modifies this`stack
      ensures stack.Keys <= old(stack).Keys && (r <==> Part(s, t))
      decreases s, 2
    {
      hide *;
      Kind(cells, v, s);
      Kind(cells, w, t);
      if v == w {
        Same(cells, v, s, t);
        return true;
      }
      DifferentKinds(s, t);
      if !v.Ref? || !w.Ref? {
        r := false;
      } else if cells[v.loc].isArray && cells[w.loc].isArray {
        r := EqualArrays(v.loc, w.loc, s, t);
      } else if !cells[v.loc].isArray && !cells[w.loc].isArray {
        r := EqualObjects(v.loc, w.loc, s, t);
      } else {
        r := false;
      }
    }

    /** Each source element takes the first target element that it matches and none before took. */
    method EqualArrays(v: Loc, w: Loc, ghost s: Tree, ghost t: Tree) returns (r: bool)
      requires s.Node? && t.Node? && s.isArray && t.isArray
      requires Is(cells, Ref(v), s) && Is(cells, Ref(w), t) && Above(cells, stack, s, t)
      modifies this`stack
      ensures stack.Keys <= old(stack).Keys && (r <==> Part(s, t))
      decreases s, 1
    {
      hide *;
      Kind(cells, Ref(v), s);
      Kind(cells, Ref(w), t);
      ArrayPart(s, t);
      NotBoth(cells, stack, s, t);
      var n, m := cells[v].length, cells[w].length;
      if n > m {
        return false;
      }
      ghost var stack0 := stack;
      ghost var rows := PartRows(s.fields, t.fields);
      stack := stack[v := w][w := v];
      var used: set<nat>, i := {}, 0;
      r := true;
      NoRows(rows, {});
      while r && i < n
        invariant i <= n && stack.Keys <= stack0.Keys + {v, w} && used <= Upto(m)
        invariant r ==> (Fits(rows, {}) <==> Fits(rows[i..], used))
        invariant !r ==> !Fits(rows, {})
      {
        FitsStep(rows, i, used);
        Element(cells, v, s, i);
        var j, found := 0, false;
        while !found && j < m
          invariant j <= m && stack.Keys <= stack0.Keys + {v, w}
          invariant !found ==> Fit(rows[i], used, 0) == Fit(rows[i], used, j)
          invariant found ==> j < m && Fit(rows[i], used, 0) == j
        {
          FitFrom(rows[i], used, j);
          var here := false;
          if j !in used {
            Element(cells, w, t, j);
            Deeper(cells, stack0, stack, s, t, i, j);
            here := IsEqual(ReadSlot(cells[v], Index(i)), ReadSlot(cells[w], Index(j)), s.fields[i].value,
                            t.fields[j].value);
          }
          if here {
            found := true;
          } else {
            j := j + 1;
          }
        }
        FitEnd(rows[i], used);
        if found {
          used := used + {j};
          i := i + 1;
        } else {
          r := false;
        }
      }
      RowsDone(rows, used);
      stack := stack - {v, w};
    }

    method EqualObjects(v: Loc, w: Loc, ghost s: Tree, ghost t: Tree) returns (r: bool)
      requires s.Node? && t.Node? && !s.isArray && !t.isArray
      requires Is(cells, Ref(v), s) && Is(cells, Ref(w), t) && Above(cells, stack, s, t)
      modifies this`stack
      ensures stack.Keys <= old(stack).Keys && (r <==> Part(s, t))
      decreases s, 1
    {
      hide *;
      Kind(cells, Ref(v), s);
      Kind(cells, Ref(w), t);
      ObjectPart(s, t);
      NotBoth(cells, stack, s, t);
      var keys := cells[v].keys;
      var k: nat := |keys|;
      while k > 0
        invariant k <= |keys| && forall j :: k <= j < |keys| ==> keys[j] in cells[w].slots
      {
        k := k - 1;
        if keys[k] !in cells[w].slots {
          KeyMissing(cells, s, t, k);
          return false;
        }
      }
      ghost var stack0 := stack;
      stack := stack[v := w][w := v];
      var i := 0;
      r := true;
      while r && i < |keys|
        invariant i <= |keys| && stack.Keys <= stack0.Keys + {v, w}
        invariant r ==> forall j :: 0 <= j < i ==> PartOf(s.fields[j], t.fields)
        invariant !r ==> !PartFields(s.fields, t.fields)
      {
        Values(cells, stack0, stack, s, t, i);
        r := IsEqual(cells[v].slots[keys[i]], cells[w].slots[keys[i]], s.fields[i].value, Get(t.fields, keys[i]));
        FieldDone(cells, s, t, i, r);
        i := i + 1;
      }
      if r {
        AllFields(cells, s, t);
      }
      // The constructors are not compared: a partial match starts with that comparison skipped.
      stack := stack - {v, w};
    }
  }

  // ---------- facts for one comparison ----------

  lemma Kind(cells: Cells, v: Value, t: Tree)
    requires Is(cells, v, t)
    ensures v.Ref? <==> t.Node?
    ensures t.Leaf? ==> t.v == v
    ensures t.Node? ==> v == Ref(t.loc) && t.loc in cells && cells[t.loc].isArray == t.isArray
    ensures t.Node? && t.isArray ==>
      KeysOf(t.fields) == Indexes(cells[t.loc].length) && |t.fields| == cells[t.loc].length
    ensures t.Node? && !t.isArray ==> cells[t.loc].keys == KeysOf(t.fields)
    ensures t.Node? && !t.isArray ==> forall k :: k in cells[t.loc].slots <==> Has(t.fields, k)
  {
    if t.Node? {
      HoldsKeys(View(cells), t);
    }
  }

  /** The values an object has, seen like that. */
  lemma FieldIs(cells: Cells, t: Tree, i: nat)
    requires t.Node? && Is(cells, Ref(t.loc), t) && i < |t.fields|
    ensures t.loc in cells && Is(cells, ReadSlot(cells[t.loc], t.fields[i].key), t.fields[i].value)
    ensures !t.isArray ==> t.fields[i].key in cells[t.loc].slots
  {
    HoldsKeys(View(cells), t);
    HoldsAt(View(cells), t, i);
  }

  lemma Same(cells: Cells, v: Value, s: Tree, t: Tree)
    requires Is(cells, v, s) && Is(cells, v, t)
    ensures Part(s, t)
  {
    OneTree(View(cells), v, s, t);
    PartReflexive(s);
  }

  lemma DifferentKinds(s: Tree, t: Tree)
    ensures s.Leaf? && t.Leaf? && s.v != t.v ==> !Part(s, t)
    ensures s.Leaf? != t.Leaf? ==> !Part(s, t)
    ensures s.Node? && t.Node? && s.isArray != t.isArray ==> !Part(s, t)
  {
  }

  /** The Stack never holds both of two compared objects: neither contains itself. */
  lemma NotBoth(cells: Cells, stack: map<Loc, Loc>, s: Tree, t: Tree)
    requires s.Node? && t.Node? && Is(cells, Ref(s.loc), s) && Is(cells, Ref(t.loc), t) && Above(cells, stack, s, t)
    ensures !(s.loc in stack && t.loc in stack)
  {
    if s.loc in stack && t.loc in stack {
      var x :| Is(cells, Ref(s.loc), x) && (Size(x) > Size(s) || Size(x) > Size(t));
      var y :| Is(cells, Ref(t.loc), y) && (Size(y) > Size(s) || Size(y) > Size(t));
      OneTree(View(cells), Ref(s.loc), s, x);
      OneTree(View(cells), Ref(t.loc), t, y);
    }
  }

  lemma OnStack(cells: Cells, stack0: map<Loc, Loc>, stack: map<Loc, Loc>, s: Tree, t: Tree, a: Tree, b: Tree)
    requires s.Node? && t.Node? && Is(cells, Ref(s.loc), s) && Is(cells, Ref(t.loc), t) && Above(cells, stack0, s, t)
    requires stack.Keys <= stack0.Keys + {s.loc, t.loc} && Size(a) < Size(s) && Size(b) < Size(t)
    ensures Above(cells, stack, a, b)
  {
    forall l | l in stack ensures exists x :: Is(cells, Ref(l), x) && (Size(x) > Size(a) || Size(x) > Size(b)) {
      if l != s.loc && l != t.loc {
        assert l in stack0;
        var x :| Is(cells, Ref(l), x) && (Size(x) > Size(s) || Size(x) > Size(t));
      }
    }
  }

  lemma Deeper(cells: Cells, stack0: map<Loc, Loc>, stack: map<Loc, Loc>, s: Tree, t: Tree, i: nat, j: nat)
    requires s.Node? && t.Node? && Is(cells, Ref(s.loc), s) && Is(cells, Ref(t.loc), t) && Above(cells, stack0, s, t)
    requires stack.Keys <= stack0.Keys + {s.loc, t.loc} && i < |s.fields| && j < |t.fields|
    ensures Above(cells, stack, s.fields[i].value, t.fields[j].value)
  {
    SizeBelow(s.fields, i);
    SizeBelow(t.fields, j);
    OnStack(cells, stack0, stack, s, t, s.fields[i].value, t.fields[j].value);
  }

  // ---------- arrays ----------

  lemma ArrayPart(s: Tree, t: Tree)
    requires s.Node? && t.Node? && s.isArray && t.isArray
    ensures Part(s, t) <==> |s.fields| <= |t.fields| && Fits(PartRows(s.fields, t.fields), {})
  {
  }

  lemma Element(cells: Cells, v: Loc, s: Tree, i: nat)
    requires s.Node? && s.isArray && Is(cells, Ref(v), s) && i < |s.fields|
    ensures v in cells && Is(cells, ReadSlot(cells[v], Index(i)), s.fields[i].value)
  {
    hide *;
    Kind(cells, Ref(v), s);
    FieldIs(cells, s, i);
    assert KeysOf(s.fields)[i] == Index(i);
  }

  lemma NoRows(rows: Rows, used: set<nat>)
    ensures rows[0..] == rows && used <= used + {}
  {
  }

  lemma RowsDone(rows: Rows, used: set<nat>)
    ensures Fits(rows[|rows|..], used)
  {
  }

  lemma FitFrom(row: seq<bool>, used: set<nat>, j: nat)
    requires j < |row|
    ensures Fit(row, used, j) == if row[j] && j !in used then j else Fit(row, used, j + 1)
  {
  }

  lemma FitEnd(row: seq<bool>, used: set<nat>)
    ensures Fit(row, used, |row|) == |row|
  {
  }

  // ---------- objects ----------

  lemma ObjectPart(s: Tree, t: Tree)
    requires s.Node? && t.Node? && !s.isArray && !t.isArray
    ensures Part(s, t) <==> PartFields(s.fields, t.fields)
  {
  }

  lemma Unique(cells: Cells, s: Tree, i: nat)
    requires s.Node? && Is(cells, Ref(s.loc), s) && i < |s.fields|
    ensures Find(s.fields, s.fields[i].key) == i
  {
    HoldsKeys(View(cells), s);
    FindAt(s.fields, i);
  }

  lemma KeyMissing(cells: Cells, s: Tree, t: Tree, i: nat)
    requires s.Node? && t.Node? && Is(cells, Ref(s.loc), s) && i < |s.fields| && !Has(t.fields, s.fields[i].key)
    ensures !PartFields(s.fields, t.fields)
  {
    Unique(cells, s, i);
    assert !PartOf(s.fields[i], t.fields);
  }

  lemma Values(cells: Cells, stack0: map<Loc, Loc>, stack: map<Loc, Loc>, s: Tree, t: Tree, i: nat)
    requires s.Node? && t.Node? && Is(cells, Ref(s.loc), s) && Is(cells, Ref(t.loc), t) && Above(cells, stack0, s, t)
    requires stack.Keys <= stack0.Keys + {s.loc, t.loc} && i < |s.fields| && Has(t.fields, s.fields[i].key)
    requires !s.isArray && !t.isArray
    ensures var k := s.fields[i].key;
      && s.loc in cells && k in cells[s.loc].slots && Is(cells, cells[s.loc].slots[k], s.fields[i].value)
      && t.loc in cells && k in cells[t.loc].slots && Is(cells, cells[t.loc].slots[k], Get(t.fields, k))
    ensures Above(cells, stack, s.fields[i].value, Get(t.fields, s.fields[i].key))
  {
    var j := Find(t.fields, s.fields[i].key);
    hide Is, Above;
    FieldIs(cells, s, i);
    FieldIs(cells, t, j);
    Deeper(cells, stack0, stack, s, t, i, j);
  }

  lemma FieldDone(cells: Cells, s: Tree, t: Tree, i: nat, r: bool)
    requires s.Node? && t.Node? && Is(cells, Ref(s.loc), s) && i < |s.fields| && Has(t.fields, s.fields[i].key)
    requires r <==> Part(s.fields[i].value, Get(t.fields, s.fields[i].key))
    ensures r <==> PartOf(s.fields[i], t.fields)
    ensures !r ==> !PartFields(s.fields, t.fields)
  {
    Unique(cells, s, i);
    hide Part;
  }

  lemma AllFields(cells: Cells, s: Tree, t: Tree)
    requires s.Node? && t.Node? && Is(cells, Ref(s.loc), s)
    requires forall j :: 0 <= j < |s.fields| ==> PartOf(s.fields[j], t.fields)
    ensures PartFields(s.fields, t.fields)
  {
  }

  // ---------- the whole match ----------

  /** x has property k, and what it is. */
  function ReadProperty(cells: Cells, x: Value, k: Key): (r: (bool, Value))
  {
    match x
    case Ref(l) =>
      if l !in cells then (false, Undefined)
      else if k in cells[l].slots then (true, cells[l].slots[k])
      else if cells[l].isArray && k == LENGTH then (true, Number(cells[l].length))
      else (false, Undefined)
    case Text(s) =>
      if k == LENGTH then (true, Number(|s|))
      else if k.Index? && k.i < |s| then (true, Text([s[k.i]]))
      else (false, Undefined)
    case _ => (false, Undefined)
  }

  /** An array that is itself the source or the target: with its elements and nothing else as properties. */
  ghost predicate Dense(cells: Cells, x: Value) {
    x.Ref? && x.loc in cells && cells[x.loc].isArray ==>
      CellOk(cells[x.loc]) && cells[x.loc].keys == Indexes(cells[x.loc].length)
  }

  lemma ObjectDense(cells: Cells, l: Loc)
    requires l in cells && !cells[l].isArray
    ensures Dense(cells, Ref(l))
  {
  }

  lemma DenseKeys(cells: Cells, t: Tree)
    requires t.Node? && Is(cells, Ref(t.loc), t) && Dense(cells, Ref(t.loc))
    ensures t.loc in cells && cells[t.loc].keys == KeysOf(t.fields)
    ensures forall k :: k in cells[t.loc].slots <==> Has(t.fields, k)
  {
    Kind(cells, Ref(t.loc), t);
    HoldsKeys(View(cells), t);
    if t.isArray {
      forall k ensures k in cells[t.loc].slots <==> Has(t.fields, k) {
        assert k in cells[t.loc].slots <==> k in cells[t.loc].keys;
        assert k in View(cells)[t.loc].slots <==> k in Indexes(cells[t.loc].length);
      }
    }
  }

  lemma PropertyRead(cells: Cells, x: Value, t: Tree, k: Key)
    requires Is(cells, x, t) && Dense(cells, x)
    ensures ReadProperty(cells, x, k).0 <==> HasProperty(t, k)
    ensures Is(cells, ReadProperty(cells, x, k).1, Property(t, k))
  {
    Kind(cells, x, t);
    if t.Node? {
      DenseKeys(cells, t);
      if Has(t.fields, k) {
        FieldIs(cells, t, Find(t.fields, k));
      }
    }
  }

  /** isMatch: first all keys and primitive values, then the deep comparisons. */
  method IsMatch(cells: Cells, x: Value, source: Loc, ghost s: Tree, ghost t: Tree) returns (r: bool)
    requires s.Node? && Is(cells, Ref(source), s) && Is(cells, x, t) && Dense(cells, Ref(source)) && Dense(cells, x)
    ensures r <==> Match(s.fields, t)
  {
    hide *;
    Kind(cells, Ref(source), s);
    DenseKeys(cells, s);
    Kind(cells, x, t);
    var keys := cells[source].keys;
    if x == Undefined || x == Null {
      NullMatch(s.fields, t);
      return |keys| == 0;
    }
    var k: nat := |keys|;
    while k > 0
      invariant k <= |keys|
      invariant forall j :: k <= j < |keys| && s.fields[j].value.Leaf? ==> Part(s.fields[j].value, Property(t, keys[j]))
      invariant forall j :: k <= j < |keys| && s.fields[j].value.Node? ==> HasProperty(t, keys[j])
    {
      k := k - 1;
      SourceField(cells, x, s, t, k);
      var e, o := cells[source].slots[keys[k]], ReadProperty(cells, x, keys[k]);
      if (if e.Ref? then !o.0 else e != o.1) {
        FieldFails(cells, s, t, k);
        return false;
      }
    }
    for i := 0 to |keys|
      invariant forall j :: 0 <= j < i ==> MatchesField(s.fields[j], t)
    {
      SourceField(cells, x, s, t, i);
      var e, o := cells[source].slots[keys[i]], ReadProperty(cells, x, keys[i]);
      if !e.Ref? {
        if o.1 == Undefined && !o.0 {
          FieldFails(cells, s, t, i);
          return false;
        }
      } else {
        var m := new Matcher(cells);
        NothingAbove(cells, s.fields[i].value, Property(t, keys[i]));
        var same := m.IsEqual(e, o.1, s.fields[i].value, Property(t, keys[i]));
        if !same {
          FieldFails(cells, s, t, i);
          return false;
        }
      }
    }
    AllMatch(s.fields, t);
    return true;
  }

  lemma NullMatch(fs: seq<Field>, t: Tree)
    requires t == Leaf(Undefined) || t == Leaf(Null)
    ensures Match(fs, t) <==> fs == []
  {
  }

  lemma AllMatch(fs: seq<Field>, t: Tree)
    requires t != Leaf(Undefined) && t != Leaf(Null)
    requires forall j :: 0 <= j < |fs| ==> MatchesField(fs[j], t)
    ensures Match(fs, t)
  {
  }

  lemma FieldFails(cells: Cells, s: Tree, t: Tree, i: nat)
    requires s.Node? && Is(cells, Ref(s.loc), s) && i < |s.fields| && !MatchesField(s.fields[i], t)
    requires t != Leaf(Undefined) && t != Leaf(Null)
    ensures !Match(s.fields, t)
  {
    Unique(cells, s, i);
  }

  lemma NothingAbove(cells: Cells, s: Tree, t: Tree)
    ensures Above(cells, map[], s, t)
  {
  }

  lemma SourceField(cells: Cells, x: Value, s: Tree, t: Tree, i: nat)
    requires s.Node? && Is(cells, Ref(s.loc), s) && Is(cells, x, t) && i < |s.fields|
    requires Dense(cells, Ref(s.loc)) && Dense(cells, x)
    ensures var k := s.fields[i].key;
      s.loc in cells && k in cells[s.loc].slots && Is(cells, cells[s.loc].slots[k], s.fields[i].value)
    ensures var (has, p), e := ReadProperty(cells, x, s.fields[i].key), cells[s.loc].slots[s.fields[i].key];
      && Is(cells, p, Property(t, s.fields[i].key)) && (e.Ref? <==> s.fields[i].value.Node?)
      && (MatchesField(s.fields[i], t) <==> has && Part(s.fields[i].value, Property(t, s.fields[i].key)))
      && (!e.Ref? ==> (Part(s.fields[i].value, Property(t, s.fields[i].key)) <==> e == p))
      && (!has ==> p == Undefined) && (has <==> HasProperty(t, s.fields[i].key))
  {
    var k := s.fields[i].key;
    DenseKeys(cells, s);
    FieldIs(cells, s, i);
    assert k in KeysOf(s.fields);
    PropertyRead(cells, x, t, k);
    Kind(cells, cells[s.loc].slots[k], s.fields[i].value);
    Kind(cells, ReadProperty(cells, x, k).1, Property(t, k));
  }

  lemma OneField(s: Tree, t: Tree)
    requires s.Node? && |s.fields| == 1
    ensures Match(s.fields, t) <==> t != Leaf(Undefined) && t != Leaf(Null) && MatchesField(s.fields[0], t)
  {
  }

  /** matches(source), applied to x. */
  method Matches(cells: Cells, x: Value, source: Loc, ghost s: Tree, ghost t: Tree) returns (r: bool)
    requires s.Node? && !s.isArray && Is(cells, Ref(source), s) && Is(cells, x, t) && Dense(cells, x)
    ensures r <==> Match(s.fields, t)
  {
    hide *;
    Kind(cells, Ref(source), s);
    ObjectDense(cells, source);
    var keys := cells[source].keys;
    if |keys| == 1 {
      SourceField(cells, x, s, t, 0);
    }
    if |keys| == 1 && !cells[source].slots[keys[0]].Ref? {
      Kind(cells, x, t);
      var e, o := cells[source].slots[keys[0]], ReadProperty(cells, x, keys[0]);
      OneField(s, t);
      r := x != Null && x != Undefined && o.1 == e && (e != Undefined || o.0);
    } else if x == Ref(source) {
      ItsOwn(cells, s, t);
      r := true;
    } else {
      r := IsMatch(cells, x, source, s, t);
    }
  }

  lemma ItsOwn(cells: Cells, s: Tree, t: Tree)
    requires s.Node? && !s.isArray && Is(cells, Ref(s.loc), s) && Is(cells, Ref(s.loc), t)
    ensures Match(s.fields, t)
  {
    OneTree(View(cells), Ref(s.loc), s, t);
    MatchesItself(t);
  }
}
