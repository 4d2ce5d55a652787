/** How located trees lie on a heap, and what writing one property does to them. */
module MergeHeap {
  import opened Common
  import opened JsHeap
  import opened JsTree

  // ---------- trees on a heap ----------

  /** v is the tree t. */
  ghost predicate Holds(cells: Cells, v: Value, t: Tree)
    decreases t, 1
  {
    match t
    case Leaf(x) => v == x && !v.Ref?
    case Node(l, a, fs) =>
      v == Ref(l) && l in cells && cells[l].isArray == a && CellOk(cells[l]) && cells[l].keys == KeysOf(fs)
      && FieldsHold(cells, cells[l], fs)
  }

  ghost predicate FieldsHold(cells: Cells, c: Cell, fs: seq<Field>)
    decreases fs, 0
  {
    forall i :: 0 <= i < |fs| ==> FieldHolds(cells, c, fs[i])
  }

  ghost predicate FieldHolds(cells: Cells, c: Cell, f: Field)
    decreases f, 0
  {
    f.key in c.slots && Holds(cells, c.slots[f.key], f.value)
  }

  ghost function Locs(t: Tree): set<Loc>
    decreases t, 1
  {
    match t
    case Leaf(_) => {}
    case Node(l, _, fs) => {l} + Below(fs)
  }

  ghost function Below(fs: seq<Field>): set<Loc>
    decreases fs, 0
  {
    set i, l | 0 <= i < |fs| && l in LocsIn(fs[i]) :: l
  }

  ghost function LocsIn(f: Field): set<Loc>
    decreases f, 0
  {
    Locs(f.value)
  }

  /** No object occurs twice. */
  ghost predicate Proper(t: Tree)
    decreases t, 1
  {
    match t
    case Leaf(_) => true
    case Node(l, _, fs) => l !in Below(fs) && ProperFields(fs)
  }

  ghost predicate ProperFields(fs: seq<Field>)
    decreases fs, 0
  {
    && (forall i :: 0 <= i < |fs| ==> ProperField(fs[i]))
    && forall i, j :: 0 <= i < j < |fs| ==> LocsIn(fs[i]) !! LocsIn(fs[j])
  }

  ghost predicate ProperField(f: Field)
    decreases f, 0
  {
    Proper(f.value)
  }

  /** The tree without its locations. */
  function Erase(t: Tree): (r: Tree)
    ensures r.Leaf? <==> t.Leaf?
    ensures t.Leaf? ==> r == t
    ensures t.Node? ==> r.isArray == t.isArray
    decreases t, 1
  {
    match t
    case Leaf(_) => t
    case Node(_, a, fs) => Node(0, a, EraseFields(fs))
  }

  function EraseFields(fs: seq<Field>): (r: seq<Field>)
    ensures |r| == |fs|
    ensures forall i :: 0 <= i < |fs| ==> r[i] == EraseField(fs[i])
    decreases fs, 0
  {
    seq(|fs|, i requires 0 <= i < |fs| => EraseField(fs[i]))
  }

  function EraseField(f: Field): (r: Field)
    ensures r.key == f.key
    decreases f, 0
  {
    Field(f.key, Erase(f.value))
  }

  lemma BelowHas(fs: seq<Field>, i: nat)
    requires i < |fs|
    ensures Locs(fs[i].value) <= Below(fs)
  {
    assert LocsIn(fs[i]) <= Below(fs);
  }

  lemma BelowAt(fs: seq<Field>, l: Loc) returns (i: nat)
    requires l in Below(fs)
    ensures i < |fs| && l in Locs(fs[i].value)
  {
    i :| 0 <= i < |fs| && l in LocsIn(fs[i]);
  }

  // ---------- frames ----------

  lemma {:induction false} LocsOnHeap(cells: Cells, v: Value, t: Tree)
    requires Holds(cells, v, t)
    ensures Locs(t) <= cells.Keys
    decreases t
  {
    if t.Node? {
      forall l | l in Below(t.fields) ensures l in cells {
        var i := BelowAt(t.fields, l);
        HoldsAt(cells, t, i);
        LocsOnHeap(cells, cells[t.loc].slots[t.fields[i].key], t.fields[i].value);
      }
    }
  }

  /** A tree is untouched when its cells are. */
  lemma {:induction false} HoldsFrame(cells: Cells, cells': Cells, v: Value, t: Tree)
    requires Holds(cells, v, t) && forall l :: l in Locs(t) ==> l in cells && l in cells' && cells'[l] == cells[l]
    ensures Holds(cells', v, t)
    decreases t
  {
    if t.Node? {
      var c := cells[t.loc];
      assert cells'[t.loc] == c;
      forall i | 0 <= i < |t.fields|
        ensures FieldHolds(cells', c, t.fields[i])
      {
        assert FieldHolds(cells, c, t.fields[i]);
        BelowHas(t.fields, i);
        HoldsFrame(cells, cells', c.slots[t.fields[i].key], t.fields[i].value);
      }
    }
  }

  /** One value is one tree. */
  lemma {:induction false} OneTree(cells: Cells, v: Value, a: Tree, b: Tree)
    requires Holds(cells, v, a) && Holds(cells, v, b)
    ensures a == b
    decreases a
  {
    if a.Node? && b.Node? {
      var c := cells[a.loc];
      assert |a.fields| == |KeysOf(a.fields)| == |b.fields|;
      forall i | 0 <= i < |a.fields| ensures a.fields[i] == b.fields[i] {
        assert a.fields[i].key == KeysOf(a.fields)[i] == b.fields[i].key;
        HoldsAt(cells, a, i);
        HoldsAt(cells, b, i);
        OneTree(cells, c.slots[a.fields[i].key], a.fields[i].value, b.fields[i].value);
      }
      assert a.fields == b.fields;
    }
  }

  /** An object occurring in a tree is a tree itself, no bigger. */
  lemma {:induction false} SubTree(cells: Cells, v: Value, t: Tree, l: Loc) returns (sub: Tree)
    requires Holds(cells, v, t) && l in Locs(t)
    ensures Holds(cells, Ref(l), sub) && Size(sub) <= Size(t)
    decreases t
  {
    if t.loc == l {
      sub := t;
    } else {
      var i := BelowAt(t.fields, l);
      HoldsAt(cells, t, i);
      sub := SubTree(cells, cells[t.loc].slots[t.fields[i].key], t.fields[i].value, l);
      SizeBelow(t.fields, i);
    }
  }

  ghost function Size(t: Tree): nat
    decreases t, 1
  {
    match t
    case Leaf(_) => 0
    case Node(_, _, fs) => 1 + SizeOf(fs)
  }

  ghost function SizeOf(fs: seq<Field>): nat
    decreases fs, 0
  {
    if fs == [] then 0 else SizeIn(fs[0]) + SizeOf(fs[1..])
  }

  ghost function SizeIn(f: Field): nat
    decreases f, 0
  {
    Size(f.value)
  }

  lemma {:induction false} SizeBelow(fs: seq<Field>, i: nat)
    requires i < |fs|
    ensures Size(fs[i].value) <= SizeOf(fs)
  {
    if i > 0 {
      SizeBelow(fs[1..], i - 1);
    }
  }

  /** A value that is a finite tree never contains itself. */
  lemma NotBelowItself(cells: Cells, v: Value, t: Tree)
    requires Holds(cells, v, t) && t.Node?
    ensures t.loc !in Below(t.fields)
  {
    if t.loc in Below(t.fields) {
      var i := BelowAt(t.fields, t.loc);
      HoldsAt(cells, t, i);
      var sub := SubTree(cells, cells[t.loc].slots[t.fields[i].key], t.fields[i].value, t.loc);
      SizeBelow(t.fields, i);
      OneTree(cells, v, t, sub);
    }
  }

  // ---------- a source ----------

  /** The keys that keysIn lists: every index below its length for an array, holes included, and then its
      other keys. */
  function KeysIn(c: Cell): seq<Key> {
    if c.isArray then Indexes(c.length) + Names(c.keys) else c.keys
  }

  function Names(ks: seq<Key>): seq<Key> {
    if ks == [] then [] else (if ks[0].Name? then [ks[0]] else []) + Names(ks[1..])
  }

  /** A cell as its source walk reads it: a hole is an element undefined. */
  ghost function FillCell(c: Cell): Cell {
    Cell(c.isArray, c.length, KeysIn(c), map k | k in KeysIn(c) :: ReadSlot(c, k))
  }

  ghost function Fill(cells: Cells): Cells {
    map l | l in cells :: FillCell(cells[l])
  }

  /** An object that is read as a source without changing anything. */
  ghost predicate Reads(cells: Cells, v: Value, t: Tree) {
    Holds(Fill(cells), v, t)
  }

  lemma {:induction false} NamesOf(ks: seq<Key>)
    requires NoDup(ks)
    ensures NoDup(Names(ks)) && forall k :: k in Names(ks) <==> k in ks && k.Name?
  {
    if ks != [] {
      NamesOf(ks[1..]);
    }
  }

  /** Nothing that an array holds is missed, and only holes are added. */
  lemma FillIs(c: Cell)
    requires CellOk(c)
    ensures CellOk(FillCell(c)) && c.slots.Keys <= FillCell(c).slots.Keys
    ensures forall k :: k in FillCell(c).slots ==> FillCell(c).slots[k] == ReadSlot(c, k)
    ensures forall k :: k in FillCell(c).slots && k !in c.slots ==> c.isArray && k.Index? && k.i < c.length
  {
    if c.isArray {
      NamesOf(c.keys);
      forall k | k in c.slots ensures k in KeysIn(c) {
        assert k in c.keys;
        if k.Index? {
          assert Indexes(c.length)[k.i] == k;
        }
      }
    }
  }

  /** The keys come in their order, indexes first. */
  lemma KeysInOrder(c: Cell, names: seq<Key>)
    requires c.isArray && c.keys == Indexes(c.length) + names && forall k :: k in names ==> k.Name?
    ensures KeysIn(c) == c.keys
  {
    NamesAfter(Indexes(c.length), names);
  }

  lemma {:induction false} NamesAfter(ks: seq<Key>, names: seq<Key>)
    requires (forall i :: 0 <= i < |ks| ==> ks[i].Index?) && forall i :: 0 <= i < |names| ==> names[i].Name?
    ensures Names(ks + names) == names
    decreases |ks|
  {
    if ks == [] {
      OnlyNames(names);
      assert ks + names == names;
    } else {
      assert ks + names == [ks[0]] + (ks[1..] + names);
      NamesAfter(ks[1..], names);
    }
  }

  lemma {:induction false} OnlyNames(names: seq<Key>)
    requires forall i :: 0 <= i < |names| ==> names[i].Name?
    ensures Names(names) == names
  {
    if names != [] {
      OnlyNames(names[1..]);
      assert names == [names[0]] + names[1..];
    }
  }

  lemma FillAt(cells: Cells)
    ensures Fill(cells).Keys == cells.Keys && forall l :: l in cells ==> Fill(cells)[l] == FillCell(cells[l])
  {
  }

  /** What is read of a source, field by field. */
  lemma ReadsFields(cells: Cells, t: Tree)
    requires t.Node? && Reads(cells, Ref(t.loc), t)
    ensures t.loc in cells && KeysIn(cells[t.loc]) == KeysOf(t.fields) && cells[t.loc].isArray == t.isArray
    ensures forall i :: 0 <= i < |t.fields| ==> Reads(cells, ReadSlot(cells[t.loc], t.fields[i].key), t.fields[i].value)
  {
    FillAt(cells);
    HoldsKeys(Fill(cells), t);
    forall i | 0 <= i < |t.fields| ensures Reads(cells, ReadSlot(cells[t.loc], t.fields[i].key), t.fields[i].value) {
      HoldsAt(Fill(cells), t, i);
    }
  }

  /** Without holes it is simply the value. */
  lemma {:induction false} DenseReads(cells: Cells, v: Value, t: Tree)
    requires Holds(cells, v, t) && forall l :: l in Locs(t) && l in cells ==> FillCell(cells[l]) == cells[l]
    ensures Reads(cells, v, t)
  {
    FillAt(cells);
    LocsOnHeap(cells, v, t);
    HoldsFrame(cells, Fill(cells), v, t);
  }

  // ---------- steps ----------

  /** From the tree d on cells, to the tree d' at v on cells', writing only d's cells and new ones. */
  ghost predicate Step(cells: Cells, d: Tree, cells': Cells, v: Value, d': Tree) {
    && Holds(cells', v, d') && Proper(d') && cells.Keys <= cells'.Keys
    && (forall l :: l in cells && l !in Locs(d) ==> cells'[l] == cells[l])
    && forall l :: l in Locs(d') ==> l in Locs(d) || l !in cells
  }

  lemma NoStep(cells: Cells, v: Value, d: Tree)
    requires Holds(cells, v, d) && Proper(d)
    ensures Step(cells, d, cells, v, d)
  {
  }

  lemma StepTwice(c0: Cells, d0: Tree, c1: Cells, v1: Value, d1: Tree, c2: Cells, v2: Value, d2: Tree)
    requires Step(c0, d0, c1, v1, d1) && Step(c1, d1, c2, v2, d2)
    ensures Step(c0, d0, c2, v2, d2)
  {
  }

  /** A source apart from the tree stepped on reads the same, and stays apart. */
  lemma StepReads(c0: Cells, d0: Tree, c1: Cells, v1: Value, d1: Tree, v: Value, t: Tree)
    requires Step(c0, d0, c1, v1, d1) && Reads(c0, v, t) && Locs(t) !! Locs(d0)
    ensures Reads(c1, v, t) && Locs(t) !! Locs(d1)
  {
    StepFacts(c0, d0, c1, v1, d1);
    hide Step;
    FillAt(c0);
    FillAt(c1);
    LocsOnHeap(Fill(c0), v, t);
    HoldsFrame(Fill(c0), Fill(c1), v, t);
  }

  /** Writing a tree to property k of the object l0. */
  lemma FieldStep(c0: Cells, d: Tree, k: Key, c1: Cells, v: Value, b: Tree, c2: Cells)
    requires d.Node? && Holds(c0, Ref(d.loc), d) && Proper(d)
    requires Step(c0, Get(d.fields, k), c1, v, b) && d.loc in c1
    requires c2 == c1[d.loc := Assign(c1[d.loc], k, v)]
    ensures Step(c0, d, c2, Ref(d.loc), d.(fields := SetField(d.fields, k, b)))
  {
    var fs := d.fields;
    var fs' := SetField(fs, k, b);
    hide Step, Find;
    OldLocs(fs, k);
    StepFacts(c0, Get(fs, k), c1, v, b);
    LocsOnHeap(c0, Ref(d.loc), d);
    assert d.loc in Locs(d) && d.loc !in Locs(Get(fs, k)) && d.loc !in Locs(b);
    assert c1[d.loc] == c0[d.loc];
    NewLocs(fs, k, b);
    SetProper(c0, d, k, b);
    SetHolds(c0, d, k, c1, v, b, c2);
    StepMade(c0, d, c2, Ref(d.loc), d.(fields := fs'));
  }

  lemma StepMade(c0: Cells, d: Tree, c1: Cells, v: Value, d': Tree)
    requires Holds(c1, v, d') && Proper(d') && c0.Keys <= c1.Keys
    requires forall l :: l in c0 && l !in Locs(d) ==> c1[l] == c0[l]
    requires forall l :: l in Locs(d') ==> l in Locs(d) || l !in c0
    ensures Step(c0, d, c1, v, d')
  {
  }

  lemma StepFacts(c0: Cells, d: Tree, c1: Cells, v: Value, d': Tree)
    requires Step(c0, d, c1, v, d')
    ensures Holds(c1, v, d') && Proper(d') && c0.Keys <= c1.Keys
    ensures forall l :: l in c0 && l !in Locs(d) ==> c1[l] == c0[l]
    ensures forall l :: l in Locs(d') ==> l in Locs(d) || l !in c0
  {
  }

  lemma OldLocs(fs: seq<Field>, k: Key)
    ensures Locs(Get(fs, k)) <= Below(fs)
  {
    if Has(fs, k) {
      BelowHas(fs, Find(fs, k));
    }
  }

  lemma NewLocs(fs: seq<Field>, k: Key, b: Tree)
    ensures Below(SetField(fs, k, b)) <= Below(fs) + Locs(b)
  {
    var fs' := SetField(fs, k, b);
    forall l | l in Below(fs') ensures l in Below(fs) + Locs(b) {
      var i := BelowAt(fs', l);
      if i < |fs| && fs'[i] == fs[i] {
        BelowHas(fs, i);
      }
    }
  }

  /** The field at i of the changed list is the new one, or an old one whose locations are apart from
      those of the old value of k. */
  lemma SetFieldAt(fs: seq<Field>, k: Key, b: Tree, i: nat)
    requires ProperFields(fs) && NoDup(KeysOf(fs)) && i < |SetField(fs, k, b)|
    ensures var f := SetField(fs, k, b)[i];
      if f.key == k then f.value == b
      else i < |fs| && f == fs[i] && Locs(f.value) !! Locs(Get(fs, k))
  {
    if i < |fs| && fs[i].key != k && Has(fs, k) {
      assert Find(fs, k) != i;
    }
    if i < |fs| && fs[i].key == k {
      FindAt(fs, i);
    }
  }

  lemma SetKeys(fs: seq<Field>, k: Key, b: Tree)
    requires NoDup(KeysOf(fs))
    ensures KeysOf(SetField(fs, k, b)) == if Has(fs, k) then KeysOf(fs) else KeysOf(fs) + [k]
    ensures NoDup(KeysOf(SetField(fs, k, b)))
  {
  }

  lemma SetProper(c0: Cells, d: Tree, k: Key, b: Tree)
    requires d.Node? && Holds(c0, Ref(d.loc), d) && Proper(d) && Proper(b) && d.loc !in Locs(b)
    requires forall l :: l in Locs(b) ==> l in Locs(Get(d.fields, k)) || l !in c0
    ensures Proper(d.(fields := SetField(d.fields, k, b)))
  {
    var fs := d.fields;
    var fs' := SetField(fs, k, b);
    LocsOnHeap(c0, Ref(d.loc), d);
    hide Find, Locs, Holds;
    assert {d.loc} + Below(fs) <= c0.Keys by { hide *; BelowOnHeap(c0, d); }
    assert NoDup(KeysOf(fs)) by { HoldsKeys(c0, d); }
    NewLocs(fs, k, b);
    SetKeys(fs, k, b);
    forall i | 0 <= i < |fs'| ensures ProperField(fs'[i]) {
      SetFieldAt(fs, k, b, i);
    }
    forall i, j | 0 <= i < j < |fs'| ensures LocsIn(fs'[i]) !! LocsIn(fs'[j]) {
      SetFieldAt(fs, k, b, i);
      SetFieldAt(fs, k, b, j);
      assert KeysOf(fs')[i] != KeysOf(fs')[j];
      if i < |fs| { BelowHas(fs, i); }
      if j < |fs| { BelowHas(fs, j); }
    }
  }

  lemma BelowOnHeap(c0: Cells, d: Tree)
    requires d.Node? && Holds(c0, Ref(d.loc), d)
    ensures {d.loc} + Below(d.fields) <= c0.Keys
  {
    LocsOnHeap(c0, Ref(d.loc), d);
  }

  lemma HoldsKeys(c: Cells, d: Tree)
    requires d.Node? && Holds(c, Ref(d.loc), d)
    ensures d.loc in c && c[d.loc].keys == KeysOf(d.fields) && NoDup(KeysOf(d.fields)) && CellOk(c[d.loc])
    ensures c[d.loc].isArray == d.isArray
    ensures forall k :: k in c[d.loc].slots <==> Has(d.fields, k)
  {
    var ks := KeysOf(d.fields);
    forall k ensures k in c[d.loc].slots <==> Has(d.fields, k) {
      if Has(d.fields, k) {
        assert ks[Find(d.fields, k)] == k;
      }
      if k in ks {
        var i :| 0 <= i < |ks| && ks[i] == k;
        FindAt(d.fields, i);
      }
    }
  }

  lemma HoldsAt(c: Cells, d: Tree, i: nat)
    requires d.Node? && Holds(c, Ref(d.loc), d) && i < |d.fields|
    ensures d.loc in c && d.fields[i].key in c[d.loc].slots
    ensures Holds(c, c[d.loc].slots[d.fields[i].key], d.fields[i].value)
  {
    assert FieldHolds(c, c[d.loc], d.fields[i]);
  }

  lemma SetHolds(c0: Cells, d: Tree, k: Key, c1: Cells, v: Value, b: Tree, c2: Cells)
    requires d.Node? && Holds(c0, Ref(d.loc), d) && Proper(d) && d.loc !in Locs(b) && Holds(c1, v, b)
    requires c0.Keys <= c1.Keys && d.loc in c1 && d.loc in c0 && c1[d.loc] == c0[d.loc]
    requires forall l :: l in c0 && l !in Locs(Get(d.fields, k)) ==> c1[l] == c0[l]
    requires c2 == c1[d.loc := Assign(c1[d.loc], k, v)]
    ensures Holds(c2, Ref(d.loc), d.(fields := SetField(d.fields, k, b)))
  {
    var fs := d.fields;
    var fs' := SetField(fs, k, b);
    var c := c2[d.loc];
    hide *;
    HoldsKeys(c0, d);
    AssignOk(c0[d.loc], k, v);
    AssignKeys(c0[d.loc], k, v);
    SetKeys(fs, k, b);
    ApartFrom(c1, v, b, d.loc, c2);
    forall i | 0 <= i < |fs'|
      ensures FieldHolds(c2, c, fs'[i])
    {
      SetFieldAt(fs, k, b, i) by { ProperParts(d); }
      if fs'[i].key != k {
        HoldsAt(c0, d, i);
        OtherField(c0, d, k, c1, c2, i);
      }
      FieldMade(c2, c, fs'[i]);
    }
    HoldsMade(c2, d.loc, d.isArray, fs');
  }

  lemma ProperParts(d: Tree)
    requires d.Node? && Proper(d)
    ensures ProperFields(d.fields) && d.loc !in Below(d.fields)
  {
  }

  lemma FieldMade(cells: Cells, c: Cell, f: Field)
    requires f.key in c.slots && Holds(cells, c.slots[f.key], f.value)
    ensures FieldHolds(cells, c, f)
  {
  }

  lemma AssignKeys(c: Cell, k: Key, v: Value)
    requires CellOk(c)
    ensures var c' := Assign(c, k, v);
      && c'.isArray == c.isArray && c'.keys == (if k in c.slots then c.keys else c.keys + [k])
      && k in c'.slots && c'.slots[k] == v
      && forall x :: x != k && x in c.slots ==> x in c'.slots && c'.slots[x] == c.slots[x]
  {
  }

  lemma ApartFrom(c1: Cells, v: Value, b: Tree, l: Loc, c2: Cells)
    requires Holds(c1, v, b) && l !in Locs(b) && c2.Keys >= c1.Keys && forall x :: x in c1 && x != l ==> c2[x] == c1[x]
    ensures Holds(c2, v, b)
  {
    LocsOnHeap(c1, v, b);
    HoldsFrame(c1, c2, v, b);
  }

  lemma HoldsMade(c: Cells, l: Loc, a: bool, fs: seq<Field>)
    requires l in c && c[l].isArray == a && CellOk(c[l]) && c[l].keys == KeysOf(fs)
    requires forall i :: 0 <= i < |fs| ==> FieldHolds(c, c[l], fs[i])
    ensures Holds(c, Ref(l), Node(l, a, fs))
  {
  }

  lemma OtherField(c0: Cells, d: Tree, k: Key, c1: Cells, c2: Cells, i: nat)
    requires d.Node? && Holds(c0, Ref(d.loc), d) && Proper(d) && i < |d.fields|
    requires Locs(d.fields[i].value) !! Locs(Get(d.fields, k)) && d.loc in c0 && d.fields[i].key in c0[d.loc].slots
    requires c0.Keys <= c1.Keys && d.loc in c1 && c2.Keys == c1.Keys
    requires forall l :: l in c0 && l !in Locs(Get(d.fields, k)) ==> c1[l] == c0[l]
    requires forall l :: l in c1 && l != d.loc ==> c2[l] == c1[l]
    requires Holds(c0, c0[d.loc].slots[d.fields[i].key], d.fields[i].value)
    ensures Holds(c2, c0[d.loc].slots[d.fields[i].key], d.fields[i].value)
  {
    var x, f := c0[d.loc].slots[d.fields[i].key], d.fields[i].value;
    BelowHas(d.fields, i);
    assert d.loc !in Locs(f);
    LocsOnHeap(c0, x, f);
    HoldsFrame(c0, c2, x, f);
  }
}
