/** The recursive merge that writes into its destination in place. */
module DeepMerge {
  import opened Common
  import opened JsHeap
  import opened JsTree
  import opened MergeHeap

  /** No object of the source is being merged further up. */
  ghost predicate Unmet(stack: map<Loc, Loc>, fs: seq<Field>) {
    forall l :: l in Below(fs) ==> l !in stack
  }

  /** The first n properties of the source are merged in: cur stands at t, and merging the others
      into it gives what merging all of them into d gives. */
  ghost predicate Merged(before: Cells, d: Tree, cells: Cells, cur: Tree, fs: seq<Field>, n: nat) {
    && d.Node? && cur.Node? && cur.loc == d.loc && n <= |fs|
    && Step(before, d, cells, Ref(d.loc), cur)
    && MergeFields(Erase(cur), EraseFields(fs)[n..]) == MergeFields(Erase(d), EraseFields(fs))
  }

  /** Properties are only added, and an array is longer only by an element that makes it so. */
  ghost predicate Grown(before: Cells, cells: Cells) {
    && before.Keys <= cells.Keys
    && (forall l :: l in before ==> GrownCell(before[l], cells[l]))
    && forall l :: l in cells && l !in before ==> GrownCell(Cell(cells[l].isArray, 0, [], map[]), cells[l])
  }

  ghost predicate GrownCell(c: Cell, c': Cell) {
    && c'.isArray == c.isArray && c.slots.Keys <= c'.slots.Keys && c.length <= c'.length
    && (c.length < c'.length ==> Index(c'.length - 1) in c'.slots)
  }

  class Merger {
    const heap: Heap
    /** The Stack: what each source object is being merged into. */
    var stack: map<Loc, Loc>

    constructor (heap: Heap)
      ensures this.heap == heap && stack == map[]
    {
      this.heap, stack := heap, map[];
    }

    /** assignMergeValue */
    method AssignMergeValue(t: Loc, k: Key, v: Value, ghost d: Tree, ghost b: Tree, ghost before: Cells)
      requires heap.Valid() && d.Node? && t == d.loc
      requires Holds(before, Ref(t), d) && Proper(d) && Step(before, Get(d.fields, k), heap.cells, v, b)
      requires b.Leaf? ==> heap.cells == before
      modifies heap`cells
      ensures heap.Valid() && Step(before, d, heap.cells, Ref(t), AssignMerge(d, k, b))
      ensures Grown(old(heap.cells), heap.cells)
    {
      hide *;
      GrownSame(heap.cells);
      SameCell(before, d, k, heap.cells, v, b);
      var c := heap.cells[t];
      if v == Undefined && (k in c.slots || k == PROTO) {
        NoAssignment(before, d, k, b);
      } else {
        if !(k in c.slots && c.slots[k] == v && v != Undefined) {
          GrownPut(heap.cells, t, k, v);
          heap.Put(t, k, v);
        } else {
          SameValue(heap.cells, t, k, v);
        }
        Assignment(before, d, k, old(heap.cells), v, b, heap.cells);
      }
    }

    /** A copy of the elements of an array-like object. */
    method CopyArray(a: Loc, ghost d: Tree) returns (l: Loc)
      requires heap.Valid() && d.Node? && d.loc == a && Holds(heap.cells, Ref(a), d) && Proper(d) && ArrayLike(d)
      modifies heap
      ensures heap.Valid() && Grown(old(heap.cells), heap.cells)
      ensures Step(old(heap.cells), d, heap.cells, Ref(l),
                   Node(l, true, Elements(d.fields, Get(d.fields, Name("length")).v.n)))
    {
      hide *;
      ghost var before := heap.cells;
      LengthAt(before, d);
      HoldsKeys(before, d);
      var n: nat := heap.cells[a].slots[Name("length")].n;
      l := heap.Alloc(true, n);
      ElementsCopiedNone(d.fields, heap.cells[l], before[a], n);
      for i := 0 to n
        invariant heap.Valid() && l !in before && heap.cells.Keys == before.Keys + {l}
        invariant forall x :: x in before ==> heap.cells[x] == before[x]
        invariant ElementsCopied(d.fields, heap.cells[l], before[a], i) && heap.cells[l].length == n
      {
        var v := ReadSlot(heap.cells[a], Index(i));
        ElementsCopiedNext(d.fields, heap.cells[l], before[a], i, v);
        SameLength(heap.cells[l], Index(i), v);
        heap.Put(l, Index(i), v);
      }
      ElementsStep(before, d, l, heap.cells, n);
      GrownCopy(before, heap.cells, l, d.fields, before[a], n);
    }

    /** What an object-valued property is merged into. */
    method Base(a: Value, isArray: bool, ghost d: Tree) returns (l: Loc, ghost b: Tree)
      requires heap.Valid() && Holds(heap.cells, a, d) && Proper(d)
      modifies heap
      ensures heap.Valid() && b.Node? && b.loc == l && Erase(b) == BaseFor(Erase(d), isArray)
      ensures Step(old(heap.cells), d, heap.cells, Ref(l), b) && Grown(old(heap.cells), heap.cells)
    {
      hide *;
      GrownSame(heap.cells);
      ghost var before := heap.cells;
      ValueKind(before, a, d);
      EraseBase(d, isArray);
      if a.Ref? && (isArray ==> heap.cells[a.loc].isArray) {
        l, b := a.loc, d;
        NoStep(before, a, d);
      } else if isArray && a.Ref? && IsArrayLike(heap.cells[a.loc]) {
        LengthAt(before, d);
        l := CopyArray(a.loc, d);
        b := Node(l, true, Elements(d.fields, Get(d.fields, Name("length")).v.n));
        ErasesTo(l, true, b.fields);
      } else {
        l := heap.Alloc(isArray, 0);
        b := Node(l, isArray, []);
        EmptyStep(before, d, l, isArray, heap.cells);
        GrownEmpty(before, l, isArray);
        ErasesTo(l, isArray, []);
      }
    }

    method MergeKey(t: Loc, k: Key, u: Value, ghost d: Tree, ghost f: Field) returns (ghost d': Tree)
      requires heap.Valid() && d.Node? && t == d.loc && k == f.key
      requires Holds(heap.cells, Ref(t), d) && Proper(d) && Reads(heap.cells, u, f.value)
      requires Locs(d) !! Locs(f.value) && forall l :: l in Locs(f.value) ==> l !in stack
      modifies heap, this`stack
      ensures heap.Valid() && stack == old(stack)
      ensures Step(old(heap.cells), d, heap.cells, Ref(t), d') && d'.Node? && d'.loc == t
      ensures Erase(d') == MergeField(Erase(d), EraseField(f)) && Grown(old(heap.cells), heap.cells)
      decreases f, 1
    {
      hide *;
      GrownSame(heap.cells);
      ghost var before := heap.cells;
      SourceKind(before, u, f.value);
      HoldsKeys(before, d);
      EraseMerge(d, f);
      if !u.Ref? {
        NoStepField(before, d, k, u);
        AssignMergeValue(t, k, u, d, f.value, before);
        d' := AssignMerge(d, k, f.value);
        AssignMergeKeeps(d, k, f.value);
      } else if k == PROTO {
        d' := d;
        NoStep(before, Ref(t), d);
      } else {
        var a := ReadSlot(heap.cells[t], k);
        HoldsGet(before, d, k);
        ghost var b;
        var l;
        l, b := Base(a, heap.cells[u.loc].isArray, Get(d.fields, k));
        BaseApart(before, d, k, heap.cells, l, b, u, f.value, stack);
        // A finite source never meets an object of its own again, so the Stack has no entry for u here.
        stack := stack[u.loc := l];
        ghost var cells := heap.cells;
        ghost var b' := Merge(l, u.loc, b, f.value);
        stack := stack - {u.loc};
        StepTwice(before, Get(d.fields, k), cells, Ref(l), b, heap.cells, Ref(l), b');
        GrownTwice(before, cells, heap.cells);
        ghost var cells' := heap.cells;
        AssignMergeValue(t, k, Ref(l), d, b', before);
        GrownTwice(before, cells', heap.cells);
        d' := AssignMerge(d, k, b');
        AssignMergeKeeps(d, k, b');
      }
    }

    method Merge(t: Loc, s: Loc, ghost d: Tree, ghost e: Tree) returns (ghost d': Tree)
      requires heap.Valid() && d.Node? && e.Node? && t == d.loc && s == e.loc
      requires Holds(heap.cells, Ref(t), d) && Proper(d) && Reads(heap.cells, Ref(s), e) && Locs(d) !! Locs(e)
      requires Unmet(stack, e.fields)
      modifies heap, this`stack
      ensures heap.Valid() && stack == old(stack)
      ensures Step(old(heap.cells), d, heap.cells, Ref(t), d') && d'.Node? && d'.loc == t
      ensures Erase(d') == DeepMerge(Erase(d), Erase(e)) && Grown(old(heap.cells), heap.cells)
      decreases e, 2
    {
      hide *;
      GrownSame(heap.cells);
      ghost var before := heap.cells;
      d' := d;
      Start(before, d, e);
      ReadsFields(before, e);
      var keys := KeysIn(heap.cells[s]);
      for n := 0 to |keys|
        invariant heap.Valid() && stack == old(stack) && Grown(before, heap.cells)
        invariant Merged(before, d, heap.cells, d', e.fields, n)
      {
        ghost var cells, cur := heap.cells, d';
        Resume(before, d, cells, cur, e, n, stack);
        d' := MergeKey(t, keys[n], ReadSlot(heap.cells[s], keys[n]), cur, e.fields[n]);
        NextKey(before, d, cells, cur, e.fields, n, heap.cells, d');
        GrownTwice(before, cells, heap.cells);
      }
      End(before, d, heap.cells, d', e);
    }
  }

  // ---------- lengths ----------

  lemma GrownSame(cells: Cells)
    ensures Grown(cells, cells)
  {
  }

  lemma GrownTwice(a: Cells, b: Cells, c: Cells)
    requires Grown(a, b) && Grown(b, c)
    ensures Grown(a, c)
  {
    hide GrownCell;
    forall l | l in a ensures GrownCell(a[l], c[l]) {
      CellTwice(a[l], b[l], c[l]);
    }
    forall l | l in c && l !in a ensures GrownCell(Cell(c[l].isArray, 0, [], map[]), c[l]) {
      if l in b {
        KindKept(b[l], c[l]);
        CellTwice(Cell(b[l].isArray, 0, [], map[]), b[l], c[l]);
      }
    }
  }

  lemma KindKept(a: Cell, b: Cell)
    requires GrownCell(a, b)
    ensures a.isArray == b.isArray
  {
  }

  lemma CellTwice(a: Cell, b: Cell, c: Cell)
    requires GrownCell(a, b) && GrownCell(b, c)
    ensures GrownCell(a, c)
  {
  }

  lemma GrownPut(cells: Cells, l: Loc, k: Key, v: Value)
    requires l in cells
    ensures Grown(cells, cells[l := Assign(cells[l], k, v)])
  {
  }

  lemma GrownEmpty(cells: Cells, l: Loc, isArray: bool)
    requires l !in cells
    ensures Grown(cells, cells[l := Cell(isArray, 0, [], map[])])
  {
  }

  lemma SameLength(c: Cell, k: Key, v: Value)
    requires k.Index? ==> k.i < c.length
    ensures Assign(c, k, v).length == c.length
  {
  }

  lemma GrownCopy(before: Cells, cells: Cells, l: Loc, fs: seq<Field>, from: Cell, n: nat)
    requires l !in before && cells.Keys == before.Keys + {l} && forall x :: x in before ==> cells[x] == before[x]
    requires ElementsCopied(fs, cells[l], from, n) && cells[l].length == n
    ensures Grown(before, cells)
  {
  }

  // ---------- reading ----------

  predicate IsArrayLike(c: Cell) {
    && !c.isArray && ReadSlot(c, Name("length")).Number? && 0 <= ReadSlot(c, Name("length")).n <= MAX_LENGTH
  }

  lemma HoldsGet(cells: Cells, d: Tree, k: Key)
    requires d.Node? && Holds(cells, Ref(d.loc), d) && Proper(d)
    ensures d.loc in cells && Holds(cells, ReadSlot(cells[d.loc], k), Get(d.fields, k)) && Proper(Get(d.fields, k))
  {
    HoldsKeys(cells, d);
    if Has(d.fields, k) {
      HoldsAt(cells, d, Find(d.fields, k));
      assert ProperField(d.fields[Find(d.fields, k)]);
    }
  }

  lemma ValueKind(cells: Cells, v: Value, t: Tree)
    requires Holds(cells, v, t)
    ensures v.Ref? <==> t.Node?
    ensures t.Node? ==> v == Ref(t.loc) && t.loc in cells && cells[t.loc].isArray == t.isArray
    ensures t.Node? ==> (IsArrayLike(cells[t.loc]) <==> ArrayLike(t))
    ensures t.Leaf? ==> t.v == v && Erase(t) == t
  {
    if t.Node? {
      LengthKind(cells, t);
    }
  }

  lemma SourceKind(cells: Cells, v: Value, t: Tree)
    requires Reads(cells, v, t)
    ensures v.Ref? <==> t.Node?
    ensures t.Node? ==> v == Ref(t.loc) && t.loc in cells && cells[t.loc].isArray == t.isArray
    ensures t.Leaf? ==> t.v == v && Erase(t) == t
  {
    FillAt(cells);
  }

  lemma LengthKind(cells: Cells, t: Tree)
    requires t.Node? && Holds(cells, Ref(t.loc), t)
    ensures IsArrayLike(cells[t.loc]) <==> ArrayLike(t)
  {
    var k := Name("length");
    HoldsKeys(cells, t);
    if Has(t.fields, k) {
      HoldsAt(cells, t, Find(t.fields, k));
    }
  }

  lemma LengthAt(cells: Cells, t: Tree)
    requires t.Node? && Holds(cells, Ref(t.loc), t) && ArrayLike(t)
    ensures Name("length") in cells[t.loc].slots
    ensures cells[t.loc].slots[Name("length")] == Get(t.fields, Name("length")).v
    ensures Get(t.fields, Name("length")).Leaf? && Get(t.fields, Name("length")).v.Number?
      && Get(t.fields, Name("length")).v.n >= 0
  {
    HoldsKeys(cells, t);
    HoldsAt(cells, t, Find(t.fields, Name("length")));
  }

  // ---------- assignment ----------

  lemma SameCell(before: Cells, d: Tree, k: Key, cells: Cells, v: Value, b: Tree)
    requires d.Node? && Holds(before, Ref(d.loc), d) && Proper(d) && Step(before, Get(d.fields, k), cells, v, b)
    ensures d.loc in before && d.loc in cells && cells[d.loc] == before[d.loc]
    ensures k in cells[d.loc].slots <==> Has(d.fields, k)
    ensures v == Undefined <==> b == Leaf(Undefined)
    ensures b.Leaf? <==> !v.Ref?
  {
    HoldsKeys(before, d);
    OldLocs(d.fields, k);
  }

  lemma NoAssignment(before: Cells, d: Tree, k: Key, b: Tree)
    requires d.Node? && Holds(before, Ref(d.loc), d) && Proper(d)
    requires b == Leaf(Undefined) && (Has(d.fields, k) || k == PROTO)
    ensures Step(before, d, before, Ref(d.loc), AssignMerge(d, k, b))
  {
    NoStep(before, Ref(d.loc), d);
  }

  lemma SameValue(cells: Cells, t: Loc, k: Key, v: Value)
    requires t in cells && k in cells[t].slots && cells[t].slots[k] == v
    ensures cells[t := Assign(cells[t], k, v)] == cells
  {
    assert cells[t].slots[k := v] == cells[t].slots;
  }

  lemma Assignment(before: Cells, d: Tree, k: Key, cells: Cells, v: Value, b: Tree, cells': Cells)
    requires d.Node? && Holds(before, Ref(d.loc), d) && Proper(d) && Step(before, Get(d.fields, k), cells, v, b)
    requires d.loc in cells && cells' == cells[d.loc := Assign(cells[d.loc], k, v)]
    requires !(b == Leaf(Undefined) && (Has(d.fields, k) || k == PROTO))
    ensures Step(before, d, cells', Ref(d.loc), AssignMerge(d, k, b))
  {
    hide Step, Has;
    FieldStep(before, d, k, cells, v, b, cells');
  }

  lemma AssignMergeKeeps(d: Tree, k: Key, b: Tree)
    requires d.Node?
    ensures AssignMerge(d, k, b).Node? && AssignMerge(d, k, b).loc == d.loc
  {
  }

  lemma NoStepField(cells: Cells, d: Tree, k: Key, v: Value)
    requires d.Node? && Holds(cells, Ref(d.loc), d) && Proper(d) && !v.Ref?
    ensures Step(cells, Get(d.fields, k), cells, v, Leaf(v))
  {
  }

  // ---------- bases ----------

  /** The first i elements of the list fs, held by from, are in c. */
  ghost predicate ElementsCopied(fs: seq<Field>, c: Cell, from: Cell, i: nat) {
    && c.isArray && CellOk(c) && c.keys == KeysOf(Elements(fs, i))
    && forall j :: 0 <= j < i ==> Index(j) in c.slots && c.slots[Index(j)] == ReadSlot(from, Index(j))
  }

  lemma ElementsCopiedNone(fs: seq<Field>, c: Cell, from: Cell, n: nat)
    requires c == Cell(true, n, [], map[])
    ensures ElementsCopied(fs, c, from, 0)
  {
  }

  lemma ElementsCopiedNext(fs: seq<Field>, c: Cell, from: Cell, i: nat, v: Value)
    requires ElementsCopied(fs, c, from, i) && v == ReadSlot(from, Index(i))
    ensures ElementsCopied(fs, Assign(c, Index(i), v), from, i + 1)
  {
    var c' := Assign(c, Index(i), v);
    hide CellOk, Elements, ReadSlot, Assign;
    NextIndex(fs, i);
    AssignOk(c, Index(i), v);
    AssignKeys(c, Index(i), v);
    assert Index(i) !in c.slots by { SlotIsKey(c, Index(i)); }
  }

  lemma NextIndex(fs: seq<Field>, i: nat)
    ensures Index(i) !in KeysOf(Elements(fs, i))
    ensures KeysOf(Elements(fs, i + 1)) == KeysOf(Elements(fs, i)) + [Index(i)]
  {
  }

  lemma SlotIsKey(c: Cell, k: Key)
    requires CellOk(c)
    ensures k in c.slots <==> k in c.keys
  {
  }

  lemma ElementsStep(before: Cells, d: Tree, l: Loc, cells: Cells, n: nat)
    requires d.Node? && Holds(before, Ref(d.loc), d) && Proper(d) && d.loc in before
    requires l !in before && cells.Keys == before.Keys + {l} && forall x :: x in before ==> cells[x] == before[x]
    requires ElementsCopied(d.fields, cells[l], before[d.loc], n)
    ensures Step(before, d, cells, Ref(l), Node(l, true, Elements(d.fields, n)))
  {
    var es := Elements(d.fields, n);
    hide *;
    ElementsLocs(d.fields, n);
    BelowOnHeap(before, d);
    ElementsProper(before, d, n);
    forall i | 0 <= i < |es| ensures FieldHolds(cells, cells[l], es[i]) {
      ElementHolds(before, d, l, cells, n, i);
    }
    ElementsHold(before, d, l, cells, n);
    NodeProper(l, true, es);
    NodeLocs(l, true, es);
    NodeLocs(d.loc, d.isArray, d.fields);
    StepMade(before, d, cells, Ref(l), Node(l, true, es));
  }

  lemma ElementsHold(before: Cells, d: Tree, l: Loc, cells: Cells, n: nat)
    requires d.Node? && d.loc in before && l in cells && ElementsCopied(d.fields, cells[l], before[d.loc], n)
    requires forall i :: 0 <= i < |Elements(d.fields, n)| ==> FieldHolds(cells, cells[l], Elements(d.fields, n)[i])
    ensures Holds(cells, Ref(l), Node(l, true, Elements(d.fields, n)))
  {
    HoldsMade(cells, l, true, Elements(d.fields, n));
  }

  lemma NodeLocs(l: Loc, a: bool, fs: seq<Field>)
    ensures Locs(Node(l, a, fs)) == {l} + Below(fs)
  {
  }

  lemma NodeProper(l: Loc, a: bool, fs: seq<Field>)
    requires l !in Below(fs) && ProperFields(fs)
    ensures Proper(Node(l, a, fs))
  {
  }

  lemma ElementHolds(before: Cells, d: Tree, l: Loc, cells: Cells, n: nat, i: nat)
    requires d.Node? && Holds(before, Ref(d.loc), d) && Proper(d) && d.loc in before && i < n
    requires l !in before && cells.Keys == before.Keys + {l} && forall x :: x in before ==> cells[x] == before[x]
    requires ElementsCopied(d.fields, cells[l], before[d.loc], n)
    ensures |Elements(d.fields, n)| == n && FieldHolds(cells, cells[l], Elements(d.fields, n)[i])
  {
    HoldsGet(before, d, Index(i));
    var v, t := ReadSlot(before[d.loc], Index(i)), Get(d.fields, Index(i));
    LocsOnHeap(before, v, t);
    HoldsFrame(before, cells, v, t);
  }

  lemma ElementsLocs(fs: seq<Field>, n: nat)
    ensures Below(Elements(fs, n)) <= Below(fs)
  {
    var es := Elements(fs, n);
    forall l | l in Below(es) ensures l in Below(fs) {
      var i := BelowAt(es, l);
      OldLocs(fs, Index(i));
    }
  }

  lemma ElementsProper(before: Cells, d: Tree, n: nat)
    requires d.Node? && Holds(before, Ref(d.loc), d) && Proper(d)
    ensures ProperFields(Elements(d.fields, n))
  {
    var fs, es := d.fields, Elements(d.fields, n);
    forall i | 0 <= i < |es| ensures ProperField(es[i]) {
      HoldsGet(before, d, Index(i));
    }
    forall i, j | 0 <= i < j < |es| ensures LocsIn(es[i]) !! LocsIn(es[j]) {
      if Has(fs, Index(i)) && Has(fs, Index(j)) {
        var p, q := Find(fs, Index(i)), Find(fs, Index(j));
        assert fs[p].key != fs[q].key;
        assert LocsIn(fs[p]) !! LocsIn(fs[q]);
      }
    }
  }

  lemma EmptyStep(before: Cells, d: Tree, l: Loc, a: bool, cells: Cells)
    requires l !in before && cells == before[l := Cell(a, 0, [], map[])]
    ensures Step(before, d, cells, Ref(l), Node(l, a, []))
  {
    assert Below([]) == {};
  }

  /** The base of a property stays apart from the source value, which stays off the Stack below. */
  lemma BaseApart(before: Cells, d: Tree, k: Key, cells: Cells, l: Loc, b: Tree, u: Value, f: Tree,
                  stack: map<Loc, Loc>)
    requires d.Node? && Holds(before, Ref(d.loc), d) && Reads(before, u, f) && Locs(d) !! Locs(f)
    requires Step(before, Get(d.fields, k), cells, Ref(l), b) && u.Ref?
    requires forall x :: x in Locs(f) ==> x !in stack
    ensures Reads(cells, u, f) && f.Node? && u == Ref(f.loc) && Locs(b) !! Locs(f) && u.loc !in stack
    ensures Holds(cells, Ref(l), b) && Proper(b)
    ensures Unmet(stack[u.loc := l], f.fields)
    ensures stack[u.loc := l] - {u.loc} == stack
  {
    hide *;
    SourceKind(before, u, f);
    NodeLocs(d.loc, d.isArray, d.fields);
    NodeLocs(f.loc, f.isArray, f.fields);
    OldLocs(d.fields, k);
    StepReads(before, Get(d.fields, k), cells, Ref(l), b, u, f);
    StepFacts(before, Get(d.fields, k), cells, Ref(l), b);
    NeverReadsItself(before, u, f);
    StillUnmet(stack, u.loc, l, f.fields);
  }

  lemma NeverReadsItself(cells: Cells, u: Value, f: Tree)
    requires Reads(cells, u, f) && f.Node?
    ensures f.loc !in Below(f.fields)
  {
    NotBelowItself(Fill(cells), u, f);
  }

  lemma StillUnmet(stack: map<Loc, Loc>, u: Loc, l: Loc, fs: seq<Field>)
    requires u !in stack && u !in Below(fs) && forall x :: x in Below(fs) ==> x !in stack
    ensures Unmet(stack[u := l], fs)
    ensures stack[u := l] - {u} == stack
  {
  }

  // ---------- erasing ----------

  lemma {:induction false} EraseFind(fs: seq<Field>, k: Key)
    ensures Find(EraseFields(fs), k) == Find(fs, k)
  {
    if fs != [] && fs[0].key != k {
      EraseFind(fs[1..], k);
      assert EraseFields(fs)[1..] == EraseFields(fs[1..]);
    }
  }

  lemma EraseGet(fs: seq<Field>, k: Key)
    ensures Has(EraseFields(fs), k) == Has(fs, k) && Get(EraseFields(fs), k) == Erase(Get(fs, k))
  {
    EraseFind(fs, k);
  }

  lemma EraseAssign(d: Tree, k: Key, b: Tree)
    requires d.Node?
    ensures Erase(AssignMerge(d, k, b)) == AssignMerge(Erase(d), k, Erase(b))
  {
    EraseFind(d.fields, k);
    assert EraseFields(SetField(d.fields, k, b)) == SetField(EraseFields(d.fields), k, Erase(b));
    assert Erase(b) == Leaf(Undefined) <==> b == Leaf(Undefined);
  }

  lemma EraseElements(fs: seq<Field>, n: nat)
    ensures EraseFields(Elements(fs, n)) == Elements(EraseFields(fs), n)
  {
    forall i | 0 <= i < n ensures EraseFields(Elements(fs, n))[i] == Elements(EraseFields(fs), n)[i] {
      EraseGet(fs, Index(i));
    }
  }

  lemma EraseBase(d: Tree, isArray: bool)
    ensures BaseFor(Erase(d), isArray) ==
      if d.Node? && (isArray ==> d.isArray) then Erase(d)
      else if d.Node? && ArrayLike(d) then
        Node(0, true, EraseFields(Elements(d.fields, Get(d.fields, Name("length")).v.n)))
      else Node(0, isArray, [])
  {
    if d.Node? {
      EraseGet(d.fields, Name("length"));
      if ArrayLike(d) {
        EraseElements(d.fields, Get(d.fields, Name("length")).v.n);
      }
    }
  }

  lemma ErasesTo(l: Loc, a: bool, fs: seq<Field>)
    ensures Erase(Node(l, a, fs)) == Node(0, a, EraseFields(fs))
    ensures EraseFields([]) == []
  {
  }

  /** What the merge of one property comes to. */
  lemma EraseMerge(d: Tree, f: Field)
    requires d.Node?
    ensures f.value.Leaf? || f.key != PROTO ==> forall b ::
      Erase(b) == MergeValue(Erase(Get(d.fields, f.key)), Erase(f.value)) ==>
        Erase(AssignMerge(d, f.key, b)) == MergeField(Erase(d), EraseField(f))
    ensures f.value.Node? && f.key == PROTO ==> MergeField(Erase(d), EraseField(f)) == Erase(d)
    ensures f.value.Leaf? ==> MergeValue(Erase(Get(d.fields, f.key)), Erase(f.value)) == Erase(f.value)
    ensures var a := Erase(Get(d.fields, f.key));
      f.value.Node? ==> MergeValue(a, Erase(f.value)) == DeepMerge(BaseFor(a, f.value.isArray), Erase(f.value))
  {
    EraseGet(d.fields, f.key);
    forall b | Erase(b) == MergeValue(Erase(Get(d.fields, f.key)), Erase(f.value))
      ensures Erase(AssignMerge(d, f.key, b)) == AssignMerge(Erase(d), f.key, Erase(b))
    {
      EraseAssign(d, f.key, b);
    }
  }

  // ---------- the loop ----------

  lemma Start(before: Cells, d: Tree, e: Tree)
    requires d.Node? && e.Node? && Holds(before, Ref(d.loc), d) && Proper(d)
    ensures Merged(before, d, before, d, e.fields, 0)
  {
    NoStep(before, Ref(d.loc), d);
    assert EraseFields(e.fields)[0..] == EraseFields(e.fields);
  }

  lemma Resume(before: Cells, d: Tree, cells: Cells, cur: Tree, e: Tree, n: nat, stack: map<Loc, Loc>)
    requires e.Node? && Merged(before, d, cells, cur, e.fields, n) && Locs(d) !! Locs(e) && n < |e.fields|
    requires Reads(before, Ref(e.loc), e) && Unmet(stack, e.fields)
    ensures Holds(cells, Ref(d.loc), cur) && Proper(cur) && cur.Node? && cur.loc == d.loc
    ensures e.loc in cells && Reads(cells, ReadSlot(cells[e.loc], e.fields[n].key), e.fields[n].value)
    ensures Locs(cur) !! Locs(e.fields[n].value)
    ensures forall l :: l in Locs(e.fields[n].value) ==> l !in stack
  {
    StepReads(before, d, cells, Ref(d.loc), cur, Ref(e.loc), e);
    hide Reads;
    ReadsFields(cells, e);
    BelowHas(e.fields, n);
  }

  lemma NextKey(before: Cells, d: Tree, cells: Cells, cur: Tree, fs: seq<Field>, n: nat, cells': Cells, cur': Tree)
    requires Merged(before, d, cells, cur, fs, n) && n < |fs|
    requires Step(cells, cur, cells', Ref(d.loc), cur') && cur'.Node? && cur'.loc == d.loc
    requires Erase(cur') == MergeField(Erase(cur), EraseField(fs[n]))
    ensures Merged(before, d, cells', cur', fs, n + 1)
  {
    hide Step;
    StepTwice(before, d, cells, Ref(d.loc), cur, cells', Ref(d.loc), cur');
    var es := EraseFields(fs)[n..];
    assert es[0] == EraseField(fs[n]) && es[1..] == EraseFields(fs)[n + 1..];
  }

  lemma End(before: Cells, d: Tree, cells: Cells, cur: Tree, e: Tree)
    requires e.Node? && Merged(before, d, cells, cur, e.fields, |e.fields|)
    ensures Erase(cur) == DeepMerge(Erase(d), Erase(e)) && Step(before, d, cells, Ref(d.loc), cur)
    ensures cur.Node? && cur.loc == d.loc
  {
    assert EraseFields(e.fields)[|e.fields|..] == [];
  }

  // ---------- the whole merge ----------

  /** merge(t, s), from an empty Stack: the destination becomes the deep merge of what it holds and what
      the source reads as, the source reads as before, and the two share no object. Nothing happens when
      they are the same object. */
  method MergeInto(heap: Heap, t: Loc, s: Loc, ghost d: Tree, ghost e: Tree) returns (ghost d': Tree)
    requires heap.Valid() && d.Node? && e.Node? && Holds(heap.cells, Ref(t), d) && Reads(heap.cells, Ref(s), e)
    requires Proper(d) && (t == s || Locs(d) !! Locs(e))
    modifies heap
    ensures heap.Valid() && Holds(heap.cells, Ref(t), d') && Proper(d') && Reads(heap.cells, Ref(s), e)
    ensures t != s ==> Erase(d') == DeepMerge(Erase(d), Erase(e)) && Locs(d') !! Locs(e)
    ensures t == s ==> d' == d && heap.cells == old(heap.cells)
    ensures Grown(old(heap.cells), heap.cells)
    ensures forall l :: l in old(heap.cells) && l !in Locs(d) ==> l in heap.cells && heap.cells[l] == old(heap.cells[l])
  {
    ghost var before := heap.cells;
    GrownSame(before);
    if t == s {
      d' := d;
    } else {
      var m := new Merger(heap);
      hide *;
      LocOf(before, t, d);
      SourceKind(before, Ref(s), e);
      NothingMet(e.fields);
      d' := m.Merge(t, s, d, e);
      StepReads(before, d, heap.cells, Ref(t), d', Ref(s), e);
      StepFacts(before, d, heap.cells, Ref(t), d');
    }
  }

  lemma LocOf(cells: Cells, l: Loc, t: Tree)
    requires Holds(cells, Ref(l), t)
    ensures t.Node? && t.loc == l
  {
  }

  lemma NothingMet(fs: seq<Field>)
    ensures Unmet(map[], fs)
  {
  }

  /** What a source reads as has no key twice, so what JsTree says of merges holds of it. */
  lemma {:induction false} ReadsTidy(cells: Cells, v: Value, t: Tree)
    requires Reads(cells, v, t)
    ensures Tidy(Erase(t))
    decreases t
  {
    if t.Node? {
      SourceKind(cells, v, t);
      SourceKeys(cells, t);
      ReadsFields(cells, t);
      forall i | 0 <= i < |t.fields| ensures TidyField(EraseField(t.fields[i])) {
        ReadsTidy(cells, ReadSlot(cells[t.loc], t.fields[i].key), t.fields[i].value);
      }
    }
  }

  // ---------- the shortcut for one object ----------

  /** Nothing merged of the source e is a hole of an array. */
  ghost predicate NoHoles(cells: Cells, e: Tree)
    decreases e, 1
  {
    e.Node? ==> e.loc in cells && forall i :: 0 <= i < |e.fields| ==> NoHole(cells, cells[e.loc], e.fields[i])
  }

  ghost predicate NoHole(cells: Cells, c: Cell, f: Field)
    decreases f, 0
  {
    f.key in c.slots && (f.key != PROTO ==> NoHoles(cells, f.value))
  }

  /** The shortcut makes no difference, that is merging an object into itself in full would change nothing,
      exactly when no hole is merged. */
  lemma {:induction false} ShortcutRightIff(cells: Cells, d: Tree, e: Tree)
    requires d.Node? && e.Node? && d.loc == e.loc && Proper(d)
    requires Holds(cells, Ref(d.loc), d) && Reads(cells, Ref(e.loc), e)
    ensures DeepMerge(Erase(d), Erase(e)) == Erase(d) <==> NoHoles(cells, e)
    decreases e
  {
    var fs, es := e.fields, EraseFields(e.fields);
    forall i | 0 <= i < |fs|
      ensures MergeField(Erase(d), es[i]) == Erase(d) <==> NoHole(cells, cells[e.loc], fs[i])
    {
      hide *;
      var k := fs[i].key;
      var a, f := Get(d.fields, k), fs[i].value;
      OneField(cells, d, e, i);
      PairedNodes(cells[d.loc], d, fs[i]);
      if k in cells[d.loc].slots && f.Node? && k != PROTO {
        ValueKind(cells, ReadSlot(cells[d.loc], k), a);
        ShortcutRightIff(cells, a, f);
      }
      FieldUnchangedIff(cells[d.loc], cells, d, fs[i]);
    }
    hide *;
    SourceKeys(cells, e);
    ErasesTo(d.loc, d.isArray, d.fields);
    ErasesTo(e.loc, e.isArray, fs);
    UnchangedIff(Erase(d), es);
    MergeOfFields(Erase(d), Erase(e));
    NoHolesIs(cells, e);
  }

  lemma PairedNodes(c: Cell, d: Tree, f: Field)
    requires d.Node? && Paired(c, d, f)
    ensures f.key in c.slots && f.value.Node? ==> Get(d.fields, f.key).Node? && Get(d.fields, f.key).loc == f.value.loc
  {
  }

  lemma MergeOfFields(d: Tree, e: Tree)
    requires d.Node? && e.Node?
    ensures DeepMerge(d, e) == MergeFields(d, e.fields)
  {
  }

  lemma NoHolesIs(cells: Cells, e: Tree)
    requires e.Node? && e.loc in cells
    ensures NoHoles(cells, e) <==> forall i :: 0 <= i < |e.fields| ==> NoHole(cells, cells[e.loc], e.fields[i])
  {
  }

  lemma SourceKeys(cells: Cells, e: Tree)
    requires e.Node? && Reads(cells, Ref(e.loc), e)
    ensures e.loc in cells && NoDup(KeysOf(EraseFields(e.fields)))
  {
    FillAt(cells);
    HoldsKeys(Fill(cells), e);
    assert KeysOf(EraseFields(e.fields)) == KeysOf(e.fields);
  }

  /** What the object d, at c, holds and reads under one key of its walk. */
  ghost predicate Paired(c: Cell, d: Tree, f: Field)
    requires d.Node?
  {
    var a, b := Get(d.fields, f.key), f.value;
    && (f.key in c.slots <==> Has(d.fields, f.key))
    && if f.key !in c.slots then b == Leaf(Undefined) && f.key != PROTO
       else if b.Leaf? then a == b
       else a.Node? && a.loc == b.loc && a.isArray == b.isArray
  }

  lemma OneField(cells: Cells, d: Tree, e: Tree, i: nat)
    requires d.Node? && e.Node? && d.loc == e.loc && Proper(d) && i < |e.fields|
    requires Holds(cells, Ref(d.loc), d) && Reads(cells, Ref(e.loc), e)
    ensures d.loc in cells && Paired(cells[d.loc], d, e.fields[i]) && Proper(Get(d.fields, e.fields[i].key))
    ensures var v := ReadSlot(cells[d.loc], e.fields[i].key);
      Holds(cells, v, Get(d.fields, e.fields[i].key)) && Reads(cells, v, e.fields[i].value)
  {
    hide *;
    var k, f := e.fields[i].key, e.fields[i].value;
    HoldsKeys(cells, d);
    ReadsFields(cells, e);
    WalkedKey(cells[d.loc], k);
    HoldsGet(cells, d, k);
    var v := ReadSlot(cells[d.loc], k);
    SourceKind(cells, v, f);
    ValueKind(cells, v, Get(d.fields, k));
    IsPaired(cells[d.loc], d, e.fields[i]);
  }

  lemma IsPaired(c: Cell, d: Tree, f: Field)
    requires d.Node?
    requires var a, b, v := Get(d.fields, f.key), f.value, ReadSlot(c, f.key);
      && (f.key in c.slots <==> Has(d.fields, f.key))
      && (f.key !in c.slots ==> f.key != PROTO && v == Undefined)
      && (v.Ref? <==> a.Node?) && (v.Ref? <==> b.Node?) && (a.Leaf? ==> a.v == v) && (b.Leaf? ==> b.v == v)
      && (v.Ref? ==> v == Ref(a.loc) && v == Ref(b.loc) && a.isArray == b.isArray)
    ensures Paired(c, d, f)
  {
  }

  lemma WalkedKey(c: Cell, k: Key)
    requires CellOk(c) && k in KeysIn(c)
    ensures k !in c.slots ==> k != PROTO && ReadSlot(c, k) == Undefined
  {
    FillIs(c);
    assert k in FillCell(c).slots;
  }

  lemma FieldUnchangedIff(c: Cell, cells: Cells, d: Tree, f: Field)
    requires d.Node? && Paired(c, d, f)
    requires f.key in c.slots && f.value.Node? && f.key != PROTO ==>
      var a := Erase(Get(d.fields, f.key));
      a.Node? && (DeepMerge(a, Erase(f.value)) == a <==> NoHoles(cells, f.value))
    ensures MergeField(Erase(d), EraseField(f)) == Erase(d) <==> NoHole(cells, c, f)
  {
    var a, dd := Get(d.fields, f.key), Erase(d);
    EraseGet(d.fields, f.key);
    MergeFieldIs(dd, EraseField(f));
    SetUnchangedIff(dd, f.key, MergeValue(Erase(a), Erase(f.value)));
    if f.value.Node? {
      EraseBase(a, f.value.isArray);
    }
  }

  // ---------- a hole ----------

  const A := Name("a")
  const HOLE := Field(Index(0), Leaf(Undefined))
  const SEVEN := Field(Index(1), Leaf(Number(7)))

  /** {a: [ , 7]} gives {a: []} an element undefined. */
  lemma HoleIsMerged(cells: Cells, e: Tree)
    requires cells == map[0 := Cell(false, 0, [A], map[A := Ref(1)]),
                          1 := Cell(true, 2, [Index(1)], map[Index(1) := Number(7)])]
    requires Reads(cells, Ref(0), e)
    ensures e.Node? && DeepMerge(Node(0, false, [Field(A, Node(0, true, []))]), Erase(e)) ==
      Node(0, false, [Field(A, Node(0, true, [HOLE, SEVEN]))])
  {
    SourceKind(cells, Ref(0), e);
    ReadsFields(cells, e);
    assert e.fields[0].key == KeysOf(e.fields)[0];
    var b := e.fields[0].value;
    hide *;
    HoleIsRead(cells[1], cells, b);
    ErasesTo(e.loc, false, e.fields);
    assert EraseFields(e.fields) == [Field(A, Node(0, true, [HOLE, SEVEN]))];
    HoleMerges();
  }

  lemma HoleIsRead(c: Cell, cells: Cells, b: Tree)
    requires c == Cell(true, 2, [Index(1)], map[Index(1) := Number(7)])
    requires 1 in cells && cells[1] == c && Reads(cells, Ref(1), b)
    ensures b.Node? && Erase(b) == Node(0, true, [HOLE, SEVEN])
  {
    assert KeysIn(c) == [Index(0), Index(1)];
    assert ReadSlot(c, Index(0)) == Undefined && ReadSlot(c, Index(1)) == Number(7);
    hide *;
    SourceKind(cells, Ref(1), b);
    ReadsFields(cells, b);
    assert b.fields[0].key == KeysOf(b.fields)[0] && b.fields[1].key == KeysOf(b.fields)[1];
    SourceKind(cells, Undefined, b.fields[0].value);
    SourceKind(cells, Number(7), b.fields[1].value);
    assert b.fields == [HOLE, SEVEN];
    ErasesTo(1, true, b.fields);
    assert EraseFields(b.fields) == [HOLE, SEVEN];
  }

  lemma HoleMerges()
    ensures DeepMerge(Node(0, false, [Field(A, Node(0, true, []))]),
                      Node(0, false, [Field(A, Node(0, true, [HOLE, SEVEN]))])) ==
      Node(0, false, [Field(A, Node(0, true, [HOLE, SEVEN]))])
  {
    var empty, full := Node(0, true, []), Node(0, true, [HOLE, SEVEN]);
    assert MergeField(empty, HOLE) == Node(0, true, [HOLE]);
    assert MergeField(Node(0, true, [HOLE]), SEVEN) == full;
    assert [HOLE, SEVEN][1..] == [SEVEN] && [SEVEN][1..] == [];
    assert MergeFields(empty, [HOLE, SEVEN]) == full;
    assert MergeField(Node(0, false, [Field(A, empty)]), Field(A, full)) == Node(0, false, [Field(A, full)]);
    var d, fs := Node(0, false, [Field(A, empty)]), [Field(A, full)];
    MergeOfFields(d, Node(0, false, fs));
    FirstField(d, fs);
    assert fs[1..] == [] && MergeFields(MergeField(d, fs[0]), []) == MergeField(d, fs[0]);
  }
}
