/** The deep clone of arrays and plain objects, shared references and cycles included. */
module CloneDeep {
  import opened Common
  import opened JsHeap
  import opened Reachability

  // ---------- what a clone is ----------

  /** Where a value points once the locations in m have moved. */
  function Image(m: map<Loc, Loc>, v: Value): Value {
    if v.Ref? && v.loc in m then Ref(m[v.loc]) else v
  }

  const INDEX := Name("index")
  const INPUT := Name("input")

  /** An array that looks like the result of a regular expression. */
  predicate IsResult(c: Cell) {
    c.isArray && c.length > 0 && ReadSlot(c, Index(0)).Text? && INDEX in c.slots
  }

  /** The keys whose values are cloned: the indexes below its length for an array, holes included, and
      the own keys for an object. */
  function Traversed(c: Cell): seq<Key> {
    if c.isArray then Indexes(c.length) else c.keys
  }

  /** The keys whose values are taken over as they are. */
  function Extra(c: Cell): seq<Key> {
    if IsResult(c) then [INDEX, INPUT] else []
  }

  function TakeExtra(from: Cell, to: Cell): Cell {
    Assign(Assign(to, INDEX, ReadSlot(from, INDEX)), INPUT, ReadSlot(from, INPUT))
  }

  /** The cell at l has been copied, every object in it that is cloned having a copy of its own. */
  ghost predicate Copied(cells: Cells, m: map<Loc, Loc>, l: Loc) {
    && l in m && l in cells && m[l] in cells && CopyOf(cells[l], cells[m[l]], m)
  }

  ghost predicate CopyOf(from: Cell, to: Cell, m: map<Loc, Loc>) {
    && to.isArray == from.isArray && to.length == from.length && to.keys == Traversed(from) + Extra(from) && CellOk(to)
    && (forall i :: 0 <= i < |Traversed(from)| ==> KeyCopied(from, to, m, Traversed(from)[i]))
    && forall i :: 0 <= i < |Extra(from)| ==>
         Extra(from)[i] in to.slots && to.slots[Extra(from)[i]] == ReadSlot(from, Extra(from)[i])
  }

  ghost predicate KeyCopied(from: Cell, to: Cell, m: map<Loc, Loc>, k: Key) {
    && k in to.slots && to.slots[k] == Image(m, ReadSlot(from, k))
    && (ReadSlot(from, k).Ref? ==> ReadSlot(from, k).loc in m)
  }

  ghost predicate CopiedUpTo(from: Cell, to: Cell, m: map<Loc, Loc>, n: nat) {
    && n <= |Traversed(from)| && to.isArray == from.isArray && to.length == from.length
    && to.keys == Traversed(from)[..n] && CellOk(to)
    && forall i :: 0 <= i < n ==> KeyCopied(from, to, m, Traversed(from)[i])
  }

  ghost predicate Injective(m: map<Loc, Loc>) {
    forall a, b :: a in m && b in m && m[a] == m[b] ==> a == b
  }

  ghost predicate Extends(m: map<Loc, Loc>, m': map<Loc, Loc>) {
    forall l :: l in m ==> l in m' && m'[l] == m[l]
  }

  /** Everything that cloning the objects in u comes to is in u. */
  ghost predicate Closed(cells: Cells, u: set<Loc>) {
    && u <= cells.Keys && (forall l :: l in u ==> CellOk(cells[l]))
    && forall l, k :: l in u && k in Traversed(cells[l]) ==> Within(u, ReadSlot(cells[l], k))
  }

  ghost predicate Within(u: set<Loc>, v: Value) {
    v.Ref? ==> v.loc in u
  }

  /** The objects that cloning l comes to. */
  ghost function References(cells: Cells, l: Loc): set<Loc>
    requires l in cells
  {
    set k | k in Traversed(cells[l]) && ReadSlot(cells[l], k).Ref? :: ReadSlot(cells[l], k).loc
  }

  ghost function RefGraph(cells: Cells): Graph<Loc> {
    map l | l in cells :: References(cells, l)
  }

  /** The objects behind v. */
  ghost function Behind(v: Value): set<Loc> {
    if v.Ref? then {v.loc} else {}
  }

  /** Old cells are as they were, and the memory of copies is sound. */
  ghost predicate Sound(before: Cells, cells: Cells, u: set<Loc>, m: map<Loc, Loc>) {
    && Closed(before, u) && m.Keys <= u && Injective(m)
    && (forall l :: l in before ==> l in cells && cells[l] == before[l])
    && (forall l :: l in m ==> m[l] in cells && m[l] !in u)
  }

  class Cloner {
    const heap: Heap
    /** The Stack: which copy stands for which original. */
    var stack: map<Loc, Loc>

    constructor (heap: Heap)
      ensures this.heap == heap && stack == map[]
    {
      this.heap, stack := heap, map[];
    }

    /** assignValue: skips a write that changes nothing. */
    method AssignValue(l: Loc, k: Key, v: Value)
      requires heap.Valid() && l in heap.cells
      modifies heap
      ensures heap.Valid() && heap.next == old(heap.next)
      ensures heap.cells == old(heap.cells)[l := Assign(old(heap.cells)[l], k, v)]
    {
      var c := heap.cells[l];
      if k in c.slots && c.slots[k] == v {
        assert c.slots[k := v] == c.slots;
        assert heap.cells[l := Assign(c, k, v)] == heap.cells;
      } else {
        heap.Put(l, k, v);
      }
    }

    method Clone(v: Value, ghost u: set<Loc>) returns (r: Value)
      requires heap.Valid() && Within(u, v) && Sound(heap.cells, heap.cells, u, stack)
      modifies heap, this
      ensures heap.Valid() && Sound(old(heap.cells), heap.cells, u, stack) && Extends(old(stack), stack)
      ensures NewCopied(old(heap.cells), heap.cells, old(stack), stack, Behind(v), {})
      ensures r == Image(stack, v) && (v.Ref? ==> v.loc in stack)
      decreases |u - stack.Keys|, 0
    {
      hide *;
      AtHand(heap.cells, u, stack, v);
      if !v.Ref? {
        return v;
      }
      var t := v.loc;
      ghost var before, known := heap.cells, stack;
      var i := heap.Alloc(heap.cells[t].isArray, heap.cells[t].length);
      if t in stack {
        Dropped(before, heap.cells, u, stack, v, i);
        return Ref(stack[t]);
      }
      stack := stack[t := i];
      Begun(before, heap.cells, u, known, stack, t, i);
      Smaller(u, known, stack, t);
      FillCopy(t, i, u, before, known);
      r := Ref(i);
      ImageOf(stack, v);
    }

    /** Copies the elements or properties of t into its copy i one by one. What an array takes over as it is
        is written last: the keys come after the indexes in any case. */
    method FillCopy(t: Loc, i: Loc, ghost u: set<Loc>, ghost before: Cells, ghost known: map<Loc, Loc>)
      requires heap.Valid() && InProgress(before, heap.cells, u, known, stack, t, i, 0) && CellOk(before[t])
      modifies heap, this
      ensures heap.Valid() && Sound(before, heap.cells, u, stack)
      ensures Extends(known, stack) && t in stack && stack[t] == i
      ensures NewCopied(before, heap.cells, known, stack, {t}, {})
      decreases |u - stack.Keys|, 2
    {
      hide *;
      ghost var m := stack;
      Unpack(before, heap.cells, u, known, stack, t, i, 0);
      ProgressSound(before, heap.cells, u, known, stack, t, i, 0);
      KeysToWalk(before[t]);
      ExtendsSelf(stack);
      var keys := if heap.cells[t].isArray then Indexes(heap.cells[t].length) else heap.cells[t].keys;
      for n := 0 to |keys|
        invariant heap.Valid() && InProgress(before, heap.cells, u, known, stack, t, i, n) && Extends(m, stack)
      {
        Fewer(u, m, stack);
        ghost var stack1 := stack;
        ProgressSound(before, heap.cells, u, known, stack, t, i, n);
        KeysToWalk(before[t]);
        var value := ReadSlot(heap.cells[t], keys[n]);
        CloneKey(t, i, keys[n], value, n, u, before, known);
        ExtendsTwice(m, stack1, stack);
      }
      ProgressSound(before, heap.cells, u, known, stack, t, i, |keys|);
      ghost var cells := heap.cells;
      ApartFrom(before, cells, u, known, stack, t, i, |keys|);
      CopyExtra(t, i);
      Finished(before, cells, heap.cells, u, known, stack, t, i);
    }

    /** What an array that looks like a result of a regular expression keeps besides its elements. */
    method CopyExtra(t: Loc, i: Loc)
      requires heap.Valid() && t in heap.cells && i in heap.cells && t != i
      modifies heap`cells
      ensures heap.Valid()
      ensures var c := old(heap.cells);
        heap.cells == c[i := if IsResult(c[t]) then TakeExtra(c[t], c[i]) else c[i]]
      ensures var from, to := old(heap.cells)[t], heap.cells[i];
        if from.isArray && from.length >= 1 && Index(0) in from.slots && from.slots[Index(0)].Text?
           && Name("index") in from.slots
        then
          && Name("index") in to.slots && to.slots[Name("index")] == from.slots[Name("index")]
          && Name("input") in to.slots
          && to.slots[Name("input")] == if Name("input") in from.slots then from.slots[Name("input")] else Undefined
        else heap.cells == old(heap.cells)
    {
      ResultIs(heap.cells[t], heap.cells[i]);
      hide IsResult, Assign, ReadSlot, CellOk, TakeExtra;
      var c := heap.cells[t];
      if IsResult(c) {
        heap.Put(i, INDEX, ReadSlot(c, INDEX));
        heap.Put(i, INPUT, ReadSlot(c, INPUT));
      }
    }

    method CloneKey(t: Loc, i: Loc, key: Key, value: Value, ghost n: nat, ghost u: set<Loc>, ghost before: Cells,
                    ghost known: map<Loc, Loc>)
      requires t in before && CellOk(before[t]) && n < |Traversed(before[t])|
      requires key == Traversed(before[t])[n] && value == ReadSlot(before[t], key)
      requires heap.Valid() && InProgress(before, heap.cells, u, known, stack, t, i, n)
      requires Sound(heap.cells, heap.cells, u, stack) && Within(u, value) && i in heap.cells
      modifies heap, this
      ensures heap.Valid() && InProgress(before, heap.cells, u, known, stack, t, i, n + 1) && Extends(old(stack), stack)
      decreases |u - stack.Keys|, 1
    {
      hide *;
      ghost var cells1, stack1 := heap.cells, stack;
      var copy := Clone(value, u);
      ghost var cells2 := heap.cells;
      StillThere(cells1, cells2, u, stack, i);
      AssignValue(i, key, copy);
      Progressed(before, cells1, cells2, heap.cells, u, known, stack1, stack, t, i, n, key, value);
    }
  }

  lemma ResultIs(from: Cell, to: Cell)
    ensures IsResult(from) <==>
      && from.isArray && from.length >= 1 && Index(0) in from.slots && from.slots[Index(0)].Text?
      && Name("index") in from.slots
    ensures TakeExtra(from, to) == Assign(Assign(to, INDEX, ReadSlot(from, INDEX)), INPUT, ReadSlot(from, INPUT))
    ensures var r := TakeExtra(from, to);
      && Name("index") in r.slots && Name("input") in r.slots
      && r.slots[Name("index")] == (if Name("index") in from.slots then from.slots[Name("index")] else Undefined)
      && r.slots[Name("input")] == if Name("input") in from.slots then from.slots[Name("input")] else Undefined
  {
  }

  lemma ImageOf(m: map<Loc, Loc>, v: Value)
    requires v.Ref? && v.loc in m
    ensures Image(m, v) == Ref(m[v.loc]) && Behind(v) == {v.loc}
  {
  }

  /** What is at hand when v is to be cloned; for a primitive, all there is to do. */
  lemma AtHand(cells: Cells, u: set<Loc>, m: map<Loc, Loc>, v: Value)
    requires Sound(cells, cells, u, m) && Within(u, v)
    ensures v.Ref? ==> v.loc in u && v.loc in cells && CellOk(cells[v.loc])
    ensures Extends(m, m) && NewCopied(cells, cells, m, m, Behind(v), {})
    ensures !v.Ref? ==> Image(m, v) == v
  {
  }

  /** A copy made although there is one already: nothing refers to it. */
  lemma Dropped(before: Cells, cells: Cells, u: set<Loc>, m: map<Loc, Loc>, v: Value, i: Loc)
    requires Sound(before, before, u, m) && i !in before && before.Keys <= cells.Keys && v.Ref? && v.loc in m
    requires forall l :: l in before ==> cells[l] == before[l]
    ensures Sound(before, cells, u, m) && NewCopied(before, cells, m, m, Behind(v), {}) && Image(m, v) == Ref(m[v.loc])
  {
  }

  lemma StillThere(cells1: Cells, cells2: Cells, u: set<Loc>, m: map<Loc, Loc>, i: Loc)
    requires Sound(cells1, cells2, u, m)
    ensures i in cells1 ==> i in cells2 && cells2[i] == cells1[i]
  {
  }

  lemma Fewer(u: set<Loc>, m: map<Loc, Loc>, m': map<Loc, Loc>)
    requires Extends(m, m')
    ensures |u - m'.Keys| <= |u - m.Keys|
  {
    SubsetSize(u - m'.Keys, u - m.Keys);
  }

  /** The copies made since m0 are complete and belong to objects reached from src. */
  ghost predicate NewCopied(before: Cells, cells: Cells, m0: map<Loc, Loc>, m: map<Loc, Loc>, src: set<Loc>,
                            skip: set<Loc>) {
    forall l :: l in m && l !in m0 && l !in skip ==>
      m[l] !in before && Copied(cells, m, l) && From(RefGraph(before), src, l)
  }

  /** The first n keys of t have been copied into its copy i. */
  ghost predicate InProgress(before: Cells, cells: Cells, u: set<Loc>, m0: map<Loc, Loc>, m: map<Loc, Loc>,
                             t: Loc, i: Loc, n: nat) {
    && t in u && u <= before.Keys && t !in m0 && t in m && m[t] == i && i in cells && i !in before
    && Sound(before, cells, u, m) && Extends(m0, m)
    && CopiedUpTo(before[t], cells[i], m, n)
    && NewCopied(before, cells, m0, m, {t}, {t})
  }

  lemma Begun(before: Cells, cells: Cells, u: set<Loc>, m0: map<Loc, Loc>, m: map<Loc, Loc>, t: Loc, i: Loc)
    requires Sound(before, before, u, m0) && t in u && t !in m0 && i !in before
    requires CellOk(before[t])
    requires cells == before[i := Cell(before[t].isArray, before[t].length, [], map[])] && m == m0[t := i]
    ensures InProgress(before, cells, u, m0, m, t, i, 0) && Extends(m0, m)
  {
  }

  lemma ProgressSound(before: Cells, cells: Cells, u: set<Loc>, m0: map<Loc, Loc>, m: map<Loc, Loc>, t: Loc, i: Loc,
                      n: nat)
    requires InProgress(before, cells, u, m0, m, t, i, n)
    ensures Sound(cells, cells, u, m) && t in cells && t in before && cells[t] == before[t] && i in cells
    ensures forall k :: k in Traversed(before[t]) ==> Within(u, ReadSlot(before[t], k))
  {
  }

  lemma Smaller(u: set<Loc>, m0: map<Loc, Loc>, m: map<Loc, Loc>, t: Loc)
    requires t in u && t !in m0 && t in m && Extends(m0, m)
    ensures |u - m.Keys| < |u - m0.Keys|
  {
    var a, b := u - m.Keys, u - m0.Keys;
    assert a <= b - {t};
    SubsetSize(a, b - {t});
  }

  /** Copies stay copies while cells are only added and more copies remembered. */
  lemma StillCopied(cells: Cells, cells': Cells, m: map<Loc, Loc>, m': map<Loc, Loc>, l: Loc)
    requires Copied(cells, m, l) && Extends(m, m')
    requires l in cells' && cells'[l] == cells[l] && m[l] in cells' && cells'[m[l]] == cells[m[l]]
    ensures Copied(cells', m', l)
  {
  }

  /** Within a closed set of unchanged cells, reachability is unchanged. */
  lemma {:induction false} SamePath(before: Cells, cells: Cells, u: set<Loc>, p: seq<Loc>)
    requires Closed(before, u) && (forall l :: l in u ==> l in cells && cells[l] == before[l])
    requires IsPath(RefGraph(cells), p) && p[0] in u
    ensures IsPath(RefGraph(before), p) && forall j :: 0 <= j < |p| ==> p[j] in u
    decreases |p|
  {
    if |p| > 1 {
      assert Edge(RefGraph(cells), p[0], p[1]);
      assert p[1] in References(before, p[0]);
      var q := p[1..];
      forall j | 0 <= j < |q| - 1 ensures Edge(RefGraph(cells), q[j], q[j + 1]) {
        assert Edge(RefGraph(cells), p[j + 1], p[j + 2]);
      }
      SamePath(before, cells, u, q);
      forall j | 0 <= j < |p| - 1 ensures Edge(RefGraph(before), p[j], p[j + 1]) {
        if j > 0 {
          assert Edge(RefGraph(before), q[j - 1], q[j]);
        }
      }
      assert forall j :: 0 < j < |p| ==> p[j] == q[j - 1];
    }
  }

  /** What is reached from an entry of t is reached from t. */
  lemma ReachedThrough(before: Cells, cells: Cells, u: set<Loc>, t: Loc, k: Key, l: Loc)
    requires Closed(before, u) && (forall x :: x in u ==> x in cells && cells[x] == before[x])
    requires t in u && k in Traversed(before[t]) && From(RefGraph(cells), Behind(ReadSlot(before[t], k)), l)
    ensures From(RefGraph(before), {t}, l)
  {
    var value := ReadSlot(before[t], k);
    var p :| IsPath(RefGraph(cells), p) && p[0] in Behind(value) && p[|p| - 1] == l;
    SamePath(before, cells, u, p);
    var q := [t] + p;
    assert Edge(RefGraph(before), t, p[0]);
    forall j | 0 <= j < |q| - 1 ensures Edge(RefGraph(before), q[j], q[j + 1]) {
      if j > 0 {
        assert Edge(RefGraph(before), p[j - 1], p[j]);
      }
    }
    assert IsPath(RefGraph(before), q) && q[0] in {t} && q[|q| - 1] == l;
  }

  lemma NewStillCopied(before: Cells, cells1: Cells, cells2: Cells, cells3: Cells, u: set<Loc>, m0: map<Loc, Loc>,
                       m1: map<Loc, Loc>, m2: map<Loc, Loc>, t: Loc, i: Loc, k: Key)
    requires Sound(before, cells1, u, m1) && NewCopied(before, cells1, m0, m1, {t}, {t})
    requires Sound(cells1, cells2, u, m2) && Extends(m1, m2) && t in m1 && m1[t] == i && t in u
    requires k in Traversed(before[t]) && NewCopied(cells1, cells2, m1, m2, Behind(ReadSlot(before[t], k)), {})
    requires i in cells2 && i !in u && (forall l :: l in cells2 && l != i ==> l in cells3 && cells3[l] == cells2[l])
    ensures NewCopied(before, cells3, m0, m2, {t}, {t})
  {
    forall l | l in m2 && l !in m0 && l != t
      ensures m2[l] !in before && Copied(cells3, m2, l) && From(RefGraph(before), {t}, l)
    {
      if l in m1 {
        StillCopied(cells1, cells3, m1, m2, l);
      } else {
        ReachedThrough(before, cells1, u, t, k, l);
        StillCopied(cells2, cells3, m2, m2, l);
      }
    }
  }

  /** A new key, below the length if it is the index of an array. */
  lemma AssignNew(c: Cell, k: Key, v: Value)
    requires CellOk(c) && k !in c.keys && (c.isArray && k.Index? ==> k.i < c.length)
    ensures Assign(c, k, v) == Cell(c.isArray, c.length, c.keys + [k], c.slots[k := v]) && CellOk(Assign(c, k, v))
  {
    AssignOk(c, k, v);
  }

  lemma OneKeyMore(from: Cell, to: Cell, m1: map<Loc, Loc>, m2: map<Loc, Loc>, n: nat, v: Value)
    requires CellOk(from) && CopiedUpTo(from, to, m1, n) && Extends(m1, m2) && n < |Traversed(from)|
    requires v == Image(m2, ReadSlot(from, Traversed(from)[n]))
    requires ReadSlot(from, Traversed(from)[n]).Ref? ==> ReadSlot(from, Traversed(from)[n]).loc in m2
    ensures CopiedUpTo(from, Assign(to, Traversed(from)[n], v), m2, n + 1)
  {
    hide *;
    var ks := Traversed(from);
    var k := ks[n];
    TraversedOnce(from);
    UpTo(from, to, m1, n);
    NotYet(ks, n);
    AssignNew(to, k, v);
    NowCopied(from, to, m2, k, v);
    forall j | 0 <= j < n ensures KeyCopied(from, Assign(to, k, v), m2, ks[j]) {
      StaysCopied(from, to, m1, m2, k, v, ks[j]);
    }
    MadeUpTo(from, Assign(to, k, v), m2, n + 1);
  }

  lemma NotYet(ks: seq<Key>, n: nat)
    requires NoDup(ks) && n < |ks|
    ensures ks[n] !in ks[..n] && ks[..n + 1] == ks[..n] + [ks[n]]
    ensures forall j :: 0 <= j < n ==> ks[j] != ks[n]
  {
  }

  lemma UpTo(from: Cell, to: Cell, m: map<Loc, Loc>, n: nat)
    requires CopiedUpTo(from, to, m, n)
    ensures n <= |Traversed(from)| && to.isArray == from.isArray && to.length == from.length
    ensures to.keys == Traversed(from)[..n] && CellOk(to)
    ensures forall i :: 0 <= i < n ==> KeyCopied(from, to, m, Traversed(from)[i])
  {
    hide CellOk, Traversed, KeyCopied;
  }

  lemma MadeUpTo(from: Cell, to: Cell, m: map<Loc, Loc>, n: nat)
    requires n <= |Traversed(from)| && to.isArray == from.isArray && to.length == from.length
    requires to.keys == Traversed(from)[..n] && CellOk(to)
    requires forall i :: 0 <= i < n ==> KeyCopied(from, to, m, Traversed(from)[i])
    ensures CopiedUpTo(from, to, m, n)
  {
    hide CellOk, Traversed, KeyCopied;
  }

  lemma StaysCopied(from: Cell, to: Cell, m1: map<Loc, Loc>, m2: map<Loc, Loc>, k: Key, v: Value, x: Key)
    requires KeyCopied(from, to, m1, x) && Extends(m1, m2) && x != k
    ensures KeyCopied(from, Assign(to, k, v), m2, x)
  {
  }

  lemma NowCopied(from: Cell, to: Cell, m: map<Loc, Loc>, k: Key, v: Value)
    requires v == Image(m, ReadSlot(from, k)) && (ReadSlot(from, k).Ref? ==> ReadSlot(from, k).loc in m)
    ensures KeyCopied(from, Assign(to, k, v), m, k)
  {
  }

  lemma TraversedOnce(c: Cell)
    requires CellOk(c)
    ensures NoDup(Traversed(c))
    ensures c.isArray ==> forall k :: k in Traversed(c) ==> k.Index? && k.i < c.length
  {
  }

  lemma KeysToWalk(c: Cell)
    ensures Traversed(c) == if c.isArray then Indexes(c.length) else c.keys
  {
  }

  lemma ExtendsSelf(m: map<Loc, Loc>)
    ensures Extends(m, m)
  {
  }

  lemma ExtraKeys(from: Cell, to: Cell)
    requires CellOk(to) && INDEX !in to.keys && INPUT !in to.keys
    ensures var v, w := ReadSlot(from, INDEX), ReadSlot(from, INPUT);
      && TakeExtra(from, to) ==
        Cell(to.isArray, to.length, to.keys + [INDEX] + [INPUT], to.slots[INDEX := v][INPUT := w])
      && CellOk(TakeExtra(from, to))
  {
    hide CellOk, ReadSlot, Assign;
    AssignNew(to, INDEX, ReadSlot(from, INDEX));
    AssignNew(Assign(to, INDEX, ReadSlot(from, INDEX)), INPUT, ReadSlot(from, INPUT));
  }

  lemma StaysWithExtra(from: Cell, to: Cell, m: map<Loc, Loc>, x: Key)
    requires KeyCopied(from, to, m, x) && x.Index?
    ensures KeyCopied(from, TakeExtra(from, to), m, x)
  {
  }

  /** Taking over the extra keys of an array completes its copy. */
  lemma ExtraTaken(from: Cell, to: Cell, m: map<Loc, Loc>)
    requires CellOk(from) && CopiedUpTo(from, to, m, |Traversed(from)|)
    ensures CopyOf(from, if IsResult(from) then TakeExtra(from, to) else to, m)
  {
    AllUpTo(from, to, m);
    hide *;
    if IsResult(from) {
      ExtraKeys(from, to);
      forall k | k in Traversed(from) ensures KeyCopied(from, TakeExtra(from, to), m, k) {
        StaysWithExtra(from, to, m, k);
      }
      ResultCopy(from, to, TakeExtra(from, to), m);
    } else {
      PlainCopy(from, to, m);
    }
  }

  lemma AllUpTo(from: Cell, to: Cell, m: map<Loc, Loc>)
    requires CellOk(from) && CopiedUpTo(from, to, m, |Traversed(from)|)
    ensures to.isArray == from.isArray && to.length == from.length && to.keys == Traversed(from) && CellOk(to)
    ensures forall k :: k in Traversed(from) ==> KeyCopied(from, to, m, k)
    ensures IsResult(from) ==> forall k :: k in Traversed(from) ==> k.Index?
    ensures IsResult(from) ==> INDEX !in to.keys && INPUT !in to.keys
  {
    hide KeyCopied, CellOk;
    var ks := Traversed(from);
    assert ks[..|ks|] == ks;
  }

  lemma PlainCopy(from: Cell, to: Cell, m: map<Loc, Loc>)
    requires to.isArray == from.isArray && to.length == from.length && to.keys == Traversed(from) && CellOk(to)
    requires forall k :: k in Traversed(from) ==> KeyCopied(from, to, m, k)
    requires !IsResult(from)
    ensures CopyOf(from, to, m)
  {
    hide KeyCopied, CellOk, Traversed, IsResult;
    assert Traversed(from) + [] == Traversed(from);
  }

  lemma ResultCopy(from: Cell, to: Cell, to': Cell, m: map<Loc, Loc>)
    requires to.isArray == from.isArray && to.length == from.length && to.keys == Traversed(from) && CellOk(to')
    requires to' == Cell(to.isArray, to.length, to.keys + [INDEX] + [INPUT],
                         to.slots[INDEX := ReadSlot(from, INDEX)][INPUT := ReadSlot(from, INPUT)])
    requires forall k :: k in Traversed(from) ==> KeyCopied(from, to', m, k)
    requires IsResult(from)
    ensures CopyOf(from, to', m)
  {
    hide KeyCopied, CellOk, Traversed, IsResult, ReadSlot;
    assert Traversed(from) + [INDEX] + [INPUT] == Traversed(from) + [INDEX, INPUT];
  }

  lemma SoundStep(before: Cells, cells1: Cells, cells2: Cells, cells3: Cells, u: set<Loc>,
                  m1: map<Loc, Loc>, m2: map<Loc, Loc>, i: Loc)
    requires Sound(before, cells1, u, m1) && Sound(cells1, cells2, u, m2) && i !in before && i in cells2
    requires cells3.Keys == cells2.Keys && forall l :: l in cells2 && l != i ==> cells3[l] == cells2[l]
    ensures Sound(before, cells3, u, m2)
  {
  }

  lemma Unpack(before: Cells, cells: Cells, u: set<Loc>, m0: map<Loc, Loc>, m: map<Loc, Loc>, t: Loc, i: Loc, n: nat)
    requires InProgress(before, cells, u, m0, m, t, i, n)
    ensures t in u && u <= before.Keys && t in before && t !in m0 && t in m && m[t] == i
    ensures i in cells && i !in before && i !in u
    ensures Sound(before, cells, u, m) && Extends(m0, m) && CopiedUpTo(before[t], cells[i], m, n)
    ensures NewCopied(before, cells, m0, m, {t}, {t})
  {
  }

  lemma ExtendsTwice(a: map<Loc, Loc>, b: map<Loc, Loc>, c: map<Loc, Loc>)
    requires Extends(a, b) && Extends(b, c)
    ensures Extends(a, c)
    ensures forall l :: l in b ==> l in c && c[l] == b[l]
  {
  }

  /** One key copied: the recursive clone, then the assignment. */
  lemma Progressed(before: Cells, cells1: Cells, cells2: Cells, cells3: Cells, u: set<Loc>, m0: map<Loc, Loc>,
                   m1: map<Loc, Loc>, m2: map<Loc, Loc>, t: Loc, i: Loc, n: nat, k: Key, value: Value)
    requires InProgress(before, cells1, u, m0, m1, t, i, n) && n < |Traversed(before[t])|
    requires CellOk(before[t]) && k == Traversed(before[t])[n] && value == ReadSlot(before[t], k)
    requires Sound(cells1, cells2, u, m2) && Extends(m1, m2)
    requires NewCopied(cells1, cells2, m1, m2, Behind(value), {}) && (value.Ref? ==> value.loc in m2)
    requires i in cells2 && cells3.Keys == cells2.Keys && forall l :: l in cells2 && l != i ==> cells3[l] == cells2[l]
    requires cells3[i] == Assign(cells2[i], k, Image(m2, value))
    ensures InProgress(before, cells3, u, m0, m2, t, i, n + 1)
  {
    Unpack(before, cells1, u, m0, m1, t, i, n);
    hide *;
    StillThere(cells1, cells2, u, m2, i);
    SoundStep(before, cells1, cells2, cells3, u, m1, m2, i);
    NewStillCopied(before, cells1, cells2, cells3, u, m0, m1, m2, t, i, k);
    OneKeyMore(before[t], cells1[i], m1, m2, n, Image(m2, value));
    ExtendsTwice(m0, m1, m2);
    Pack(before, cells3, u, m0, m2, t, i, n + 1);
  }

  lemma Pack(before: Cells, cells: Cells, u: set<Loc>, m0: map<Loc, Loc>, m: map<Loc, Loc>, t: Loc, i: Loc, n: nat)
    requires t in u && u <= before.Keys && t !in m0 && t in m && m[t] == i && i in cells && i !in before
    requires Sound(before, cells, u, m) && Extends(m0, m) && CopiedUpTo(before[t], cells[i], m, n)
    requires NewCopied(before, cells, m0, m, {t}, {t})
    ensures InProgress(before, cells, u, m0, m, t, i, n)
  {
  }

  lemma ApartFrom(before: Cells, cells: Cells, u: set<Loc>, m0: map<Loc, Loc>, m: map<Loc, Loc>, t: Loc, i: Loc, n: nat)
    requires InProgress(before, cells, u, m0, m, t, i, n)
    ensures t in cells && i in cells && t != i && t in before && cells[t] == before[t]
    ensures Injective(m) && (forall l :: l in m ==> l != i) && From(RefGraph(before), {t}, t)
  {
    hide CopiedUpTo, NewCopied, CellOk, References, From;
    FromStart(RefGraph(before), {t}, t);
  }

  lemma Finished(before: Cells, cells: Cells, cells': Cells, u: set<Loc>, m0: map<Loc, Loc>, m: map<Loc, Loc>, t: Loc,
                 i: Loc)
    requires t in before && CellOk(before[t]) && InProgress(before, cells, u, m0, m, t, i, |Traversed(before[t])|)
    requires i in cells && cells' ==
      cells[i := if IsResult(before[t]) then TakeExtra(before[t], cells[i]) else cells[i]]
    ensures Sound(before, cells', u, m) && NewCopied(before, cells', m0, m, {t}, {})
    ensures Extends(m0, m) && t in m && m[t] == i
  {
    hide *;
    Unpack(before, cells, u, m0, m, t, i, |Traversed(before[t])|);
    ApartFrom(before, cells, u, m0, m, t, i, |Traversed(before[t])|);
    ExtraTaken(before[t], cells[i], m);
    SoundAfter(before, cells, cells', u, m, i);
    AlsoCopied(before, cells, cells', m0, m, t, i);
  }

  lemma AlsoCopied(before: Cells, cells: Cells, cells': Cells, m0: map<Loc, Loc>, m: map<Loc, Loc>, t: Loc, i: Loc)
    requires NewCopied(before, cells, m0, m, {t}, {t}) && Injective(m) && t in m && m[t] == i && i !in before
    requires t in before && t in cells && i in cells && t != i && cells[t] == before[t]
    requires cells'.Keys == cells.Keys && forall l :: l in cells && l != i ==> cells'[l] == cells[l]
    requires (forall l :: l in m ==> l != i) && CopyOf(before[t], cells'[i], m) && From(RefGraph(before), {t}, t)
    ensures NewCopied(before, cells', m0, m, {t}, {})
  {
    hide From, CopyOf;
    forall l | l in m && l !in m0
      ensures m[l] !in before && Copied(cells', m, l) && From(RefGraph(before), {t}, l)
    {
      if l != t {
        assert Copied(cells, m, l) && m[l] != i;
      }
    }
  }

  lemma SoundAfter(before: Cells, cells: Cells, cells': Cells, u: set<Loc>, m: map<Loc, Loc>, i: Loc)
    requires Sound(before, cells, u, m) && i !in before && cells'.Keys == cells.Keys
    requires forall l :: l in cells && l != i ==> cells'[l] == cells[l]
    ensures Sound(before, cells', u, m)
  {
  }

  // ---------- the finished clone ----------

  /** m takes everything that cloning v comes to to its copy: different objects keep different copies, every
      copy is new, and nothing old has changed. */
  ghost predicate IsClone(before: Cells, cells: Cells, v: Value, r: Value, m: map<Loc, Loc>) {
    && (forall l :: l in m <==> l in RefGraph(before) && From(RefGraph(before), Behind(v), l))
    && (forall l :: l in before ==> l in cells && cells[l] == before[l])
    && (forall l :: l in m ==> m[l] !in before && Copied(cells, m, l))
    && Injective(m) && r == Image(m, v) && (v.Ref? ==> v.loc in m)
  }

  /** The whole deep clone, from an empty Stack. */
  method DeepClone(heap: Heap, v: Value, ghost u: set<Loc>) returns (r: Value, ghost m: map<Loc, Loc>)
    requires heap.Valid() && Within(u, v) && Closed(heap.cells, u)
    modifies heap
    ensures heap.Valid() && IsClone(old(heap.cells), heap.cells, v, r, m)
  {
    ghost var before := heap.cells;
    var cloner := new Cloner(heap);
    assert Sound(before, before, u, map[]);
    hide Sound, Closed, NewCopied, Injective;
    r := cloner.Clone(v, u);
    m := cloner.stack;
    CompleteClone(before, heap.cells, u, v, r, m);
  }

  /** A copied object's references are copied. */
  lemma EdgeIsCopied(before: Cells, cells: Cells, m: map<Loc, Loc>, a: Loc, b: Loc)
    requires a in before && a in cells && cells[a] == before[a] && Copied(cells, m, a) && Edge(RefGraph(before), a, b)
    ensures b in m
  {
    hide CellOk, Traversed;
    var c := before[a];
    var k :| k in Traversed(c) && ReadSlot(c, k).Ref? && ReadSlot(c, k).loc == b;
    TraversedCopied(c, cells[m[a]], m, k);
  }

  lemma TraversedCopied(from: Cell, to: Cell, m: map<Loc, Loc>, k: Key)
    requires CopyOf(from, to, m) && k in Traversed(from)
    ensures KeyCopied(from, to, m, k)
  {
    hide CellOk, Traversed, KeyCopied;
    var i :| 0 <= i < |Traversed(from)| && Traversed(from)[i] == k;
  }

  lemma CompleteClone(before: Cells, cells: Cells, u: set<Loc>, v: Value, r: Value, m: map<Loc, Loc>)
    requires Within(u, v) && Sound(before, cells, u, m) && NewCopied(before, cells, map[], m, Behind(v), {})
    requires r == Image(m, v) && (v.Ref? ==> v.loc in m)
    ensures IsClone(before, cells, v, r, m)
  {
    assert (forall l :: l in before ==> l in cells && cells[l] == before[l]) && Injective(m)
        && (forall l :: l in m ==> l in before);
    assert forall l :: l in before <==> l in RefGraph(before);
    hide *;
    forall l | l in RefGraph(before) && From(RefGraph(before), Behind(v), l) ensures l in m {
      ReachedIsCopied(before, cells, u, v, m, l);
    }
    forall l | l in m
      ensures m[l] !in before && Copied(cells, m, l) && From(RefGraph(before), Behind(v), l)
    {
      AllCopied(before, cells, m, Behind(v), l);
    }
    IsTheClone(before, cells, v, r, m);
  }

  lemma IsTheClone(before: Cells, cells: Cells, v: Value, r: Value, m: map<Loc, Loc>)
    requires forall l :: l in m <==> l in RefGraph(before) && From(RefGraph(before), Behind(v), l)
    requires forall l :: l in before ==> l in cells && cells[l] == before[l]
    requires forall l :: l in m ==> m[l] !in before && Copied(cells, m, l)
    requires Injective(m) && r == Image(m, v) && (v.Ref? ==> v.loc in m)
    ensures IsClone(before, cells, v, r, m)
  {
  }

  lemma ReachedIsCopied(before: Cells, cells: Cells, u: set<Loc>, v: Value, m: map<Loc, Loc>, l: Loc)
    requires Sound(before, cells, u, m) && NewCopied(before, cells, map[], m, Behind(v), {})
    requires (v.Ref? ==> v.loc in m) && From(RefGraph(before), Behind(v), l)
    ensures l in m
  {
    assert forall a :: a in m ==> a in before && a in cells && cells[a] == before[a];
    assert Behind(v) <= m.Keys;
    hide *;
    forall a, b | a in m && Edge(RefGraph(before), a, b) ensures b in m {
      AllCopied(before, cells, m, Behind(v), a);
      EdgeIsCopied(before, cells, m, a, b);
    }
    ReachedWithin(RefGraph(before), m.Keys, Behind(v), l);
  }

  lemma AllCopied(before: Cells, cells: Cells, m: map<Loc, Loc>, src: set<Loc>, a: Loc)
    requires NewCopied(before, cells, map[], m, src, {}) && a in m
    ensures Copied(cells, m, a) && m[a] !in before && From(RefGraph(before), src, a)
  {
  }

  /** What is reached from a closed set is in it. */
  lemma {:induction false} PathStays(g: Graph<Loc>, s: set<Loc>, p: seq<Loc>)
    requires forall a, b :: a in s && Edge(g, a, b) ==> b in s
    requires IsPath(g, p) && p[0] in s
    ensures p[|p| - 1] in s
    decreases |p|
  {
    if |p| > 1 {
      assert Edge(g, p[0], p[1]);
      var q := p[1..];
      forall j | 0 <= j < |q| - 1 ensures Edge(g, q[j], q[j + 1]) {
        assert Edge(g, p[j + 1], p[j + 2]);
      }
      PathStays(g, s, q);
    }
  }

  lemma ReachedWithin(g: Graph<Loc>, s: set<Loc>, start: set<Loc>, x: Loc)
    requires start <= s && (forall a, b :: a in s && Edge(g, a, b) ==> b in s) && From(g, start, x)
    ensures x in s
  {
    var p :| IsPath(g, p) && p[0] in start && p[|p| - 1] == x;
    PathStays(g, s, p);
  }

  /** Paths of one graph are paths of another that has all edges they can take. */
  lemma SamePaths(g: Graph<Loc>, h: Graph<Loc>, start: set<Loc>, x: Loc)
    requires g.Keys <= h.Keys && From(g, start, x)
    requires forall a, b :: From(g, start, a) && Edge(g, a, b) ==> Edge(h, a, b)
    ensures From(h, start, x)
  {
    var p :| IsPath(g, p) && p[0] in start && p[|p| - 1] == x;
    forall j | 0 <= j < |p| - 1 ensures Edge(h, p[j], p[j + 1]) {
      assert IsPath(g, p[..j + 1]) && p[..j + 1][j] == p[j];
      assert From(g, start, p[j]);
    }
    assert IsPath(h, p);
  }

  // ---------- when the clone is an isomorphic copy ----------

  /** Cells of the heap are well formed and refer to cells of the heap. */
  ghost predicate Whole(cells: Cells) {
    forall l :: l in cells ==>
      CellOk(cells[l]) && forall k :: k in cells[l].slots ==> Within(cells.Keys, cells[l].slots[k])
  }

  ghost function Targets(c: Cell): set<Loc> {
    set k | k in c.slots && c.slots[k].Ref? :: c.slots[k].loc
  }

  /** Which object refers to which by any property at all. */
  ghost function FullGraph(cells: Cells): Graph<Loc> {
    map l | l in cells :: Targets(cells[l])
  }

  ghost predicate SameShape(from: Cell, to: Cell, m: map<Loc, Loc>) {
    && to.isArray == from.isArray && to.length == from.length && to.keys == from.keys
    && forall k :: k in from.slots ==>
         k in to.slots && to.slots[k] == Image(m, from.slots[k]) && (from.slots[k].Ref? ==> from.slots[k].loc in m)
  }

  /** m takes everything reached from v to an equal copy: kinds, lengths, keys and order agree, references
      are mapped along, different objects have different copies, and every copy is new. */
  ghost predicate Isomorphic(before: Cells, cells: Cells, v: Value, r: Value, m: map<Loc, Loc>) {
    && (forall l :: l in m <==> l in before && From(FullGraph(before), Behind(v), l))
    && (forall l :: l in before ==> l in cells && cells[l] == before[l])
    && (forall l :: l in m ==> m[l] in cells && m[l] !in before && SameShape(before[l], cells[m[l]], m))
    && Injective(m) && r == Image(m, v) && (v.Ref? ==> v.loc in m)
  }

  /** An array without holes and without other properties; the result of a regular expression may have the
      two that are taken over, if they are primitives. */
  predicate Faithful(c: Cell) {
    c.isArray ==>
      && c.keys == Indexes(c.length) + Extra(c)
      && (IsResult(c) ==> !ReadSlot(c, INDEX).Ref? && !ReadSlot(c, INPUT).Ref?)
  }

  ghost predicate AllFaithful(before: Cells, v: Value) {
    forall l :: l in before && From(FullGraph(before), Behind(v), l) ==> Faithful(before[l])
  }

  /** The clone is an isomorphic copy of all that is reached from v exactly when every array reached has its
      elements and nothing else. */
  lemma CloneIsomorphicIff(before: Cells, cells: Cells, v: Value, r: Value, m: map<Loc, Loc>)
    requires IsClone(before, cells, v, r, m) && Whole(before)
    ensures (exists m' :: Isomorphic(before, cells, v, r, m')) <==> AllFaithful(before, v)
    ensures AllFaithful(before, v) ==> Isomorphic(before, cells, v, r, m)
  {
    hide *;
    if AllFaithful(before, v) {
      FaithfulIsomorphic(before, cells, v, r, m);
    }
    if m' :| Isomorphic(before, cells, v, r, m') {
      IsomorphicFaithful(before, cells, v, r, m, m');
    }
  }

  // ----- faithful arrays give an isomorphic clone

  lemma FaithfulShape(from: Cell, to: Cell, m: map<Loc, Loc>)
    requires CopyOf(from, to, m) && Faithful(from) && CellOk(from)
    ensures SameShape(from, to, m)
  {
    KeysToWalk(from);
    assert from.keys + [] == from.keys;
    hide KeyCopied, Traversed, Indexes;
    forall k | k in from.slots
      ensures k in to.slots && to.slots[k] == Image(m, from.slots[k]) && (from.slots[k].Ref? ==> from.slots[k].loc in m)
    {
      assert k in from.keys;
      if k in Traversed(from) {
        TraversedCopied(from, to, m, k);
        SlotCopied(from, to, m, k);
      } else {
        ExtraCopied(from, to, m, k);
      }
    }
  }

  lemma SlotCopied(from: Cell, to: Cell, m: map<Loc, Loc>, k: Key)
    requires KeyCopied(from, to, m, k) && k in from.slots
    ensures k in to.slots && to.slots[k] == Image(m, from.slots[k]) && (from.slots[k].Ref? ==> from.slots[k].loc in m)
  {
  }

  lemma ExtraCopied(from: Cell, to: Cell, m: map<Loc, Loc>, k: Key)
    requires CopyOf(from, to, m) && k in Extra(from)
    ensures k in to.slots && to.slots[k] == ReadSlot(from, k)
  {
    var i :| 0 <= i < |Extra(from)| && Extra(from)[i] == k;
  }

  lemma FaithfulEdges(before: Cells, a: Loc, b: Loc)
    requires a in before && CellOk(before[a])
    ensures Edge(RefGraph(before), a, b) ==> Edge(FullGraph(before), a, b)
    ensures Edge(FullGraph(before), a, b) && Faithful(before[a]) ==> Edge(RefGraph(before), a, b)
  {
    var c := before[a];
    hide Indexes;
    KeysToWalk(c);
    assert forall k :: k in c.keys <==> k in c.slots;
    if Edge(FullGraph(before), a, b) && Faithful(c) {
      var k :| k in c.slots && c.slots[k].Ref? && c.slots[k].loc == b;
      assert k in c.keys && k in Traversed(c) && ReadSlot(c, k) == c.slots[k];
    }
  }

  lemma FaithfulIsomorphic(before: Cells, cells: Cells, v: Value, r: Value, m: map<Loc, Loc>)
    requires IsClone(before, cells, v, r, m) && Whole(before) && AllFaithful(before, v)
    ensures Isomorphic(before, cells, v, r, m)
  {
    var h := FullGraph(before);
    hide *;
    CloneFacts(before, cells, v, r, m);
    forall l | l in before ensures l in m <==> From(h, Behind(v), l) {
      SameReach(before, v, l);
    }
    forall l | l in m ensures m[l] in cells && SameShape(before[l], cells[m[l]], m) {
      CopiedCell(cells, m, l);
      FaithfulAt(before, v, l);
      FaithfulShape(before[l], cells[m[l]], m);
    }
    IsTheCopy(before, cells, v, r, m);
  }

  lemma FaithfulAt(before: Cells, v: Value, l: Loc)
    requires Whole(before) && AllFaithful(before, v) && l in before
    ensures CellOk(before[l]) && (From(FullGraph(before), Behind(v), l) ==> Faithful(before[l]))
  {
    hide CellOk, Faithful, From, FullGraph;
  }

  /** Cloning comes to everything there is. */
  lemma SameReach(before: Cells, v: Value, l: Loc)
    requires Whole(before) && AllFaithful(before, v)
    ensures From(RefGraph(before), Behind(v), l) <==> From(FullGraph(before), Behind(v), l)
  {
    var g, h := RefGraph(before), FullGraph(before);
    assert g.Keys == h.Keys == before.Keys;
    hide *;
    forall a, b | a in before
      ensures (Edge(g, a, b) ==> Edge(h, a, b)) && (From(h, Behind(v), a) && Edge(h, a, b) ==> Edge(g, a, b))
    {
      FaithfulAt(before, v, a);
      FaithfulEdges(before, a, b);
    }
    EdgeEnds(g);
    EdgeEnds(h);
    if From(g, Behind(v), l) {
      SamePaths(g, h, Behind(v), l);
    }
    if From(h, Behind(v), l) {
      SamePaths(h, g, Behind(v), l);
    }
  }

  lemma EdgeEnds(g: Graph<Loc>)
    ensures forall a, b :: Edge(g, a, b) ==> a in g
  {
  }

  lemma CloneFacts(before: Cells, cells: Cells, v: Value, r: Value, m: map<Loc, Loc>)
    requires IsClone(before, cells, v, r, m)
    ensures forall l :: l in m <==> l in before && From(RefGraph(before), Behind(v), l)
    ensures forall l :: l in before ==> l in cells && cells[l] == before[l]
    ensures forall l :: l in m ==> l in before && m[l] !in before && Copied(cells, m, l)
    ensures Injective(m) && r == Image(m, v) && (v.Ref? ==> v.loc in m)
  {
    hide From, Copied, Injective, References, Image;
  }

  lemma CopiedCell(cells: Cells, m: map<Loc, Loc>, l: Loc)
    requires Copied(cells, m, l)
    ensures l in m && l in cells && m[l] in cells && CopyOf(cells[l], cells[m[l]], m)
  {
  }

  lemma IsTheCopy(before: Cells, cells: Cells, v: Value, r: Value, m: map<Loc, Loc>)
    requires forall l :: l in m ==> l in before
    requires forall l :: l in before ==> (l in m <==> From(FullGraph(before), Behind(v), l))
    requires forall l :: l in before ==> l in cells && cells[l] == before[l]
    requires forall l :: l in m ==> m[l] in cells && m[l] !in before && SameShape(before[l], cells[m[l]], m)
    requires Injective(m) && r == Image(m, v) && (v.Ref? ==> v.loc in m)
    ensures Isomorphic(before, cells, v, r, m)
  {
    hide From, SameShape, Injective, FullGraph, Image;
  }

  // ----- an isomorphic clone needs faithful arrays

  /** A copy that is an equal copy, too. */
  lemma EqualCopy(home: set<Loc>, from: Cell, to: Cell, m: map<Loc, Loc>, m': map<Loc, Loc>)
    requires CellOk(from) && CopyOf(from, to, m) && SameShape(from, to, m')
    requires forall k :: k in from.slots ==> Within(home, from.slots[k])
    requires forall l :: l in m' ==> m'[l] !in home
    ensures Faithful(from)
    ensures forall k :: k in from.slots && from.slots[k].Ref? ==>
      var l := from.slots[k].loc;
      l in m && l in m' && m[l] == m'[l]
  {
    assert from.keys == Traversed(from) + Extra(from);
    assert forall k :: k in from.keys <==> k in from.slots;
    hide CellOk, Traversed, KeyCopied;
    forall k | k in Extra(from) ensures k in from.slots && !ReadSlot(from, k).Ref? {
      assert k in from.keys;
      ExtraCopied(from, to, m, k);
    }
    forall k | k in from.slots && from.slots[k].Ref?
      ensures from.slots[k].loc in m && from.slots[k].loc in m' && m[from.slots[k].loc] == m'[from.slots[k].loc]
    {
      assert k in from.keys && k !in Extra(from);
      TraversedCopied(from, to, m, k);
      SlotCopied(from, to, m, k);
    }
    KeysToWalk(from);
    if IsResult(from) {
      assert Extra(from)[0] == INDEX && Extra(from)[1] == INPUT;
    }
  }

  lemma IsomorphicFaithful(before: Cells, cells: Cells, v: Value, r: Value, m: map<Loc, Loc>, m': map<Loc, Loc>)
    requires IsClone(before, cells, v, r, m) && Whole(before) && Isomorphic(before, cells, v, r, m')
    ensures AllFaithful(before, v)
  {
    hide *;
    var g := FullGraph(before);
    var s := set l | l in m && l in m' && m[l] == m'[l];
    CloneFacts(before, cells, v, r, m);
    IsomorphicFacts(before, cells, v, r, m');
    BothImages(m, m', v);
    forall a, b | a in s ensures Faithful(before[a]) && (Edge(g, a, b) ==> b in s) {
      BothCopies(before, cells, m, m', a, b);
    }
    forall l | l in before && From(g, Behind(v), l) ensures Faithful(before[l]) {
      ReachedWithin(g, s, Behind(v), l);
    }
    TheseFaithful(before, v);
  }

  lemma BothCopies(before: Cells, cells: Cells, m: map<Loc, Loc>, m': map<Loc, Loc>, a: Loc, b: Loc)
    requires Whole(before) && a in before && a in cells && cells[a] == before[a] && Copied(cells, m, a)
    requires a in m' && m'[a] == m[a] && SameShape(before[a], cells[m[a]], m')
    requires forall l :: l in m' ==> m'[l] !in before
    ensures Faithful(before[a]) && (Edge(FullGraph(before), a, b) ==> b in m && b in m' && m[b] == m'[b])
  {
    hide *;
    CopiedCell(cells, m, a);
    WholeAt(before, a);
    EqualCopy(before.Keys, before[a], cells[m[a]], m, m');
    if Edge(FullGraph(before), a, b) {
      SlotOfEdge(before, a, b);
    }
  }

  lemma TheseFaithful(before: Cells, v: Value)
    requires forall l :: l in before && From(FullGraph(before), Behind(v), l) ==> Faithful(before[l])
    ensures AllFaithful(before, v)
  {
  }

  lemma BothImages(m: map<Loc, Loc>, m': map<Loc, Loc>, v: Value)
    requires Image(m, v) == Image(m', v) && (v.Ref? ==> v.loc in m && v.loc in m')
    ensures forall l :: l in Behind(v) ==> l in m && l in m' && m[l] == m'[l]
  {
  }

  lemma WholeAt(cells: Cells, l: Loc)
    requires Whole(cells) && l in cells
    ensures CellOk(cells[l]) && forall k :: k in cells[l].slots ==> Within(cells.Keys, cells[l].slots[k])
  {
  }

  lemma SlotOfEdge(cells: Cells, a: Loc, b: Loc)
    requires Edge(FullGraph(cells), a, b)
    ensures a in cells && exists k :: k in cells[a].slots && cells[a].slots[k] == Ref(b)
  {
    var k :| k in cells[a].slots && cells[a].slots[k].Ref? && cells[a].slots[k].loc == b;
  }

  lemma IsomorphicFacts(before: Cells, cells: Cells, v: Value, r: Value, m: map<Loc, Loc>)
    requires Isomorphic(before, cells, v, r, m)
    ensures forall l :: l in before ==> l in cells && cells[l] == before[l]
    ensures forall l :: l in m ==>
      l in before && m[l] in cells && m[l] !in before && SameShape(before[l], cells[m[l]], m)
    ensures Injective(m) && r == Image(m, v) && (v.Ref? ==> v.loc in m)
  {
    hide From, SameShape, Injective, Image, FullGraph;
  }

  // ----- the result of a regular expression

  /** Which arrays keep other properties than their elements, and which these are: a clone has an own "index"
      exactly when the array has a first element that is a string and an own "index"; then "index" and
      "input" are what they were. No other name is an own property of an array's clone. */
  lemma IndexAndInput(before: Cells, cells: Cells, v: Value, r: Value, m: map<Loc, Loc>, l: Loc)
    requires IsClone(before, cells, v, r, m) && Whole(before) && l in m && l in before && before[l].isArray
    ensures m[l] in cells
    ensures var c, d := before[l], cells[m[l]];
      && (Name("index") in d.slots <==>
            c.length >= 1 && Index(0) in c.slots && c.slots[Index(0)].Text? && Name("index") in c.slots)
      && (Name("index") in d.slots ==>
            && d.slots[Name("index")] == c.slots[Name("index")] && Name("input") in d.slots
            && d.slots[Name("input")] == if Name("input") in c.slots then c.slots[Name("input")] else Undefined)
      && (forall k :: k in d.slots && k.Name? ==> Name("index") in d.slots && k.s in ["index", "input"])
      && d.length == c.length && forall i: nat :: Index(i) in d.slots <==> i < c.length
  {
    hide *;
    CloneFacts(before, cells, v, r, m);
    CopiedCell(cells, m, l);
    WholeAt(before, l);
    ExtraOf(before[l]);
    TraversedOf(before[l]);
    CopyShape(before[l], cells[m[l]], m);
    forall k
      ensures k in cells[m[l]].slots <==> k in Traversed(before[l]) || k in Extra(before[l])
      ensures k in Extra(before[l]) ==> cells[m[l]].slots[k] == ReadSlot(before[l], k)
    {
      CopiedSlot(before[l], cells[m[l]], m, k);
    }
    SlotRead(before[l], Name("index"));
    SlotRead(before[l], Name("input"));
  }

  lemma SlotRead(c: Cell, k: Key)
    ensures ReadSlot(c, k) == if k in c.slots then c.slots[k] else Undefined
  {
  }

  lemma CopyShape(from: Cell, to: Cell, m: map<Loc, Loc>)
    requires CopyOf(from, to, m)
    ensures to.isArray == from.isArray && to.length == from.length
  {
  }

  lemma TraversedOf(c: Cell)
    requires c.isArray
    ensures forall k :: k in Traversed(c) <==> k.Index? && k.i < c.length
  {
    forall k: Key | k.Index? && k.i < c.length ensures k in Traversed(c) {
      assert Indexes(c.length)[k.i] == k;
    }
  }

  lemma ExtraOf(c: Cell)
    requires c.isArray && CellOk(c)
    ensures forall k :: k in Extra(c) <==>
      && (k == Name("index") || k == Name("input"))
      && c.length >= 1 && Index(0) in c.slots && c.slots[Index(0)].Text? && Name("index") in c.slots
  {
    assert [INDEX, INPUT][0] == INDEX && [INDEX, INPUT][1] == INPUT;
  }

  // ----- two arrays whose clones differ

  lemma RootCopy(before: Cells, cells: Cells, v: Value, r: Value, m: map<Loc, Loc>)
    requires IsClone(before, cells, v, r, m) && v.Ref? && v.loc in before
    ensures r.Ref? && r.loc in cells && CopyOf(before[v.loc], cells[r.loc], m)
    ensures forall m' :: Isomorphic(before, cells, v, r, m') ==> cells[r.loc].keys == before[v.loc].keys
  {
    hide From, CopyOf, Injective;
    assert Copied(cells, m, v.loc);
  }

  /** [ , 7] becomes [undefined, 7]. */
  lemma HoleIsFilled(before: Cells, cells: Cells, r: Value, m: map<Loc, Loc>)
    requires before == map[0 := Cell(true, 2, [Index(1)], map[Index(1) := Number(7)])]
    requires IsClone(before, cells, Ref(0), r, m)
    ensures Whole(before) && r.Ref? && r.loc in cells
    ensures cells[r.loc].keys == [Index(0), Index(1)] && cells[r.loc].slots[Index(0)] == Undefined
    ensures forall m' :: !Isomorphic(before, cells, Ref(0), r, m')
  {
    hide IsClone, Isomorphic;
    RootCopy(before, cells, Ref(0), r, m);
    var c, to := before[0], cells[r.loc];
    assert Indexes(2) == [Index(0), Index(1)];
    assert to.keys == Indexes(2) + [];
    TraversedCopied(c, to, m, Traversed(c)[0]);
    assert CellOk(c);
  }

  /** a = [1] with a.name = {} loses its name. */
  lemma NameIsLost(before: Cells, cells: Cells, r: Value, m: map<Loc, Loc>)
    requires before == map[
      0 := Cell(true, 1, [Index(0), Name("name")], map[Index(0) := Number(1), Name("name") := Ref(1)]),
      1 := Cell(false, 0, [], map[])]
    requires IsClone(before, cells, Ref(0), r, m)
    ensures Whole(before) && r.Ref? && r.loc in cells && cells[r.loc].keys == [Index(0)]
    ensures forall m' :: !Isomorphic(before, cells, Ref(0), r, m')
  {
    hide IsClone, Isomorphic;
    RootCopy(before, cells, Ref(0), r, m);
    var c, to := before[0], cells[r.loc];
    assert Indexes(1) == [Index(0)];
    assert to.keys == Indexes(1) + [];
    hide CopyOf;
    assert CellOk(c) && CellOk(before[1]);
  }

  // ---------- what a reader of the clone sees ----------

  datatype Reading = Absent | Found(value: Value)

  /** Following property accesses from v. */
  function Read(cells: Cells, v: Value, path: seq<Key>): Reading
    decreases |path|
  {
    if path == [] then Found(v)
    else if v.Ref? && v.loc in cells && path[0] in cells[v.loc].slots then
      Read(cells, cells[v.loc].slots[path[0]], path[1..])
    else Absent
  }

  /** What the same accesses come to in the clone: nothing, the copy of a value, or an original value. */
  datatype Outcome = Nothing | CopyMade(value: Value) | Original(value: Value)

  function Expected(cells: Cells, v: Value, path: seq<Key>): Outcome
    decreases |path|
  {
    if path == [] then CopyMade(v)
    else if v.Ref? && v.loc in cells then
      var c, k := cells[v.loc], path[0];
      if k in Traversed(c) then Expected(cells, ReadSlot(c, k), path[1..])
      else if k in Extra(c) then
        match Read(cells, ReadSlot(c, k), path[1..])
        case Absent => Nothing
        case Found(x) => Original(x)
      else Nothing
    else Nothing
  }

  lemma CopiedSlot(from: Cell, to: Cell, m: map<Loc, Loc>, k: Key)
    requires CopyOf(from, to, m)
    ensures k in to.slots <==> k in Traversed(from) || k in Extra(from)
    ensures k in Traversed(from) ==>
      to.slots[k] == Image(m, ReadSlot(from, k)) && (ReadSlot(from, k).Ref? ==> ReadSlot(from, k).loc in m)
    ensures k in Extra(from) ==> to.slots[k] == ReadSlot(from, k)
  {
    assert forall x :: x in to.keys <==> x in to.slots;
    hide CellOk, Traversed, Extra, ReadSlot, Image;
    if k in Traversed(from) {
      TraversedCopied(from, to, m, k);
    }
    if k in Extra(from) {
      ExtraCopied(from, to, m, k);
    }
  }

  lemma {:induction false} OriginalReads(before: Cells, cells: Cells, v: Value, path: seq<Key>)
    requires Whole(before) && Within(before.Keys, v) && forall l :: l in before ==> l in cells && cells[l] == before[l]
    ensures Read(cells, v, path) == Read(before, v, path)
    decreases |path|
  {
    if path != [] && v.Ref? && path[0] in before[v.loc].slots {
      OriginalReads(before, cells, before[v.loc].slots[path[0]], path[1..]);
    }
  }

  lemma {:induction false} ImageReads(before: Cells, cells: Cells, m: map<Loc, Loc>, v: Value, path: seq<Key>)
    requires Whole(before) && forall l :: l in before ==> l in cells && cells[l] == before[l]
    requires forall l :: l in m ==> l in before && m[l] !in before && Copied(cells, m, l)
    requires v.Ref? ==> v.loc in m
    ensures match Expected(before, v, path)
            case Nothing => Read(cells, Image(m, v), path) == Absent
            case CopyMade(x) =>
              && Read(cells, Image(m, v), path) == Found(Image(m, x))
              && (x.Ref? ==> x.loc in m && m[x.loc] !in before)
            case Original(x) => Read(cells, Image(m, v), path) == Found(x) && Within(before.Keys, x)
    decreases |path|
  {
    if path != [] && v.Ref? {
      var c, to, k := before[v.loc], cells[m[v.loc]], path[0];
      CopiedCell(cells, m, v.loc);
      CopiedSlot(c, to, m, k);
      hide Copied, CopyOf, CellOk, Traversed, Extra;
      if k in Traversed(c) {
        ImageReads(before, cells, m, ReadSlot(c, k), path[1..]);
      } else if k in Extra(c) {
        SlotWithin(before, v.loc, k);
        OriginalReads(before, cells, ReadSlot(c, k), path[1..]);
        ReadWithin(before, ReadSlot(c, k), path[1..]);
      }
    }
  }

  lemma SlotWithin(cells: Cells, l: Loc, k: Key)
    requires Whole(cells) && l in cells
    ensures Within(cells.Keys, ReadSlot(cells[l], k))
  {
  }

  lemma {:induction false} ReadWithin(cells: Cells, v: Value, path: seq<Key>)
    requires Whole(cells) && Within(cells.Keys, v)
    ensures var x := Read(cells, v, path); x.Found? ==> Within(cells.Keys, x.value)
    decreases |path|
  {
    if path != [] && v.Ref? && path[0] in cells[v.loc].slots {
      ReadWithin(cells, cells[v.loc].slots[path[0]], path[1..]);
    }
  }

  /** What every access path reads in the clone, holes and other properties of arrays included. An object
      read there is a copy, unless the path goes through an index or input that is taken over. */
  lemma CloneReads(before: Cells, cells: Cells, v: Value, r: Value, m: map<Loc, Loc>, path: seq<Key>)
    requires IsClone(before, cells, v, r, m) && Whole(before)
    ensures match Expected(before, v, path)
            case Nothing => Read(cells, r, path) == Absent
            case CopyMade(x) =>
              && Read(cells, r, path) == Found(Image(m, x))
              && (x.Ref? ==> x.loc in m && m[x.loc] !in before)
            case Original(x) => Read(cells, r, path) == Found(x) && Within(before.Keys, x)
  {
    hide *;
    CloneFacts(before, cells, v, r, m);
    ImageReads(before, cells, m, v, path);
  }

  /** Two paths that are copied meet in the same object of the clone exactly when they do in the original. */
  lemma SharingKept(before: Cells, cells: Cells, v: Value, r: Value, m: map<Loc, Loc>, p: seq<Key>, q: seq<Key>)
    requires IsClone(before, cells, v, r, m) && Whole(before)
    requires Expected(before, v, p).CopyMade? && Expected(before, v, p).value.Ref?
    requires Expected(before, v, q).CopyMade? && Expected(before, v, q).value.Ref?
    ensures Read(cells, r, p) == Read(cells, r, q) <==> Expected(before, v, p) == Expected(before, v, q)
  {
    CloneFacts(before, cells, v, r, m);
    CloneReads(before, cells, v, r, m, p);
    CloneReads(before, cells, v, r, m, q);
    hide IsClone, Copied, Read, Expected, Whole;
  }

  lemma {:induction false} EqualReads(before: Cells, cells: Cells, m: map<Loc, Loc>, v: Value, path: seq<Key>)
    requires forall l :: l in m ==>
      l in before && m[l] in cells && m[l] !in before && SameShape(before[l], cells[m[l]], m)
    requires (forall l :: l in before ==> CellOk(before[l])) && (forall l :: l in m ==> CellOk(cells[m[l]]))
    requires v.Ref? ==> v.loc in m
    ensures match Read(before, v, path)
            case Absent => Read(cells, Image(m, v), path) == Absent
            case Found(x) =>
              && Read(cells, Image(m, v), path) == Found(Image(m, x))
              && (x.Ref? ==> x.loc in m && m[x.loc] !in before)
    decreases |path|
  {
    if path != [] && v.Ref? {
      var c, to, k := before[v.loc], cells[m[v.loc]], path[0];
      assert k in c.keys <==> k in to.keys;
      assert k in c.slots <==> k in to.slots;
      if k in c.slots {
        hide CellOk;
        EqualReads(before, cells, m, c.slots[k], path[1..]);
      }
    }
  }

  /** In an isomorphic clone every access path reads the image of what it reads in the original; objects
      read there are copies, never originals. */
  lemma CloneReadsAlike(before: Cells, cells: Cells, v: Value, r: Value, m: map<Loc, Loc>, path: seq<Key>)
    requires IsClone(before, cells, v, r, m) && Whole(before) && AllFaithful(before, v)
    ensures match Read(before, v, path)
            case Absent => Read(cells, r, path) == Absent
            case Found(x) =>
              && Read(cells, r, path) == Found(Image(m, x))
              && (x.Ref? ==> x.loc in m && m[x.loc] !in before)
  {
    hide *;
    FaithfulIsomorphic(before, cells, v, r, m);
    IsomorphicFacts(before, cells, v, r, m);
    CloneFacts(before, cells, v, r, m);
    forall l | l in m ensures CellOk(cells[m[l]]) {
      CopiedCell(cells, m, l);
      CopyIsOk(before[l], cells[m[l]], m);
    }
    forall l | l in before ensures CellOk(before[l]) {
      WholeAt(before, l);
    }
    EqualReads(before, cells, m, v, path);
  }

  lemma CopyIsOk(from: Cell, to: Cell, m: map<Loc, Loc>)
    requires CopyOf(from, to, m)
    ensures CellOk(to)
  {
  }
}
