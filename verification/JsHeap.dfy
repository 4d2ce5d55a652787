/** Arrays and plain objects of JavaScript as cells on a heap that methods update in place. */
module JsHeap {
  import opened Common

  type Loc = nat

  /** Array indexes, and property names that are no array index. */
  datatype Key = Index(i: nat) | Name(s: string)

  datatype Value = Undefined | Null | Bool(b: bool) | Number(n: int) | Text(s: string) | Ref(loc: Loc)

  /** keys are the own enumerable keys in iteration order. An index below the length of an array that is
      no key is a hole; the length of an object is 0. */
  datatype Cell = Cell(isArray: bool, length: nat, keys: seq<Key>, slots: map<Key, Value>)

  type Cells = map<Loc, Cell>

  /** The key list, the slots and the length agree. */
  ghost predicate CellOk(c: Cell) {
    && NoDup(c.keys) && (forall k :: k in c.keys <==> k in c.slots)
    && (if c.isArray then forall k :: k in c.slots && k.Index? ==> k.i < c.length else c.length == 0)
  }

  /** c[k], undefined when absent. */
  function ReadSlot(c: Cell, k: Key): Value {
    if k in c.slots then c.slots[k] else Undefined
  }

  function Assign(c: Cell, k: Key, v: Value): Cell {
    if k in c.slots then c.(slots := c.slots[k := v])
    else
      var length := if c.isArray && k.Index? && k.i >= c.length then k.i + 1 else c.length;
      Cell(c.isArray, length, c.keys + [k], c.slots[k := v])
  }

  lemma AssignOk(c: Cell, k: Key, v: Value)
    requires CellOk(c)
    ensures CellOk(Assign(c, k, v))
  {
  }

  /** The indexes below n. */
  function Indexes(n: nat): (ks: seq<Key>)
    ensures |ks| == n && forall i :: 0 <= i < n ==> ks[i] == Index(i)
  {
    seq(n, i requires 0 <= i < n => Index(i))
  }

  class Heap {
    var cells: Cells
    var next: Loc

    ghost predicate Valid()
      reads this
    {
      && (forall l :: l in cells ==> l < next)
      && (forall l :: l in cells ==> CellOk(cells[l]))
    }

    constructor ()
      ensures Valid() && cells == map[]
    {
      cells, next := map[], 0;
    }

    /** A new, empty array of some length, or a new object. */
    method Alloc(isArray: bool, length: nat) returns (l: Loc)
      requires Valid() && (!isArray ==> length == 0)
      modifies this
      ensures Valid() && l !in old(cells) && l == old(next) && next == l + 1
      ensures cells == old(cells)[l := Cell(isArray, length, [], map[])]
    {
      l := next;
      cells := cells[l := Cell(isArray, length, [], map[])];
      next := next + 1;
    }

    /** t[k] = v */
    method Put(l: Loc, k: Key, v: Value)
      requires Valid() && l in cells
      modifies this`cells
      ensures Valid() && cells == old(cells)[l := Assign(old(cells)[l], k, v)]
    {
      AssignOk(cells[l], k, v);
      cells := cells[l := Assign(cells[l], k, v)];
    }
  }
}
