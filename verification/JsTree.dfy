/** JSON-like values as trees, and the recursive deep merge on them. A node carries the location
    it has on a heap; in a pure value every location is 0. */
module JsTree {
  import opened Common
  import opened JsHeap

  datatype Tree = Leaf(v: Value) | Node(loc: Loc, isArray: bool, fields: seq<Field>)

  datatype Field = Field(key: Key, value: Tree)

  const PROTO := Name("__proto__")
  const MAX_LENGTH := 0x1F_FFFF_FFFF_FFFF

  // ---------- fields ----------

  function KeysOf(fs: seq<Field>): (ks: seq<Key>)
    ensures |ks| == |fs| && forall i :: 0 <= i < |fs| ==> ks[i] == fs[i].key
  {
    seq(|fs|, i requires 0 <= i < |fs| => fs[i].key)
  }

  /** The position of k, or |fs|. */
  function Find(fs: seq<Field>, k: Key): (i: nat)
    ensures i <= |fs| && (i < |fs| ==> fs[i].key == k) && forall j :: 0 <= j < i ==> fs[j].key != k
  {
    if fs == [] || fs[0].key == k then 0 else 1 + Find(fs[1..], k)
  }

  predicate Has(fs: seq<Field>, k: Key) {
    Find(fs, k) < |fs|
  }

  /** t[k], undefined when absent. */
  function Get(fs: seq<Field>, k: Key): (t: Tree)
    ensures t == Leaf(Undefined) || t < Node(0, false, fs)
  {
    if Has(fs, k) then fs[Find(fs, k)].value else Leaf(Undefined)
  }

  function SetField(fs: seq<Field>, k: Key, t: Tree): seq<Field> {
    if Has(fs, k) then fs[Find(fs, k) := Field(k, t)] else fs + [Field(k, t)]
  }

  lemma FindAt(fs: seq<Field>, i: nat)
    requires NoDup(KeysOf(fs)) && i < |fs|
    ensures Find(fs, fs[i].key) == i
  {
    var j := Find(fs, fs[i].key);
    assert j <= i && KeysOf(fs)[j] == KeysOf(fs)[i];
  }

  // ---------- the merge ----------

  /** A plain object with a valid length counts as array-like. */
  predicate ArrayLike(t: Tree) {
    && t.Node? && !t.isArray && Get(t.fields, Name("length")).Leaf?
    && Get(t.fields, Name("length")).v.Number?
    && 0 <= Get(t.fields, Name("length")).v.n <= MAX_LENGTH
  }

  function Elements(fs: seq<Field>, n: nat): seq<Field> {
    seq(n, i requires 0 <= i < n => Field(Index(i), Get(fs, Index(i))))
  }

  /** What an object-valued source property is merged into, given the destination's value. */
  function BaseFor(a: Tree, isArray: bool): (t: Tree)
    ensures t.Node?
  {
    if isArray then
      if a.Node? && a.isArray then a
      else if ArrayLike(a) then Node(0, true, Elements(a.fields, Get(a.fields, Name("length")).v.n))
      else Node(0, true, [])
    else if a.Node? then a else Node(0, false, [])
  }

  /** assignMergeValue: undefined never replaces a present property, and every object has "__proto__". */
  function AssignMerge(d: Tree, k: Key, v: Tree): (t: Tree)
    requires d.Node?
    ensures t.Node?
  {
    if v == Leaf(Undefined) && (Has(d.fields, k) || k == PROTO) then d else d.(fields := SetField(d.fields, k, v))
  }

  function MergeValue(a: Tree, f: Tree): Tree
    decreases f, 1
  {
    match f
    case Leaf(v) => f
    case Node(_, isArray, fs) => MergeFields(BaseFor(a, isArray), fs)
  }

  function MergeFields(d: Tree, fs: seq<Field>): (t: Tree)
    requires d.Node?
    ensures t.Node?
    decreases fs, 0
  {
    if fs == [] then d else MergeFields(MergeField(d, fs[0]), fs[1..])
  }

  function MergeField(d: Tree, f: Field): (t: Tree)
    requires d.Node?
    ensures t.Node?
    decreases f
  {
    if f.key == PROTO && f.value.Node? then d
    else AssignMerge(d, f.key, MergeValue(Get(d.fields, f.key), f.value))
  }

  /** merge(d, s) for two objects. */
  function DeepMerge(d: Tree, s: Tree): Tree
    requires d.Node? && s.Node?
  {
    MergeFields(d, s.fields)
  }

  // ---------- what the merge gives ----------

  /** No key occurs twice in an object. */
  ghost predicate Tidy(t: Tree)
    decreases t, 1
  {
    match t
    case Leaf(_) => true
    case Node(_, _, fs) => NoDup(KeysOf(fs)) && forall i :: 0 <= i < |fs| ==> TidyField(fs[i])
  }

  ghost predicate TidyField(f: Field)
    decreases f, 0
  {
    Tidy(f.value)
  }

  lemma GetAfter(fs: seq<Field>, k: Key, t: Tree, x: Key)
    ensures Has(SetField(fs, k, t), x) <==> Has(fs, x) || x == k
    ensures Get(SetField(fs, k, t), x) == if x == k then t else Get(fs, x)
  {
    FindAfter(fs, k, t, x);
  }

  lemma {:induction false} FindAfter(fs: seq<Field>, k: Key, t: Tree, x: Key)
    ensures Find(SetField(fs, k, t), x) ==
      if x == k && !Has(fs, k) then |fs|
      else if !Has(fs, x) && !Has(fs, k) then |fs| + 1
      else Find(fs, x)
  {
    if fs != [] && fs[0].key != k {
      FindAfter(fs[1..], k, t, x);
      assert SetField(fs, k, t)[1..] == SetField(fs[1..], k, t);
    }
  }

  /** Whether a source property says nothing: an object under "__proto__", or undefined for a property
      that is there. */
  predicate Ignored(d: Tree, f: Field)
    requires d.Node?
  {
    || (f.key == PROTO && f.value.Node?)
    || (f.value == Leaf(Undefined) && (Has(d.fields, f.key) || f.key == PROTO))
  }

  lemma MergeFieldIs(d: Tree, f: Field)
    requires d.Node?
    ensures var r := MergeField(d, f);
      && r.Node? && r.isArray == d.isArray && r.loc == d.loc
      && (Ignored(d, f) ==> r == d)
      && (!Ignored(d, f) ==> r.fields == SetField(d.fields, f.key, MergeValue(Get(d.fields, f.key), f.value)))
  {
    if f.value.Node? {
      MergeKind(BaseFor(Get(d.fields, f.key), f.value.isArray), f.value.fields);
    }
  }

  lemma {:induction false} MergeKind(d: Tree, fs: seq<Field>)
    requires d.Node?
    ensures MergeFields(d, fs).isArray == d.isArray && MergeFields(d, fs).loc == d.loc
    decreases |fs|
  {
    if fs != [] {
      MergeKind(MergeField(d, fs[0]), fs[1..]);
    }
  }

  /** What stands under k after a merge: the merge of both values where the source has k and says
      something, and the destination's own value otherwise. */
  ghost predicate MergedAt(d: Tree, fs: seq<Field>, r: Tree, k: Key)
    requires d.Node? && r.Node?
  {
    if Has(fs, k) && !Ignored(d, fs[Find(fs, k)]) then
      Has(r.fields, k) && Get(r.fields, k) == MergeValue(Get(d.fields, k), Get(fs, k))
    else
      Get(r.fields, k) == Get(d.fields, k) && (Has(r.fields, k) <==> Has(d.fields, k))
  }

  lemma {:induction false} MergeLookup(d: Tree, fs: seq<Field>, k: Key)
    requires d.Node? && NoDup(KeysOf(fs))
    ensures MergedAt(d, fs, MergeFields(d, fs), k)
    decreases |fs|
  {
    if fs != [] {
      MergeFieldIs(d, fs[0]);
      GetAfter(d.fields, fs[0].key, MergeValue(Get(d.fields, fs[0].key), fs[0].value), k);
      HeadOnce(fs, k);
      FindRest(fs, k);
      hide *;
      MergeLookup(MergeField(d, fs[0]), fs[1..], k);
      FirstField(d, fs);
      MergedOneMore(d, fs, fs[0], fs[1..], MergeField(d, fs[0]), MergeFields(d, fs), k);
    }
  }

  lemma HeadOnce(fs: seq<Field>, k: Key)
    requires fs != [] && NoDup(KeysOf(fs))
    ensures NoDup(KeysOf(fs[1..])) && !(k == fs[0].key && Has(fs[1..], k))
  {
    assert KeysOf(fs[1..]) == KeysOf(fs)[1..];
    var j := Find(fs[1..], k);
    assert j < |fs[1..]| ==> KeysOf(fs)[1 + j] == k;
  }

  lemma MergedOneMore(d: Tree, fs: seq<Field>, f: Field, rest: seq<Field>, d': Tree, r: Tree, k: Key)
    requires d.Node? && d'.Node? && r.Node? && MergedAt(d', rest, r, k)
    requires k == f.key ==> !Has(rest, k) && Has(fs, k) && fs[Find(fs, k)] == f
    requires k != f.key ==> (Has(fs, k) <==> Has(rest, k))
    requires k != f.key && Has(rest, k) ==> fs[Find(fs, k)] == rest[Find(rest, k)]
    requires Ignored(d, f) ==> d' == d
    requires !Ignored(d, f) && k == f.key ==>
      Has(d'.fields, k) && Get(d'.fields, k) == MergeValue(Get(d.fields, k), f.value)
    requires !Ignored(d, f) && k != f.key ==>
      (Has(d'.fields, k) <==> Has(d.fields, k)) && Get(d'.fields, k) == Get(d.fields, k)
    ensures MergedAt(d, fs, r, k)
  {
    hide MergeValue, Find;
  }

  lemma FirstField(d: Tree, fs: seq<Field>)
    requires d.Node? && fs != []
    ensures MergeFields(d, fs) == MergeFields(MergeField(d, fs[0]), fs[1..])
  {
  }

  lemma FindRest(fs: seq<Field>, k: Key)
    requires fs != []
    ensures fs[0].key == k ==> Has(fs, k) && fs[Find(fs, k)] == fs[0]
    ensures fs[0].key != k ==> (Has(fs, k) <==> Has(fs[1..], k))
    ensures fs[0].key != k && Has(fs, k) ==> fs[Find(fs, k)] == fs[1..][Find(fs[1..], k)]
  {
  }

  /** merge(d, s) property by property. */
  lemma DeepMergeLookup(d: Tree, s: Tree, k: Key)
    requires d.Node? && s.Node? && Tidy(s)
    ensures MergedAt(d, s.fields, DeepMerge(d, s), k)
    ensures DeepMerge(d, s).isArray == d.isArray
  {
    MergeLookup(d, s.fields, k);
    MergeKind(d, s.fields);
  }

  /** What a property of an object merged over the value a starts from: a's own, if a is an object, or an array
      in case an array is merged; an element of an array-like a below its length, in that case; else nothing. */
  ghost function StartOf(a: Tree, isArray: bool, k: Key): Option<Tree> {
    match a
    case Leaf(_) => None
    case Node(_, isArrayToo, fs) =>
      if !isArray || isArrayToo then if Has(fs, k) then Some(Get(fs, k)) else None
      else
        match Get(fs, Name("length"))
        case Leaf(Number(n)) => if k.Index? && k.i < n <= 9007199254740991 then Some(Get(fs, k)) else None
        case _ => None
  }

  /** The merge of any two values. A primitive replaces what was there. Of an object, each property is merged into
      what it starts from, unless it is undefined where there is something, or stands under "__proto__". */
  lemma MergeValueLookup(a: Tree, f: Tree, k: Key)
    requires Tidy(f)
    ensures f.Leaf? ==> MergeValue(a, f) == f
    ensures f.Node? ==>
      var r, start, b := MergeValue(a, f), StartOf(a, f.isArray, k), Get(f.fields, k);
      && r.Node? && (r.isArray <==> f.isArray || (a.Node? && a.isArray))
      && if || !Has(f.fields, k) || (b == Leaf(Undefined) && (start.Some? || k == Name("__proto__")))
            || (b.Node? && k == Name("__proto__"))
         then
           (Has(r.fields, k) <==> start.Some?) && Get(r.fields, k) == start.GetOr(Leaf(Undefined))
         else
           Has(r.fields, k) && Get(r.fields, k) == MergeValue(start.GetOr(Leaf(Undefined)), b)
  {
    if f.Node? {
      var base := BaseFor(a, f.isArray);
      MergeLookup(base, f.fields, k);
      MergeKind(base, f.fields);
      BaseStarts(a, f.isArray, k);
      hide BaseFor, ArrayLike, Elements, StartOf, MergeFields;
      assert MergeValue(a, f) == MergeFields(base, f.fields);
    }
  }

  lemma BaseStarts(a: Tree, isArray: bool, k: Key)
    ensures var base, start := BaseFor(a, isArray), StartOf(a, isArray, k);
      && base.isArray == (isArray || (a.Node? && a.isArray))
      && (Has(base.fields, k) <==> start.Some?) && Get(base.fields, k) == start.GetOr(Leaf(Undefined))
  {
    if ArrayLike(a) && isArray {
      ElementAt(a.fields, Get(a.fields, Name("length")).v.n, k);
    }
  }

  lemma ElementAt(fs: seq<Field>, n: nat, k: Key)
    ensures Has(Elements(fs, n), k) <==> k.Index? && k.i < n
    ensures Has(Elements(fs, n), k) ==> Get(Elements(fs, n), k) == Get(fs, k)
  {
    var es := Elements(fs, n);
    if k.Index? && k.i < n {
      assert es[k.i].key == k;
    }
  }

  /** Merging fields that change nothing. */
  lemma {:induction false} NothingToMerge(d: Tree, fs: seq<Field>)
    requires d.Node? && forall i :: 0 <= i < |fs| ==> MergeField(d, fs[i]) == d
    ensures MergeFields(d, fs) == d
    decreases |fs|
  {
    if fs != [] {
      assert MergeField(d, fs[0]) == d;
      var rest := fs[1..];
      assert forall i :: 0 <= i < |rest| ==> rest[i] == fs[i + 1];
      NothingToMerge(d, rest);
    }
  }

  lemma SetUnchangedIff(d: Tree, k: Key, t: Tree)
    requires d.Node?
    ensures d.(fields := SetField(d.fields, k, t)) == d <==> Has(d.fields, k) && Get(d.fields, k) == t
  {
    GetAfter(d.fields, k, t, k);
    if Has(d.fields, k) && Get(d.fields, k) == t {
      assert d.fields[Find(d.fields, k) := Field(k, t)] == d.fields;
    }
  }

  /** A merge changes nothing exactly when none of its fields does. */
  lemma UnchangedIff(d: Tree, fs: seq<Field>)
    requires d.Node? && NoDup(KeysOf(fs))
    ensures MergeFields(d, fs) == d <==> forall i :: 0 <= i < |fs| ==> MergeField(d, fs[i]) == d
  {
    if forall i :: 0 <= i < |fs| ==> MergeField(d, fs[i]) == d {
      NothingToMerge(d, fs);
    }
    if MergeFields(d, fs) == d {
      forall i | 0 <= i < |fs| ensures MergeField(d, fs[i]) == d {
        var k := fs[i].key;
        FindAt(fs, i);
        MergeLookup(d, fs, k);
        MergeFieldIs(d, fs[i]);
        SetUnchangedIff(d, k, MergeValue(Get(d.fields, k), fs[i].value));
      }
    }
  }

  /** A value merged into itself. */
  lemma {:induction false} MergeSelf(t: Tree)
    requires t.Node? && Tidy(t)
    ensures DeepMerge(t, t) == t
    decreases t
  {
    var fs := t.fields;
    forall i | 0 <= i < |fs| ensures MergeField(t, fs[i]) == t {
      var f := fs[i];
      FindAt(fs, i);
      assert TidyField(f);
      if f.value.Node? {
        MergeSelf(f.value);
      }
      assert MergeValue(f.value, f.value) == f.value;
      assert fs[i := f] == fs;
    }
    NothingToMerge(t, fs);
  }

  /** Merging the same source again changes nothing. */
  lemma {:induction false} MergeTwice(d: Tree, s: Tree)
    requires d.Node? && s.Node? && Tidy(s)
    ensures DeepMerge(DeepMerge(d, s), s) == DeepMerge(d, s)
    decreases s
  {
    var fs, r := s.fields, DeepMerge(d, s);
    forall i | 0 <= i < |fs| ensures MergeField(r, fs[i]) == r {
      var f := fs[i];
      assert TidyField(f);
      FindAt(fs, i);
      MergeLookup(d, fs, f.key);
      if f.value.Node? && f.key != PROTO {
        var b := BaseFor(Get(d.fields, f.key), f.value.isArray);
        MergeTwice(b, f.value);
        MergeKind(b, f.value.fields);
      }
      FieldAgain(d, r, f);
    }
    NothingToMerge(r, fs);
  }

  lemma FieldAgain(d: Tree, r: Tree, f: Field)
    requires d.Node? && r.Node? && MergedAt(d, [f], r, f.key)
    requires f.value.Node? && f.key != PROTO ==>
      var v := MergeValue(Get(d.fields, f.key), f.value);
      && v.Node? && (f.value.isArray ==> v.isArray) && DeepMerge(v, f.value) == v
    ensures MergeField(r, f) == r
  {
    MergeFieldIs(r, f);
    if !Ignored(r, f) {
      assert r.fields[Find(r.fields, f.key) := Field(f.key, Get(r.fields, f.key))] == r.fields;
    }
  }
}
