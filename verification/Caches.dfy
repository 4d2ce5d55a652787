/** The cache classes of lodash, updated in place, and the capped memoization built on them. */
module Caches {
  import opened Common
  import opened JsHeap
  import opened CacheSpec

  /** A Hash: properties of an object without prototype. */
  class Hash {
    var data: map<string, Value>
    var size: int

    ghost predicate Valid()
      reads this
    {
      size == |data| && forall p :: p in data ==> data[p] != Undefined
    }

    constructor ()
      ensures Valid() && data == map[]
    {
      data, size := map[], 0;
    }

    method Clear()
      modifies this
      ensures Valid() && data == map[]
    {
      data, size := map[], 0;
    }

    method Has(k: Value) returns (r: bool)
      requires Valid()
      ensures r <==> PropertyName(k) in data
    {
      r := (if PropertyName(k) in data then data[PropertyName(k)] else Undefined) != Undefined;
    }

    method Get(k: Value) returns (v: Value)
      requires Valid()
      ensures v == if PropertyName(k) !in data || data[PropertyName(k)] == SENTINEL then Undefined
        else data[PropertyName(k)]
    {
      v := if PropertyName(k) in data then data[PropertyName(k)] else Undefined;
      if v == SENTINEL {
        v := Undefined;
      }
    }

    method Set(k: Value, v: Value)
      requires Valid()
      modifies this
      ensures Valid() && data == old(data)[PropertyName(k) := Marked(v)]
    {
      var has := Has(k);
      size := size + if has then 0 else 1;
      SetSize(data, PropertyName(k), Marked(v));
      data := data[PropertyName(k) := Marked(v)];
    }

    method Delete(k: Value) returns (r: bool)
      requires Valid()
      modifies this
      ensures Valid() && data == old(data) - {PropertyName(k)} && (r <==> PropertyName(k) in old(data))
    {
      r := Has(k);
      SetSize(data - {PropertyName(k)}, PropertyName(k), Undefined);
      if r {
        assert data == (data - {PropertyName(k)})[PropertyName(k) := data[PropertyName(k)]];
        data := data - {PropertyName(k)};
      } else {
        assert data - {PropertyName(k)} == data;
      }
      size := size - if r then 1 else 0;
    }
  }

  lemma SetSize<K, V>(m: map<K, V>, k: K, v: V)
    ensures |m[k := v]| == |m| + if k in m then 0 else 1
  {
    assert m[k := v].Keys == m.Keys + {k};
    assert |m[k := v]| == |m[k := v].Keys| && |m| == |m.Keys|;
  }

  /** A ListCache: pairs, the last one of a key counting. */
  class ListCache {
    var data: seq<Pair>
    var size: int

    ghost predicate Valid()
      reads this
    {
      size == |data|
    }

    constructor ()
      ensures Valid() && data == []
    {
      data, size := [], 0;
    }

    /** assocIndexOf, from the end. */
    method IndexOf(k: Value) returns (n: int)
      ensures n == Last(data, k)
    {
      n := |data|;
      while n > 0
        invariant 0 <= n <= |data| && Last(data, k) == LastAt(data, k, n)
      {
        n := n - 1;
        if data[n].key == k {
          return;
        }
      }
      n := -1;
    }

    method Has(k: Value) returns (r: bool)
      ensures r <==> Lookup(Small(data), k).Some?
    {
      var n := IndexOf(k);
      r := -1 < n;
    }

    method Get(k: Value) returns (v: Value)
      ensures v == match Lookup(Small(data), k) case None => Undefined case Some(x) => x
    {
      var n := IndexOf(k);
      v := if n < 0 then Undefined else data[n].value;
    }

    method Delete(k: Value) returns (r: bool)
      requires Valid()
      modifies this
      ensures Valid() && Small(data) == RemoveStore(Small(old(data)), k) && (r <==> Lookup(Small(old(data)), k).Some?)
    {
      var n := IndexOf(k);
      if n < 0 {
        return false;
      }
      if n == |data| - 1 {
        data := data[..n];
      } else {
        data := data[..n] + data[n + 1..];
      }
      size := size - 1;
      r := true;
    }

    /** Replaces the last pair of k, or adds one. */
    method Set(k: Value, v: Value)
      requires Valid()
      modifies this
      ensures Valid()
      ensures data == if Last(old(data), k) < 0 then old(data) + [Pair(k, v)]
        else old(data)[Last(old(data), k) := Pair(k, v)]
    {
      var n := IndexOf(k);
      if n < 0 {
        size := size + 1;
        data := data + [Pair(k, v)];
      } else {
        data := data[n := Pair(data[n].key, v)];
      }
    }
  }

  /** A MapCache: a Hash for strings, one for other primitives, and a Map for everything else. */
  class MapCache {
    var hash: Hash
    var text: Hash
    var other: map<Value, Value>
    var size: int
    /** What lookups find. */
    ghost var view: map<Value, Value>

    ghost predicate Valid()
      reads this, hash, text
    {
      && hash.Valid() && text.Valid() && hash != text
      && size == |view|
      && Linked(Buckets(hash.data, text.data, other), view)
    }

    constructor ()
      ensures Valid() && fresh(hash) && fresh(text) && view == map[]
    {
      hash := new Hash();
      text := new Hash();
      other, size, view := map[], 0, map[];
    }

    method Clear()
      requires Valid()
      modifies this
      ensures Valid() && fresh(hash) && fresh(text) && view == map[]
    {
      hide *;
      size, view := 0, map[];
      hash := new Hash();
      text := new Hash();
      other := map[];
      Nothing();
      Made();
    }

    method Has(k: Value) returns (r: bool)
      requires Valid()
      ensures r <==> k in view
    {
      LinkedAt(Buckets(hash.data, text.data, other), view, k);
      if !Hashed(k) {
        r := k in other;
      } else if k.Text? {
        r := text.Has(k);
      } else {
        r := hash.Has(k);
      }
    }

    method Get(k: Value) returns (v: Value)
      requires Valid()
      ensures v == if k in view then view[k] else Undefined
    {
      LinkedAt(Buckets(hash.data, text.data, other), view, k);
      if !Hashed(k) {
        v := if k in other then other[k] else Undefined;
      } else if k.Text? {
        v := text.Get(k);
      } else {
        v := hash.Get(k);
      }
    }

    method Set(k: Value, v: Value)
      requires Valid()
      modifies this, hash, text
      ensures Valid() && hash == old(hash) && text == old(text) && view == old(view)[k := Kept(k, v)]
    {
      hide *;
      Whole();
      Bound(Buckets(hash.data, text.data, other), view, k, v);
      LinkedPut(Buckets(hash.data, text.data, other), view, k, v);
      SetSize(view, k, Kept(k, v));
      var before, after;
      if !Hashed(k) {
        SetSize(other, k, v);
        before := |other|;
        other := other[k := v];
        after := |other|;
      } else if k.Text? {
        SetSize(text.data, PropertyName(k), Marked(v));
        before := text.size;
        text.Set(k, v);
        after := text.size;
      } else {
        SetSize(hash.data, PropertyName(k), Marked(v));
        before := hash.size;
        hash.Set(k, v);
        after := hash.size;
      }
      view := view[k := Kept(k, v)];
      size := size + if after == before then 0 else 1;
      Made();
    }

    method Delete(k: Value) returns (r: bool)
      requires Valid()
      modifies this, hash, text
      ensures Valid() && hash == old(hash) && text == old(text) && view == old(view) - {k} && (r <==> k in old(view))
    {
      hide *;
      Whole();
      Bound(Buckets(hash.data, text.data, other), view, k, Undefined);
      LinkedRemove(Buckets(hash.data, text.data, other), view, k);
      MapSize(view, k);
      if !Hashed(k) {
        r := k in other;
        other := other - {k};
      } else if k.Text? {
        r := text.Delete(k);
      } else {
        r := hash.Delete(k);
      }
      view := view - {k};
      size := size - if r then 1 else 0;
      Made();
    }

    lemma Nothing()
      requires hash.data == map[] && text.data == map[] && other == map[]
      ensures Linked(Buckets(hash.data, text.data, other), map[])
    {
    }

    lemma Whole()
      requires Valid()
      ensures hash.Valid() && text.Valid() && hash != text && size == |view|
      ensures Linked(Buckets(hash.data, text.data, other), view)
    {
    }

    lemma Made()
      requires hash.Valid() && text.Valid() && hash != text && size == |view|
      requires Linked(Buckets(hash.data, text.data, other), view)
      ensures Valid()
    {
    }
  }

  /** A Stack: a list that only grows by pushing, until it is turned into a MapCache. */
  class Stack {
    var list: ListCache?
    var cache: MapCache?
    var size: int

    ghost predicate Valid()
      reads this, Parts()
    {
      && (list == null <==> cache != null)
      && (list != null ==> list.Valid() && |list.data| <= LARGE)
      && (cache != null ==> cache.Valid())
      && size == StoreSize(State())
    }

    ghost function Parts(): set<object>
      reads this, cache
    {
      (if list == null then {} else {list as object})
      + (if cache == null then {} else {cache as object, cache.hash, cache.text})
    }

    ghost function State(): Store
      reads this, list, cache
    {
      if list != null then Small(list.data) else if cache != null then Big(cache.view) else Small([])
    }

    constructor ()
      ensures Valid() && fresh(Parts()) && State() == Small([])
    {
      list := new ListCache();
      cache, size := null, 0;
    }

    method Clear()
      requires Valid()
      modifies this
      ensures Valid() && fresh(Parts()) && State() == Small([])
    {
      list := new ListCache();
      cache, size := null, 0;
    }

    method Has(k: Value) returns (r: bool)
      requires Valid()
      ensures r <==> Lookup(State(), k).Some?
    {
      if list != null {
        r := list.Has(k);
      } else {
        r := cache.Has(k);
      }
    }

    method Get(k: Value) returns (v: Value)
      requires Valid()
      ensures v == match Lookup(State(), k) case None => Undefined case Some(x) => x
    {
      if list != null {
        v := list.Get(k);
      } else {
        v := cache.Get(k);
      }
    }

    method Delete(k: Value) returns (r: bool)
      requires Valid()
      modifies this, Parts()
      ensures Valid() && Parts() == old(Parts())
      ensures State() == RemoveStore(old(State()), k) && (r <==> Lookup(old(State()), k).Some?)
    {
      if list != null {
        r := list.Delete(k);
        size := list.size;
      } else {
        r := cache.Delete(k);
        size := cache.size;
      }
    }

    method Set(k: Value, v: Value)
      requires Valid()
      modifies this, Parts()
      ensures Valid() && fresh(Parts() - old(Parts())) && State() == PutStore(old(State()), k, v)
    {
      if list != null {
        if |list.data| < LARGE {
          list.data, list.size := list.data + [Pair(k, v)], list.size + 1;
          size := list.size;
          return;
        }
        Switch();
      }
      cache.Set(k, v);
      size := cache.size;
    }

    /** Turns the list into a MapCache. */
    method Switch()
      requires list != null && cache == null
      modifies this
      ensures list == null && cache != null && cache.Valid() && cache.view == FromPairs(old(list.data))
      ensures fresh(cache) && fresh(cache.hash) && fresh(cache.text)
    {
      var m := FromList(list.data);
      list, cache := null, m;
    }
  }

  /** new MapCache(pairs) */
  method FromList(pairs: seq<Pair>) returns (m: MapCache)
    ensures fresh(m) && fresh(m.hash) && fresh(m.text) && m.Valid() && m.view == FromPairs(pairs)
  {
    m := new MapCache();
    for i := 0 to |pairs|
      invariant fresh(m) && fresh(m.hash) && fresh(m.text) && m.Valid() && m.view == FromPairs(pairs[..i])
    {
      assert pairs[..i + 1][..i] == pairs[..i];
      m.Set(pairs[i].key, pairs[i].value);
    }
    assert pairs[..|pairs|] == pairs;
  }

  const MAX_MEMOIZE_SIZE := 500

  /** What a cache can give back of v, stored under k: a string "__lodash_hash_undefined__" under a primitive
      key that is not undefined and not "__proto__" comes back as undefined. */
  ghost function Storable(k: Value, v: Value): Value {
    if v == Text("__lodash_hash_undefined__") && (k.Text? || k.Number? || k.Bool? || k.Null?) && k != Text("__proto__")
    then Undefined
    else v
  }

  lemma KeptIsStorable(k: Value, v: Value)
    ensures Kept(k, v) == Storable(k, v)
    ensures Hashed(k) <==> (k.Text? || k.Number? || k.Bool? || k.Null?) && k != Text("__proto__")
  {
  }

  /** A memoized pure function, with at most 500 results kept when capped. */
  class Memoized {
    const f: Value -> Value
    const capped: bool
    const cache: MapCache

    ghost predicate Valid()
      reads this, cache, cache.hash, cache.text
    {
      && cache.Valid() && (capped ==> |cache.view| <= MAX_MEMOIZE_SIZE)
      && forall k :: k in cache.view ==> cache.view[k] == Kept(k, f(k))
    }

    constructor (f: Value -> Value, capped: bool)
      ensures Valid() && this.f == f && this.capped == capped && fresh(cache) && fresh(cache.hash) && fresh(cache.text)
    {
      this.f, this.capped := f, capped;
      cache := new MapCache();
    }

    /** The key, after the resolver has cleared a full cache. */
    method Resolve(x: Value) returns (k: Value)
      requires Valid()
      modifies cache
      ensures Valid() && k == x && (capped ==> |cache.view| < MAX_MEMOIZE_SIZE)
      ensures cache.view == (if capped && |old(cache.view)| == MAX_MEMOIZE_SIZE then map[] else old(cache.view))
      ensures (cache.hash == old(cache.hash) || fresh(cache.hash))
        && (cache.text == old(cache.text) || fresh(cache.text))
    {
      if capped && cache.size == MAX_MEMOIZE_SIZE {
        cache.Clear();
      }
      k := x;
    }

    /** A call gives the function's value, if and only if it is not answered from the cache with the one
        value that a Hash cannot keep. */
    method Call(x: Value) returns (r: Value)
      requires Valid()
      modifies cache, cache.hash, cache.text
      ensures Valid() && (r == f(x) || r == Undefined)
      ensures r == f(x) <==>
        !(Storable(x, f(x)) != f(x) && x in old(cache.view) && !(capped && |old(cache.view)| == 500))
      ensures var view := if capped && |old(cache.view)| == 500 then map[] else old(cache.view);
        cache.view == if x in view then view else view[x := Storable(x, f(x))]
      ensures capped ==> |cache.view| <= 500
      ensures (cache.hash == old(cache.hash) || fresh(cache.hash))
        && (cache.text == old(cache.text) || fresh(cache.text))
    {
      var k := Resolve(x);
      KeptIsStorable(k, f(k));
      KeptUnmarked(k, f(k));
      var has := cache.Has(k);
      if has {
        r := cache.Get(k);
      } else {
        r := f(x);
        SetSize(cache.view, k, Kept(k, r));
        cache.Set(k, r);
      }
    }
  }

  // ---------- the buckets ----------

  /** What a Hash with these properties gives for k. */
  function HashAt(data: map<string, Value>, k: Value): Option<Value> {
    if PropertyName(k) !in data then None
    else Some(if data[PropertyName(k)] == SENTINEL then Undefined else data[PropertyName(k)])
  }

  /** How a Hash stores v. */
  function Marked(v: Value): Value {
    if v == Undefined then SENTINEL else v
  }

  datatype Buckets = Buckets(hash: map<string, Value>, text: map<string, Value>, other: map<Value, Value>)

  /** What the bucket of k gives for k. */
  function BucketAt(b: Buckets, k: Value): Option<Value> {
    if !Hashed(k) then At(b.other, k) else HashAt(if k.Text? then b.text else b.hash, k)
  }

  function PutIn(b: Buckets, k: Value, v: Value): Buckets {
    if !Hashed(k) then b.(other := b.other[k := v])
    else if k.Text? then b.(text := b.text[PropertyName(k) := Marked(v)])
    else b.(hash := b.hash[PropertyName(k) := Marked(v)])
  }

  function RemoveFrom(b: Buckets, k: Value): Buckets {
    if !Hashed(k) then b.(other := b.other - {k})
    else if k.Text? then b.(text := b.text - {PropertyName(k)})
    else b.(hash := b.hash - {PropertyName(k)})
  }

  /** The three buckets together are the map view. */
  ghost predicate Linked(b: Buckets, view: map<Value, Value>) {
    forall k :: BucketAt(b, k) == At(view, k)
  }

  lemma LinkedAt(b: Buckets, view: map<Value, Value>, k: Value)
    requires Linked(b, view)
    ensures At(view, k) == if !Hashed(k) then At(b.other, k) else HashAt(if k.Text? then b.text else b.hash, k)
  {
    assert BucketAt(b, k) == At(view, k);
  }

  lemma Bound(b: Buckets, view: map<Value, Value>, k: Value, v: Value)
    requires Linked(b, view)
    ensures k in view <==> if !Hashed(k) then k in b.other else PropertyName(k) in (if k.Text? then b.text else b.hash)
    ensures PutIn(b, k, v) ==
      if !Hashed(k) then b.(other := b.other[k := v])
      else if k.Text? then b.(text := b.text[PropertyName(k) := Marked(v)])
      else b.(hash := b.hash[PropertyName(k) := Marked(v)])
    ensures RemoveFrom(b, k) ==
      if !Hashed(k) then b.(other := b.other - {k})
      else if k.Text? then b.(text := b.text - {PropertyName(k)})
      else b.(hash := b.hash - {PropertyName(k)})
  {
    assert BucketAt(b, k) == At(view, k);
  }

  lemma LinkedPut(b: Buckets, view: map<Value, Value>, k: Value, v: Value)
    requires Linked(b, view)
    ensures Linked(PutIn(b, k, v), view[k := Kept(k, v)])
  {
    forall x ensures BucketAt(PutIn(b, k, v), x) == At(view[k := Kept(k, v)], x) {
      LinkedAt(b, view, x);
      SameProperty(k, x);
      hide PropertyName, Linked;
    }
  }

  lemma LinkedRemove(b: Buckets, view: map<Value, Value>, k: Value)
    requires Linked(b, view)
    ensures Linked(RemoveFrom(b, k), view - {k})
  {
    forall x ensures BucketAt(RemoveFrom(b, k), x) == At(view - {k}, x) {
      LinkedAt(b, view, x);
      SameProperty(k, x);
      hide PropertyName, Linked;
    }
  }

  /** Two keys of one bucket have the same property only when they are the same key. */
  lemma SameProperty(k: Value, x: Value)
    ensures Hashed(k) && Hashed(x) && (k.Text? <==> x.Text?) && PropertyName(k) == PropertyName(x) ==> k == x
  {
    if Hashed(k) && Hashed(x) && (k.Text? <==> x.Text?) && PropertyName(k) == PropertyName(x) {
      OwnProperty(k, x);
    }
  }
}
