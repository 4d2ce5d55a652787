/** What the caches hold, as values: the pair list that a Stack starts as, the map it becomes, and what
    one lookup answers. */
module CacheSpec {
  import opened Common
  import opened JsHeap

  const SENTINEL := Text("__lodash_hash_undefined__")
  const LARGE := 199

  datatype Pair = Pair(key: Value, value: Value)

  datatype Store = Small(pairs: seq<Pair>) | Big(view: map<Value, Value>)

  // ---------- property names ----------

  /** The keys kept in a Hash: primitives but undefined and the string "__proto__". */
  predicate Hashed(k: Value) {
    k != Undefined && !k.Ref? && k != Text("__proto__")
  }

  function Digits(n: nat): (s: string)
    ensures |s| > 0 && forall i :: 0 <= i < |s| ==> '0' <= s[i] <= '9'
  {
    (if n < 10 then [] else Digits(n / 10)) + ["0123456789"[n % 10]]
  }

  /** The property a key stands for. */
  function PropertyName(k: Value): (p: string) {
    match k
    case Text(s) => s
    case Number(n) => if n < 0 then "-" + Digits(-n) else Digits(n)
    case Bool(b) => if b then "true" else "false"
    case Null => "null"
    case _ => ""
  }

  lemma PropertyNames(s: string)
    ensures PropertyName(Text(s)) == s && PropertyName(Null) == "null"
    ensures PropertyName(Bool(true)) == "true" && PropertyName(Bool(false)) == "false"
  {
  }

  lemma {:induction false} DigitsInjective(m: nat, n: nat)
    requires Digits(m) == Digits(n)
    ensures m == n
    decreases m
  {
    var a, b := Digits(m), Digits(n);
    assert a[|a| - 1] == "0123456789"[m % 10] && b[|b| - 1] == "0123456789"[n % 10];
    assert (m >= 10 <==> |a| > 1) && (n >= 10 <==> |b| > 1);
    if m >= 10 {
      assert a[..|a| - 1] == Digits(m / 10) && b[..|b| - 1] == Digits(n / 10);
      DigitsInjective(m / 10, n / 10);
    }
  }

  /** Keys of one Hash never share a property: strings have a Hash of their own. */
  lemma OwnProperty(a: Value, b: Value)
    requires Hashed(a) && Hashed(b) && (a.Text? <==> b.Text?) && PropertyName(a) == PropertyName(b)
    ensures a == b
  {
    if !a.Text? {
      FirstCharacter(a);
      FirstCharacter(b);
      if a.Number? && b.Number? {
        if a.n < 0 {
          assert ("-" + Digits(-a.n))[1..] == Digits(-a.n) && ("-" + Digits(-b.n))[1..] == Digits(-b.n);
          DigitsInjective(-a.n, -b.n);
        } else {
          DigitsInjective(a.n, b.n);
        }
      }
    }
  }

  lemma FirstCharacter(k: Value)
    requires Hashed(k) && !k.Text?
    ensures |PropertyName(k)| > 0
    ensures k.Number? ==> if k.n < 0 then PropertyName(k)[0] == '-' else '0' <= PropertyName(k)[0] <= '9'
    ensures k.Bool? ==> PropertyName(k)[0] == if k.b then 't' else 'f'
    ensures k == Null ==> PropertyName(k)[0] == 'n'
  {
  }

  // ---------- what is kept ----------

  /** What a MapCache gives back for v under k: a Hash reads its own mark for undefined as undefined. */
  function Kept(k: Value, v: Value): Value {
    if Hashed(k) && v == SENTINEL then Undefined else v
  }

  /** The last pair with key k before position n, or -1. */
  function LastAt(pairs: seq<Pair>, k: Value, n: nat): (i: int)
    requires n <= |pairs|
    ensures -1 <= i < n && (i >= 0 ==> pairs[i].key == k) && forall j :: i < j < n ==> pairs[j].key != k
  {
    if n == 0 then -1 else if pairs[n - 1].key == k then n - 1 else LastAt(pairs, k, n - 1)
  }

  function Last(pairs: seq<Pair>, k: Value): (i: int)
    ensures -1 <= i < |pairs| && (i >= 0 ==> pairs[i].key == k) && forall j :: i < j < |pairs| ==> pairs[j].key != k
  {
    LastAt(pairs, k, |pairs|)
  }

  /** The pairs set one after the other into a MapCache. */
  function FromPairs(pairs: seq<Pair>): map<Value, Value>
    decreases |pairs|
  {
    if pairs == [] then map[]
    else
      var p := pairs[|pairs| - 1];
      FromPairs(pairs[..|pairs| - 1])[p.key := Kept(p.key, p.value)]
  }

  // ---------- the Stack ----------

  function PutStore(s: Store, k: Value, v: Value): Store {
    match s
    case Small(l) => if |l| < LARGE then Small(l + [Pair(k, v)]) else Big(FromPairs(l)[k := Kept(k, v)])
    case Big(m) => Big(m[k := Kept(k, v)])
  }

  /** The list takes 199 pairs; the next set makes a map of it. */
  lemma SwitchesAt199(pairs: seq<Pair>, k: Value, v: Value)
    ensures |pairs| < 199 ==> PutStore(Small(pairs), k, v) == Small(pairs + [Pair(k, v)])
    ensures |pairs| >= 199 ==> PutStore(Small(pairs), k, v).Big? && k in PutStore(Small(pairs), k, v).view
  {
  }

  function RemoveStore(s: Store, k: Value): Store {
    match s
    case Small(l) => if Last(l, k) < 0 then s else Small(l[..Last(l, k)] + l[Last(l, k) + 1..])
    case Big(m) => Big(m - {k})
  }

  function Lookup(s: Store, k: Value): Option<Value> {
    match s
    case Small(l) => if Last(l, k) < 0 then None else Some(l[Last(l, k)].value)
    case Big(m) => if k in m then Some(m[k]) else None
  }

  function StoreSize(s: Store): nat {
    match s
    case Small(l) => |l|
    case Big(m) => |m|
  }

  /** No value held is the mark for undefined. */
  ghost predicate Unmarked(s: Store) {
    s.Small? ==> forall i :: 0 <= i < |s.pairs| ==> s.pairs[i].value != SENTINEL
  }

  lemma {:induction false} FromPairsHas(pairs: seq<Pair>, k: Value)
    ensures k in FromPairs(pairs) <==> Last(pairs, k) >= 0
    ensures Last(pairs, k) >= 0 ==> FromPairs(pairs)[k] == Kept(k, pairs[Last(pairs, k)].value)
    decreases |pairs|
  {
    if pairs != [] {
      var init := pairs[..|pairs| - 1];
      FromPairsHas(init, k);
      LastIs(pairs, k, if pairs[|pairs| - 1].key == k then |pairs| - 1 else Last(init, k));
    }
  }

  lemma LastIs(pairs: seq<Pair>, k: Value, i: int)
    requires -1 <= i < |pairs| && (i >= 0 ==> pairs[i].key == k) && forall j :: i < j < |pairs| ==> pairs[j].key != k
    ensures Last(pairs, k) == i
  {
  }

  lemma KeptUnmarked(k: Value, v: Value)
    ensures Kept(k, v) == v <==> !(Hashed(k) && v == SENTINEL)
  {
  }

  /** A set is what the next lookup of its key finds, and no other lookup notices it, the one set that
      turns the list into a map included. */
  lemma PutLookup(s: Store, k: Value, v: Value, x: Value)
    requires Unmarked(s) && v != SENTINEL
    ensures Unmarked(PutStore(s, k, v))
    ensures Lookup(PutStore(s, k, v), x) == if x == k then Some(v) else Lookup(s, x)
  {
    if s.Small? && |s.pairs| < LARGE {
      PushLookup(s.pairs, k, v, x);
    } else if s.Small? {
      SwitchLookup(s.pairs, k, v, x);
    }
  }

  lemma PushLookup(pairs: seq<Pair>, k: Value, v: Value, x: Value)
    ensures Lookup(Small(pairs + [Pair(k, v)]), x) == if x == k then Some(v) else Lookup(Small(pairs), x)
  {
    Pushed(pairs, k, v, x);
  }

  /** The map made from the list answers as the list does. */
  lemma SwitchLookup(pairs: seq<Pair>, k: Value, v: Value, x: Value)
    requires v != SENTINEL && forall i :: 0 <= i < |pairs| ==> pairs[i].value != SENTINEL
    ensures Lookup(Big(FromPairs(pairs)[k := Kept(k, v)]), x) == if x == k then Some(v) else Lookup(Small(pairs), x)
  {
    FromPairsHas(pairs, x);
    KeptUnmarked(k, v);
    hide Last, Kept, FromPairs;
    if Last(pairs, x) >= 0 {
      KeptUnmarked(x, pairs[Last(pairs, x)].value);
    }
  }

  lemma Pushed(pairs: seq<Pair>, k: Value, v: Value, x: Value)
    ensures Last(pairs + [Pair(k, v)], x) == if x == k then |pairs| else Last(pairs, x)
  {
    LastIs(pairs + [Pair(k, v)], x, if x == k then |pairs| else Last(pairs, x));
  }

  /** In a map, a set is found again exactly when its value is not the mark under a hashed key. */
  lemma BigPutFound(m: map<Value, Value>, k: Value, v: Value)
    ensures Lookup(PutStore(Big(m), k, v), k) == Some(v) <==> !(Hashed(k) && v == SENTINEL)
  {
  }

  // ---------- sequences of sets ----------

  function PutAll(s: Store, puts: seq<Pair>): Store
    decreases |puts|
  {
    if puts == [] then s else PutStore(PutAll(s, puts[..|puts| - 1]), puts[|puts| - 1].key, puts[|puts| - 1].value)
  }

  /** After any sets on an empty Stack, a lookup finds the last value set for its key. */
  lemma {:induction false} LastWriteWins(puts: seq<Pair>, x: Value)
    requires forall i :: 0 <= i < |puts| ==> puts[i].value != SENTINEL
    ensures var s := PutAll(Small([]), puts);
      Unmarked(s) && Lookup(s, x) == if Last(puts, x) < 0 then None else Some(puts[Last(puts, x)].value)
    decreases |puts|
  {
    if puts != [] {
      var init, p := puts[..|puts| - 1], puts[|puts| - 1];
      LastWriteWins(init, x);
      PutLookup(PutAll(Small([]), init), p.key, p.value, x);
      LastIs(puts, x, if p.key == x then |puts| - 1 else Last(init, x));
    }
  }

  // ---------- one finite map ----------

  ghost predicate DistinctKeys(pairs: seq<Pair>) {
    forall i, j :: 0 <= i < j < |pairs| ==> pairs[i].key != pairs[j].key
  }

  /** get, has and size answer as those of m do, and no binding is shadowed. */
  ghost predicate Refines(s: Store, m: map<Value, Value>) {
    && Unmarked(s) && StoreSize(s) == |m| && (s.Small? ==> DistinctKeys(s.pairs))
    && Answers(s, m)
  }

  function At(m: map<Value, Value>, k: Value): Option<Value> {
    if k in m then Some(m[k]) else None
  }

  ghost predicate Answers(s: Store, m: map<Value, Value>) {
    forall k :: Lookup(s, k) == At(m, k)
  }

  lemma RefinesEmpty()
    ensures Refines(Small([]), map[])
  {
  }

  lemma {:induction false} FromPairsSize(pairs: seq<Pair>)
    requires DistinctKeys(pairs)
    ensures |FromPairs(pairs)| == |pairs|
    decreases |pairs|
  {
    if pairs != [] {
      var init := pairs[..|pairs| - 1];
      FromPairsSize(init);
      FromPairsHas(init, pairs[|pairs| - 1].key);
    }
  }

  /** Setting an unbound key keeps the refinement. */
  lemma PutRefines(s: Store, m: map<Value, Value>, k: Value, v: Value)
    requires Refines(s, m) && k !in m && v != SENTINEL
    ensures Refines(PutStore(s, k, v), m[k := v])
  {
    var s', m' := PutStore(s, k, v), m[k := v];
    PutAnswers(s, m, k, v);
    PutSize(s, k, v) by { assert Lookup(s, k) == At(m, k); }
    hide Lookup, Last, Answers;
    PutLookup(s, k, v, k);
  }

  lemma PutAnswers(s: Store, m: map<Value, Value>, k: Value, v: Value)
    requires Unmarked(s) && Answers(s, m) && v != SENTINEL
    ensures Answers(PutStore(s, k, v), m[k := v])
  {
    forall x ensures Lookup(PutStore(s, k, v), x) == At(m[k := v], x) {
      assert Lookup(s, x) == At(m, x);
      hide PutStore, Lookup, Unmarked;
      PutLookup(s, k, v, x);
    }
  }

  lemma PutSize(s: Store, k: Value, v: Value)
    requires (s.Small? ==> DistinctKeys(s.pairs)) && Lookup(s, k) == None
    ensures StoreSize(PutStore(s, k, v)) == StoreSize(s) + 1
    ensures PutStore(s, k, v).Small? ==> DistinctKeys(PutStore(s, k, v).pairs)
  {
    if s.Small? {
      FromPairsSize(s.pairs);
      FromPairsHas(s.pairs, k);
    }
  }

  /** Removing a key does not touch the lookup of another. */
  lemma RemoveOther(s: Store, k: Value, x: Value)
    requires x != k
    ensures Lookup(RemoveStore(s, k), x) == Lookup(s, x)
  {
    if s.Small? && Last(s.pairs, k) >= 0 {
      var i, p := Last(s.pairs, k), Last(s.pairs, x);
      LastIs(s.pairs[..i] + s.pairs[i + 1..], x, if p > i then p - 1 else p);
    }
  }

  /** How often k is bound. */
  function Bindings(s: Store, k: Value): nat {
    match s
    case Small(l) => Occurrences(l, k)
    case Big(m) => if k in m then 1 else 0
  }

  function Occurrences(pairs: seq<Pair>, k: Value): nat
    decreases |pairs|
  {
    if pairs == [] then 0 else (if pairs[|pairs| - 1].key == k then 1 else 0) + Occurrences(pairs[..|pairs| - 1], k)
  }

  lemma {:induction false} OccursAt(pairs: seq<Pair>, k: Value)
    ensures Occurrences(pairs, k) > 0 <==> Last(pairs, k) >= 0
    decreases |pairs|
  {
    if pairs != [] {
      var init := pairs[..|pairs| - 1];
      OccursAt(init, k);
      LastIs(pairs, k, if pairs[|pairs| - 1].key == k then |pairs| - 1 else Last(init, k));
    }
  }

  lemma {:induction false} OneLess(pairs: seq<Pair>, k: Value, i: nat)
    requires i < |pairs| && i == Last(pairs, k)
    ensures Occurrences(pairs[..i] + pairs[i + 1..], k) == Occurrences(pairs, k) - 1
    decreases |pairs|
  {
    var init, rest := pairs[..|pairs| - 1], pairs[..i] + pairs[i + 1..];
    if i == |pairs| - 1 {
      assert rest == init;
    } else {
      LastIs(init, k, i);
      OneLess(init, k, i);
      assert rest[..|rest| - 1] == init[..i] + init[i + 1..] && rest[|rest| - 1] == pairs[|pairs| - 1];
    }
  }

  /** A removed key is gone if and only if it was bound at most once; a shadowed binding comes back. */
  lemma RemovedIffBoundOnce(s: Store, k: Value)
    ensures Lookup(RemoveStore(s, k), k) == None <==> Bindings(s, k) <= 1
  {
    if s.Small? {
      OccursAt(s.pairs, k);
      if Last(s.pairs, k) >= 0 {
        var i := Last(s.pairs, k);
        OneLess(s.pairs, k, i);
        OccursAt(s.pairs[..i] + s.pairs[i + 1..], k);
      }
    }
  }

  lemma {:induction false} KeysOnce(pairs: seq<Pair>, k: Value)
    requires DistinctKeys(pairs)
    ensures Occurrences(pairs, k) <= 1
    decreases |pairs|
  {
    if pairs != [] {
      var init := pairs[..|pairs| - 1];
      KeysOnce(init, k);
      OccursAt(init, k);
    }
  }

  /** Removing keeps the refinement. */
  lemma RemoveRefines(s: Store, m: map<Value, Value>, k: Value)
    requires Refines(s, m)
    ensures Refines(RemoveStore(s, k), m - {k})
  {
    RemoveAnswers(s, m, k);
    assert Lookup(s, k) == At(m, k);
    hide Lookup, Answers;
    RemoveSize(s, k);
    MapSize(m, k);
  }

  lemma RemoveAnswers(s: Store, m: map<Value, Value>, k: Value)
    requires Answers(s, m) && (s.Small? ==> DistinctKeys(s.pairs))
    ensures Answers(RemoveStore(s, k), m - {k})
  {
    forall x ensures Lookup(RemoveStore(s, k), x) == At(m - {k}, x) {
      assert Lookup(s, x) == At(m, x);
      hide RemoveStore, Lookup, DistinctKeys;
      LookupRemoved(s, k, x);
    }
  }

  lemma LookupRemoved(s: Store, k: Value, x: Value)
    requires s.Small? ==> DistinctKeys(s.pairs)
    ensures Lookup(RemoveStore(s, k), x) == if x == k then None else Lookup(s, x)
  {
    hide *;
    if x == k {
      OnceBound(s, k);
      RemovedIffBoundOnce(s, k);
    } else {
      RemoveOther(s, k, x);
    }
  }

  lemma OnceBound(s: Store, k: Value)
    requires s.Small? ==> DistinctKeys(s.pairs)
    ensures Bindings(s, k) <= 1
  {
    if s.Small? {
      KeysOnce(s.pairs, k);
    }
  }

  lemma MapSize(m: map<Value, Value>, k: Value)
    ensures |m - {k}| == |m| - if k in m then 1 else 0
  {
    assert (m - {k}).Keys == m.Keys - {k};
    assert |m - {k}| == |(m - {k}).Keys| && |m| == |m.Keys|;
  }

  lemma RemoveSize(s: Store, k: Value)
    requires Unmarked(s) && (s.Small? ==> DistinctKeys(s.pairs))
    ensures var s' := RemoveStore(s, k);
      && Unmarked(s') && (s'.Small? ==> DistinctKeys(s'.pairs))
      && StoreSize(s') == StoreSize(s) - if Lookup(s, k).Some? then 1 else 0
  {
    if s.Big? {
      MapSize(s.view, k);
    }
  }

  datatype Op = Set(key: Value, value: Value) | Delete(key: Value) | Clear

  function Perform(s: Store, op: Op): Store {
    match op
    case Set(k, v) => PutStore(s, k, v)
    case Delete(k) => RemoveStore(s, k)
    case Clear => Small([])
  }

  function OnMap(m: map<Value, Value>, op: Op): map<Value, Value> {
    match op
    case Set(k, v) => m[k := v]
    case Delete(k) => m - {k}
    case Clear => map[]
  }

  function Run(s: Store, ops: seq<Op>): Store
    decreases |ops|
  {
    if ops == [] then s else Run(Perform(s, ops[0]), ops[1..])
  }

  function RunMap(m: map<Value, Value>, ops: seq<Op>): map<Value, Value>
    decreases |ops|
  {
    if ops == [] then m else RunMap(OnMap(m, ops[0]), ops[1..])
  }

  /** No key is set while it is bound, and no value is the mark for undefined. */
  ghost predicate NeverRebinds(m: map<Value, Value>, ops: seq<Op>)
    decreases |ops|
  {
    ops == [] ||
    ((ops[0].Set? ==> ops[0].key !in m && ops[0].value != SENTINEL) && NeverRebinds(OnMap(m, ops[0]), ops[1..]))
  }

  /** Such a Stack is one finite map all along, in whichever form it stands. */
  lemma {:induction false} RunRefines(s: Store, m: map<Value, Value>, ops: seq<Op>)
    requires Refines(s, m) && NeverRebinds(m, ops)
    ensures Refines(Run(s, ops), RunMap(m, ops))
    decreases |ops|
  {
    if ops != [] {
      var op := ops[0];
      match op {
        case Set(k, v) => PutRefines(s, m, k, v);
        case Delete(k) => RemoveRefines(s, m, k);
        case Clear => RefinesEmpty();
      }
      hide Refines;
      RunRefines(Perform(s, op), OnMap(m, op), ops[1..]);
    }
  }

  /** Setting a bound key in the list makes the size differ from that of the map. */
  lemma RebindingBreaksSize(s: Store, m: map<Value, Value>, k: Value, v: Value)
    requires Refines(s, m) && s.Small? && |s.pairs| < LARGE
    ensures StoreSize(PutStore(s, k, v)) == |m[k := v]| <==> k !in m
  {
    if k in m {
      assert m[k := v].Keys == m.Keys;
      assert |m[k := v]| == |m[k := v].Keys| && |m| == |m.Keys|;
    }
  }
}
