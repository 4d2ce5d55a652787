/** Sorting by several criteria: the comparator and what every correct sort makes of it. */
module SortBy {
  /** A criterion: an integer, a symbol, null or undefined. */
  datatype Criterion = Int(n: int) | Symbol(id: nat) | Null | Undefined

  datatype Entry<T> = Entry(criteria: seq<Criterion>, index: int, value: T)

  // ---------- comparing two criteria ----------

  datatype Numeric = NotANumber | Numeric(n: int)

  function ToNumeric(c: Criterion): (r: Numeric)
    requires !c.Symbol?
    ensures r.Numeric? <==> c != Undefined
  {
    match c
    case Int(n) => Numeric(n)
    case Null => Numeric(0)
    case Undefined => NotANumber
  }

  /** a > b, on operands that convert to numbers. */
  predicate Greater(a: Criterion, b: Criterion)
    requires !a.Symbol? && !b.Symbol?
  {
    ToNumeric(a).Numeric? && ToNumeric(b).Numeric? && ToNumeric(a).n > ToNumeric(b).n
  }

  function Rank(c: Criterion): nat {
    match c
    case Int(_) => 0
    case Symbol(_) => 1
    case Null => 2
    case Undefined => 3
  }

  /** Integers by size, then symbols, null, undefined. */
  predicate Less(a: Criterion, b: Criterion) {
    Rank(a) < Rank(b) || (a.Int? && b.Int? && a.n < b.n)
  }

  /** compareAscending */
  function CompareAscending(a: Criterion, b: Criterion): (r: int)
    ensures r < 0 <==> Less(a, b)
    ensures r > 0 <==> Less(b, a)
    ensures -1 <= r <= 1
  {
    if a == b then 0
    else
      var aDefined, aNull, aSymbol := a != Undefined, a == Null, a.Symbol?;
      var bDefined, bNull, bSymbol := b != Undefined, b == Null, b.Symbol?;
      if || (!bNull && !bSymbol && !aSymbol && Greater(a, b)) || (aSymbol && bDefined && !bNull && !bSymbol)
         || (aNull && bDefined) || !aDefined
      then 1
      else if || (!aNull && !aSymbol && !bSymbol && Greater(b, a)) || (bSymbol && aDefined && !aNull && !aSymbol)
              || (bNull && aDefined) || !bDefined
      then -1
      else 0
  }

  /** Integers stand by size, before symbols, before null, before undefined. */
  ghost predicate Ahead(a: Criterion, b: Criterion) {
    match (a, b)
    case (Int(m), Int(n)) => m < n
    case (Int(_), _) => true
    case (Symbol(_), Null) => true
    case (Symbol(_), Undefined) => true
    case (Null, Undefined) => true
    case _ => false
  }

  /** The same criterion, or two symbols. */
  ghost predicate Level(a: Criterion, b: Criterion) {
    a == b || (a.Symbol? && b.Symbol?)
  }

  /** The comparison of two criteria, kind by kind. */
  lemma Ascending(a: Criterion, b: Criterion, m: int, n: int, i: nat, j: nat)
    ensures CompareAscending(Int(m), Int(n)) < 0 <==> m < n
    ensures CompareAscending(Int(m), Int(n)) > 0 <==> m > n
    ensures CompareAscending(Int(m), Symbol(i)) < 0 && CompareAscending(Symbol(i), Null) < 0
    ensures CompareAscending(Null, Undefined) < 0 && CompareAscending(Symbol(i), Symbol(j)) == 0
    ensures CompareAscending(a, b) < 0 <==> Ahead(a, b)
    ensures CompareAscending(a, b) == 0 <==> Level(a, b)
  {
  }

  // ---------- comparing two entries ----------

  /** Lexicographic order of criteria. */
  predicate LexLess(a: seq<Criterion>, b: seq<Criterion>)
    requires |a| == |b|
  {
    a != [] && (Less(a[0], b[0]) || (!Less(b[0], a[0]) && LexLess(a[1..], b[1..])))
  }

  /** By criteria, then by position in the input. */
  predicate Before<T>(x: Entry<T>, y: Entry<T>)
    requires |x.criteria| == |y.criteria|
  {
    LexLess(x.criteria, y.criteria) || (!LexLess(y.criteria, x.criteria) && x.index < y.index)
  }

  /** The comparator: the first criterion that differs decides, then the index. */
  method Compare<T>(x: Entry<T>, y: Entry<T>) returns (r: int)
    requires |x.criteria| == |y.criteria|
    ensures r < 0 <==> Before(x, y)
    ensures r > 0 <==> Before(y, x)
  {
    var i := 0;
    while i < |x.criteria|
      invariant i <= |x.criteria|
      invariant LexLess(x.criteria, y.criteria) <==> LexLess(x.criteria[i..], y.criteria[i..])
      invariant LexLess(y.criteria, x.criteria) <==> LexLess(y.criteria[i..], x.criteria[i..])
    {
      var c := CompareAscending(x.criteria[i], y.criteria[i]);
      LexStep(x.criteria, y.criteria, i);
      if c != 0 {
        return c;
      }
      i := i + 1;
    }
    r := x.index - y.index;
  }

  lemma LexStep(a: seq<Criterion>, b: seq<Criterion>, i: nat)
    requires |a| == |b| && i < |a|
    ensures LexLess(a[i..], b[i..]) <==> Less(a[i], b[i]) || (!Less(b[i], a[i]) && LexLess(a[i + 1..], b[i + 1..]))
    ensures LexLess(b[i..], a[i..]) <==> Less(b[i], a[i]) || (!Less(a[i], b[i]) && LexLess(b[i + 1..], a[i + 1..]))
  {
    assert a[i..][1..] == a[i + 1..] && b[i..][1..] == b[i + 1..];
  }

  // ---------- the order ----------

  lemma {:induction false} LexAsymmetric(a: seq<Criterion>, b: seq<Criterion>)
    requires |a| == |b|
    ensures !(LexLess(a, b) && LexLess(b, a))
  {
    if a != [] {
      LexAsymmetric(a[1..], b[1..]);
    }
  }

  /** Neither of a, b precedes the other: they stand in the same relation to any c. */
  lemma {:induction false} LexTransitive(a: seq<Criterion>, b: seq<Criterion>, c: seq<Criterion>)
    requires |a| == |b| == |c|
    ensures LexLess(a, b) && !LexLess(c, b) ==> LexLess(a, c)
    ensures !LexLess(b, a) && LexLess(b, c) ==> LexLess(a, c)
    ensures !LexLess(b, a) && !LexLess(c, b) ==> !LexLess(c, a)
  {
    if a != [] {
      LexTransitive(a[1..], b[1..], c[1..]);
      LexAsymmetric(a[1..], b[1..]);
      LexAsymmetric(b[1..], c[1..]);
      LexAsymmetric(a[1..], c[1..]);
    }
  }

  /** The comparator is a strict total order on entries with different indexes. */
  lemma BeforeIsStrictTotal<T>(x: Entry<T>, y: Entry<T>, z: Entry<T>)
    requires |x.criteria| == |y.criteria| == |z.criteria|
    ensures !(Before(x, y) && Before(y, x))
    ensures x.index != y.index ==> Before(x, y) || Before(y, x)
    ensures Before(x, y) && Before(y, z) ==> Before(x, z)
  {
    LexAsymmetric(x.criteria, y.criteria);
    LexAsymmetric(y.criteria, z.criteria);
    LexAsymmetric(x.criteria, z.criteria);
    LexTransitive(x.criteria, y.criteria, z.criteria);
  }

  /** Two criteria lists are tied exactly when they agree up to which symbol stands where. */
  lemma {:induction false} TiedIff(a: seq<Criterion>, b: seq<Criterion>)
    requires |a| == |b|
    ensures !LexLess(a, b) && !LexLess(b, a) <==>
      forall i :: 0 <= i < |a| ==> a[i] == b[i] || (a[i].Symbol? && b[i].Symbol?)
  {
    if a != [] {
      TiedIff(a[1..], b[1..]);
      assert forall i :: 0 < i < |a| ==> a[i] == a[1..][i - 1] && b[i] == b[1..][i - 1];
      assert !Less(a[0], b[0]) && !Less(b[0], a[0]) <==> a[0] == b[0] || (a[0].Symbol? && b[0].Symbol?);
      if forall i :: 0 <= i < |a| ==> a[i] == b[i] || (a[i].Symbol? && b[i].Symbol?) {
        forall i | 0 <= i < |a| - 1 ensures a[1..][i] == b[1..][i] || (a[1..][i].Symbol? && b[1..][i].Symbol?) {
          assert a[i + 1] == b[i + 1] || (a[i + 1].Symbol? && b[i + 1].Symbol?);
        }
      }
    }
  }

  // ---------- sorting ----------

  ghost predicate Comparable<T>(s: seq<Entry<T>>) {
    && (forall i, j :: 0 <= i < j < |s| ==> |s[i].criteria| == |s[j].criteria|)
    && forall i, j :: 0 <= i < j < |s| ==> s[i].index != s[j].index
  }

  /** No entry compares greater than a later one. */
  ghost predicate Sorted<T>(s: seq<Entry<T>>)
    requires Comparable(s)
  {
    forall i, j :: 0 <= i < j < |s| ==> !Before(s[j], s[i])
  }

  lemma HeadIsLeast<T>(s: seq<Entry<T>>, x: Entry<T>)
    requires Comparable(s) && Sorted(s) && x in s && x != s[0]
    ensures |x.criteria| == |s[0].criteria| && Before(s[0], x)
  {
    var i :| 0 <= i < |s| && s[i] == x;
    BeforeIsStrictTotal(s[0], x, x);
  }

  /** Entries in some order have one sorted order. */
  lemma {:induction false} OneSortedOrder<T>(p: seq<Entry<T>>, q: seq<Entry<T>>)
    requires Comparable(p) && Comparable(q) && Sorted(p) && Sorted(q) && multiset(p) == multiset(q)
    ensures p == q
    decreases |p|
  {
    SameMembers(p, q);
    if p != [] {
      SameHead(p, q);
      TailMembers(p);
      TailMembers(q);
      TailSorted(p);
      TailSorted(q);
      hide Comparable, Sorted;
      OneSortedOrder(p[1..], q[1..]);
      assert p == [p[0]] + p[1..] && q == [q[0]] + q[1..];
    }
  }

  lemma SameHead<T>(p: seq<Entry<T>>, q: seq<Entry<T>>)
    requires Comparable(p) && Comparable(q) && Sorted(p) && Sorted(q) && p != [] && q != [] && p[0] in q && q[0] in p
    ensures p[0] == q[0]
  {
    if p[0] != q[0] {
      HeadIsLeast(p, q[0]);
    }
  }

  lemma TailSorted<T>(p: seq<Entry<T>>)
    requires Comparable(p) && Sorted(p) && p != []
    ensures Comparable(p[1..]) && Sorted(p[1..])
  {
  }

  lemma SameMembers<T>(p: seq<T>, q: seq<T>)
    requires multiset(p) == multiset(q)
    ensures |p| == |q| && (p != [] ==> p[0] in q && q[0] in p)
  {
    assert |multiset(p)| == |p| && |multiset(q)| == |q|;
    if p != [] {
      assert p[0] in multiset(p) && q[0] in multiset(q);
    }
  }

  lemma TailMembers<T>(p: seq<T>)
    requires p != []
    ensures multiset(p[1..]) == multiset(p) - multiset{p[0]}
  {
    assert p == [p[0]] + p[1..];
  }

  /** The entries of the items: what each iteratee makes of it, and its position. */
  function Entries<T>(items: seq<T>, iteratees: seq<T -> Criterion>): (es: seq<Entry<T>>)
    ensures |es| == |items|
    ensures forall i :: 0 <= i < |items| ==> es[i] == Entry(Criteria(items[i], iteratees), i, items[i])
    ensures Comparable(es)
  {
    seq(|items|, i requires 0 <= i < |items| => Entry(Criteria(items[i], iteratees), i, items[i]))
  }

  function Criteria<T>(x: T, iteratees: seq<T -> Criterion>): (cs: seq<Criterion>)
    ensures |cs| == |iteratees| && forall k :: 0 <= k < |iteratees| ==> cs[k] == iteratees[k](x)
  {
    seq(|iteratees|, k requires 0 <= k < |iteratees| => iteratees[k](x))
  }

  /** sort orders any comparable entries by the comparator. */
  ghost predicate Sorts<T(!new)>(sort: seq<Entry<T>> -> seq<Entry<T>>) {
    forall es :: Comparable(es) ==>
      multiset(sort(es)) == multiset(es) && Comparable(sort(es)) && Sorted(sort(es))
  }

  /** r holds the items in an order that the comparator accepts. */
  ghost predicate OrderedBy<T(!new)>(items: seq<T>, iteratees: seq<T -> Criterion>, r: seq<T>) {
    exists order: seq<Entry<T>> :: IsOrder(items, iteratees, order) && ValuesOf(order) == r
  }

  ghost predicate IsOrder<T>(items: seq<T>, iteratees: seq<T -> Criterion>, order: seq<Entry<T>>) {
    multiset(order) == multiset(Entries(items, iteratees)) && Comparable(order) && Sorted(order)
  }

  function ValuesOf<T>(es: seq<Entry<T>>): (r: seq<T>)
    ensures |r| == |es| && forall i :: 0 <= i < |r| ==> r[i] == es[i].value
  {
    seq(|es|, i requires 0 <= i < |es| => es[i].value)
  }

  /** There is one such result. */
  lemma OneResult<T(!new)>(items: seq<T>, iteratees: seq<T -> Criterion>, r: seq<T>, s: seq<T>)
    requires OrderedBy(items, iteratees, r) && OrderedBy(items, iteratees, s)
    ensures r == s
  {
    var p :| IsOrder(items, iteratees, p) && ValuesOf(p) == r;
    var q :| IsOrder(items, iteratees, q) && ValuesOf(q) == s;
    OneSortedOrder(p, q);
  }

  /** baseOrderBy, with any correct sort: the items in the one order that is sorted by the criteria and
      keeps tied items in the order of the input. */
  method OrderBy<T(!new)>(items: seq<T>, iteratees: seq<T -> Criterion>, sort: seq<Entry<T>> -> seq<Entry<T>>)
    returns (r: seq<T>)
    requires Sorts(sort)
    ensures OrderedBy(items, iteratees, r) && exists p :: Arranges(items, iteratees, r, p)
  {
    var es := MakeEntries(items, iteratees);
    var sorted := sort(es);
    assert IsOrder(items, iteratees, sorted);
    r := Values(sorted);
    OrderedArranges(items, iteratees, r);
  }

  method MakeEntries<T>(items: seq<T>, iteratees: seq<T -> Criterion>) returns (es: seq<Entry<T>>)
    ensures es == Entries(items, iteratees)
  {
    es := [];
    for k := 0 to |items|
      invariant es == Entries(items, iteratees)[..k]
    {
      es := es + [Entry(Criteria(items[k], iteratees), k, items[k])];
    }
  }

  /** The values of the entries, filled in from the end. */
  method Values<T>(es: seq<Entry<T>>) returns (r: seq<T>)
    ensures r == ValuesOf(es)
  {
    r := [];
    var n := |es|;
    while n > 0
      invariant 0 <= n <= |es| && |r| == |es| - n
      invariant forall i :: 0 <= i < |r| ==> r[i] == es[n + i].value
    {
      n := n - 1;
      r := [es[n].value] + r;
    }
  }

  /** In a sorted order, an item precedes another exactly when its criteria are less, or tied and it came
      first in the input. */
  lemma SortedPositions<T>(s: seq<Entry<T>>, i: nat, j: nat)
    requires Comparable(s) && Sorted(s) && i < |s| && j < |s|
    ensures i != j ==> |s[i].criteria| == |s[j].criteria|
    ensures i != j ==> (i < j <==>
      LexLess(s[i].criteria, s[j].criteria) || (!LexLess(s[j].criteria, s[i].criteria) && s[i].index < s[j].index))
  {
    if i != j {
      BeforeIsStrictTotal(s[i], s[j], s[j]);
    }
  }

  // ---------- the result, in terms of the items ----------

  /** a is ahead of b in the first of the criteria that tells them apart. */
  ghost predicate AheadFirst(a: seq<Criterion>, b: seq<Criterion>) {
    exists k :: 0 <= k < |a| && k < |b| && Ahead(a[k], b[k]) && LevelUpTo(a, b, k)
  }

  ghost predicate LevelUpTo(a: seq<Criterion>, b: seq<Criterion>, k: nat) {
    k <= |a| && k <= |b| && forall i :: 0 <= i < k ==> Level(a[i], b[i])
  }

  lemma {:induction false} LexIsAheadFirst(a: seq<Criterion>, b: seq<Criterion>)
    requires |a| == |b|
    ensures LexLess(a, b) <==> AheadFirst(a, b)
  {
    if a != [] {
      var c, d := a[1..], b[1..];
      LexIsAheadFirst(c, d);
      Ascending(a[0], b[0], 0, 0, 0, 0);
      Ascending(b[0], a[0], 0, 0, 0, 0);
      if k :| 0 <= k < |c| && Ahead(c[k], d[k]) && LevelUpTo(c, d, k) && Level(a[0], b[0]) {
        forall i | 0 <= i < k + 1 ensures Level(a[i], b[i]) {
          assert i > 0 ==> a[i] == c[i - 1] && b[i] == d[i - 1];
        }
        assert Ahead(a[k + 1], b[k + 1]) && LevelUpTo(a, b, k + 1);
      }
      if k :| 0 <= k < |a| && Ahead(a[k], b[k]) && LevelUpTo(a, b, k) {
        if k > 0 {
          assert Level(a[0], b[0]);
          forall i | 0 <= i < k - 1 ensures Level(c[i], d[i]) {
            assert c[i] == a[i + 1] && d[i] == b[i + 1];
          }
          assert Ahead(c[k - 1], d[k - 1]) && LevelUpTo(c, d, k - 1);
        }
      }
      if Ahead(a[0], b[0]) {
        assert LevelUpTo(a, b, 0);
      }
    }
  }

  /** r is items taken in the order p of their positions: by the first criterion that tells two of them
      apart, and as in the input when none does. */
  ghost predicate Arranges<T>(items: seq<T>, iteratees: seq<T -> Criterion>, r: seq<T>, p: seq<nat>) {
    && |p| == |r| == |items|
    && (forall i :: 0 <= i < |p| ==> p[i] < |items| && r[i] == items[p[i]])
    && (forall i, j :: 0 <= i < j < |p| ==> p[i] != p[j])
    && forall i, j :: 0 <= i < j < |p| ==>
         var a, b := Criteria(items[p[i]], iteratees), Criteria(items[p[j]], iteratees);
         AheadFirst(a, b) || (LevelUpTo(a, b, |iteratees|) && p[i] < p[j])
  }

  lemma OrderedArranges<T(!new)>(items: seq<T>, iteratees: seq<T -> Criterion>, r: seq<T>)
    requires OrderedBy(items, iteratees, r)
    ensures exists p :: Arranges(items, iteratees, r, p)
  {
    var order: seq<Entry<T>> :| IsOrder(items, iteratees, order) && ValuesOf(order) == r;
    hide *;
    EntriesOf(items, iteratees, order);
    var p: seq<nat> := seq(|order|, i requires 0 <= i < |order| => order[i].index);
    forall i, j | 0 <= i < j < |p|
      ensures p[i] != p[j]
      ensures var a, b := Criteria(items[p[i]], iteratees), Criteria(items[p[j]], iteratees);
        AheadFirst(a, b) || (LevelUpTo(a, b, |iteratees|) && p[i] < p[j])
    {
      AheadInOrder(order, i, j);
    }
    ItArranges(items, iteratees, r, p);
  }

  lemma ItArranges<T>(items: seq<T>, iteratees: seq<T -> Criterion>, r: seq<T>, p: seq<nat>)
    requires |p| == |r| == |items|
    requires forall i :: 0 <= i < |p| ==> p[i] < |items| && r[i] == items[p[i]]
    requires forall i, j :: 0 <= i < j < |p| ==> p[i] != p[j]
    requires forall i, j :: 0 <= i < j < |p| ==>
      var a, b := Criteria(items[p[i]], iteratees), Criteria(items[p[j]], iteratees);
      AheadFirst(a, b) || (LevelUpTo(a, b, |iteratees|) && p[i] < p[j])
    ensures Arranges(items, iteratees, r, p)
  {
    hide AheadFirst, LevelUpTo;
  }

  /** The entries of an order are those of the items. */
  lemma EntriesOf<T>(items: seq<T>, iteratees: seq<T -> Criterion>, order: seq<Entry<T>>)
    requires IsOrder(items, iteratees, order)
    ensures |order| == |items| && Comparable(order) && Sorted(order)
    ensures forall i :: 0 <= i < |order| ==> 0 <= order[i].index < |items|
    ensures forall i :: 0 <= i < |order| ==> order[i].value == items[order[i].index]
    ensures forall i :: 0 <= i < |order| ==> order[i].criteria == Criteria(items[order[i].index], iteratees)
  {
    var es := Entries(items, iteratees);
    hide Sorted, Comparable;
    SameLength(order, es);
    forall i | 0 <= i < |order| ensures 0 <= order[i].index < |es| && order[i] == es[order[i].index] {
      assert order[i] in multiset(order);
      assert order[i] in es;
    }
  }

  lemma AheadInOrder<T>(order: seq<Entry<T>>, i: nat, j: nat)
    requires Comparable(order) && Sorted(order) && i < j < |order|
    ensures order[i].index != order[j].index && |order[i].criteria| == |order[j].criteria|
    ensures var a, b := order[i].criteria, order[j].criteria;
      AheadFirst(a, b) || (LevelUpTo(a, b, |a|) && order[i].index < order[j].index)
  {
    var a, b := order[i].criteria, order[j].criteria;
    SortedPositions(order, i, j);
    hide Sorted, LexLess, AheadFirst;
    LexIsAheadFirst(a, b);
    TiedIff(a, b);
  }

  lemma SameLength<T>(p: seq<T>, q: seq<T>)
    requires multiset(p) == multiset(q)
    ensures |p| == |q|
  {
    assert |multiset(p)| == |p| && |multiset(q)| == |q|;
  }

  /** With one criterion that is always an integer, the integers never decrease. */
  lemma IntegersAscend<T(!new)>(items: seq<T>, iteratee: T -> Criterion, r: seq<T>)
    requires OrderedBy(items, [iteratee], r) && forall x :: x in items ==> iteratee(x).Int?
    ensures |r| == |items| && forall x :: x in r ==> x in items
    ensures forall i, j :: 0 <= i < j < |r| ==> iteratee(r[i]).n <= iteratee(r[j]).n
  {
    OrderedArranges(items, [iteratee], r);
    var p :| Arranges(items, [iteratee], r, p);
    forall i, j | 0 <= i < j < |r| ensures iteratee(r[i]).n <= iteratee(r[j]).n {
      var a, b := Criteria(items[p[i]], [iteratee]), Criteria(items[p[j]], [iteratee]);
      assert a == [iteratee(r[i])] && b == [iteratee(r[j])];
      if AheadFirst(a, b) {
        var k :| 0 <= k < |a| && k < |b| && Ahead(a[k], b[k]) && LevelUpTo(a, b, k);
        assert k == 0;
      } else {
        assert Level(a[0], b[0]);
      }
    }
  }
}
