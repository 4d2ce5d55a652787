/** Ordered, duplicate-free lists as JavaScript arrays handle them: indexOf and splice. */
module ChunkLists {
  import opened Common

  /** Array.prototype.indexOf */
  function IndexOf<T(==)>(s: seq<T>, x: T): (i: int)
    ensures i == -1 <==> x !in s
    ensures i != -1 ==> 0 <= i < |s| && s[i] == x && x !in s[..i]
  {
    if s == [] then -1
    else if s[0] == x then 0
    else
      var i := IndexOf(s[1..], x);
      if i == -1 then -1 else
      assert s[..i + 1] == [s[0]] + s[1..][..i];
      i + 1
  }

  /** splice(i, 1) */
  function SpliceOut<T>(s: seq<T>, i: nat): (r: seq<T>)
    requires i < |s|
    ensures |r| == |s| - 1
  {
    s[..i] + s[i + 1..]
  }

  /** splice(i, 0, x) */
  function SpliceIn<T>(s: seq<T>, i: nat, x: T): seq<T>
    requires i <= |s|
  {
    s[..i] + [x] + s[i..]
  }

  /** First occurrences only, in order. */
  ghost function Dedup<T>(s: seq<T>): seq<T> {
    if s == [] then []
    else
      var n := |s| - 1;
      if s[n] in s[..n] then Dedup(s[..n]) else Dedup(s[..n]) + [s[n]]
  }

  /** Every a replaced by b. */
  ghost function Subst<T>(s: seq<T>, a: T, b: T): (r: seq<T>) {
    seq(|s|, i requires 0 <= i < |s| => if s[i] == a then b else s[i])
  }

  /** x has been put directly before y, unless it was there at or before y already. */
  ghost predicate PutBefore<T>(before: seq<T>, after: seq<T>, x: T, y: T) {
    exists i :: 0 <= i < |before| && before[i] == y && PutAt(before, after, x, i)
  }

  ghost predicate PutAt<T>(before: seq<T>, after: seq<T>, x: T, i: nat)
    requires i < |before|
  {
    && (x !in before ==> after == before[..i] + [x] + before[i..])
    && (x in before[..i + 1] ==> after == before)
    && forall k :: i < k < |before| && before[k] == x ==>
         after == before[..i] + [x] + before[i..k] + before[k + 1..]
  }

  // ---------- facts ----------

  lemma {:induction false} WithoutMembers<T>(s: seq<T>, x: T)
    ensures forall y :: y in Without(s, x) <==> y in s && y != x
  {
    if s != [] {
      WithoutMembers(s[1..], x);
    }
  }

  lemma {:induction false} DedupMembers<T>(s: seq<T>)
    ensures forall y :: y in Dedup(s) <==> y in s
    decreases |s|
  {
    if s != [] {
      DedupMembers(s[..|s| - 1]);
      assert s == s[..|s| - 1] + [s[|s| - 1]];
    }
  }

  lemma {:induction false} WithoutAppend<T>(a: seq<T>, b: seq<T>, x: T)
    ensures Without(a + b, x) == Without(a, x) + Without(b, x)
    decreases |a|
  {
    if a == [] {
      assert a + b == b;
    } else {
      assert (a + b)[1..] == a[1..] + b;
      WithoutAppend(a[1..], b, x);
    }
  }

  lemma {:induction false} WithoutAbsent<T>(s: seq<T>, x: T)
    requires x !in s
    ensures Without(s, x) == s
  {
    if s != [] {
      WithoutAbsent(s[1..], x);
    }
  }

  lemma WithoutMiddle<T>(a: seq<T>, x: T, b: seq<T>)
    requires x !in a && x !in b
    ensures Without(a + [x] + b, x) == a + b
  {
    WithoutOne(x);
    hide Without;
    WithoutAppend(a + [x], b, x);
    WithoutAppend(a, [x], x);
    WithoutAbsent(a, x);
    WithoutAbsent(b, x);
    assert a + [] == a;
  }

  lemma WithoutOne<T>(x: T)
    ensures Without([x], x) == []
  {
  }

  lemma NoDupAt<T>(s: seq<T>, i: nat)
    requires NoDup(s) && i < |s|
    ensures s == s[..i] + [s[i]] + s[i + 1..]
    ensures s[i] !in s[..i] && s[i] !in s[i + 1..]
    ensures NoDup(SpliceOut(s, i))
  {
    var r := SpliceOut(s, i);
    forall j, k | 0 <= j < k < |r| ensures r[j] != r[k] {
      assert r[j] == s[if j < i then j else j + 1] && r[k] == s[if k < i then k else k + 1];
    }
  }

  /** Removing the one occurrence by index is removing the element. */
  lemma SpliceOutIsWithout<T>(s: seq<T>, i: nat)
    requires NoDup(s) && i < |s|
    ensures SpliceOut(s, i) == Without(s, s[i])
    ensures NoDup(SpliceOut(s, i))
  {
    NoDupAt(s, i);
    hide Without, NoDup;
    WithoutMiddle(s[..i], s[i], s[i + 1..]);
  }

  /** Putting x in leaves the rest as it was. */
  lemma SpliceInWithout<T>(s: seq<T>, i: nat, x: T)
    requires NoDup(s) && x !in s && i <= |s|
    ensures NoDup(SpliceIn(s, i, x)) && Without(SpliceIn(s, i, x), x) == s
  {
    var r := SpliceIn(s, i, x);
    forall j, k | 0 <= j < k < |r| ensures r[j] != r[k] {
      assert r[j] == (if j < i then s[j] else if j == i then x else s[j - 1]);
      assert r[k] == (if k < i then s[k] else if k == i then x else s[k - 1]);
    }
    hide Without, NoDup;
    WithoutMiddle(s[..i], x, s[i..]);
    assert s[..i] + s[i..] == s;
  }

  lemma {:induction false} DedupNoDup<T>(s: seq<T>)
    ensures NoDup(Dedup(s))
    ensures NoDup(s) ==> Dedup(s) == s
    decreases |s|
  {
    if s != [] {
      var n := |s| - 1;
      DedupNoDup(s[..n]);
      DedupMembers(s[..n]);
      assert s == s[..n] + [s[n]];
      if NoDup(s) {
        assert s[n] !in s[..n];
      }
    }
  }

  /** An element already present earlier is no first occurrence. */
  lemma {:induction false} DedupSkips<T>(a: seq<T>, x: T, b: seq<T>)
    requires x in a
    ensures Dedup(a + [x] + b) == Dedup(a + b)
    decreases |b|
  {
    if b == [] {
      assert (a + [x] + b)[..|a|] == a && a + b == a;
    } else {
      var n := |b| - 1;
      var l, r := a + [x] + b, a + b;
      var l', r' := a + [x] + b[..n], a + b[..n];
      assert l[..|l| - 1] == l' && r[..|r| - 1] == r' && l[|l| - 1] == b[n] == r[|r| - 1];
      DedupSkips(a, x, b[..n]);
      assert b[n] in l' <==> b[n] in r';
    }
  }

  lemma SubstAt<T>(s: seq<T>, i: nat, b: T)
    requires NoDup(s) && i < |s|
    ensures Subst(s, s[i], b) == s[i := b]
  {
  }

  /** The replaced element takes its place, or the place of an earlier copy. */
  lemma ReplaceEarlier<T>(s: seq<T>, i: nat, k: nat)
    requires NoDup(s) && k < i < |s|
    ensures SpliceOut(s, i) == Dedup(Subst(s, s[i], s[k])) && NoDup(SpliceOut(s, i))
  {
    var t := s[i := s[k]];
    SubstAt(s, i, s[k]);
    NoDupAt(s, i);
    assert t == s[..i] + [s[k]] + s[i + 1..];
    assert s[k] == s[..i][k];
    hide NoDup, Dedup, Subst;
    DedupSkips(s[..i], s[k], s[i + 1..]);
    DedupNoDup(SpliceOut(s, i));
  }

  lemma ReplaceLater<T>(s: seq<T>, i: nat, k: nat)
    requires NoDup(s) && i < k < |s|
    ensures var t := s[i := s[k]];
            SpliceOut(t, k) == Dedup(Subst(s, s[i], s[k])) && NoDup(SpliceOut(t, k))
  {
    var t := s[i := s[k]];
    var r := SpliceOut(t, k);
    SubstAt(s, i, s[k]);
    forall a, b | 0 <= a < b < |r| ensures r[a] != r[b] {
      assert r[a] == t[if a < k then a else a + 1] && r[b] == t[if b < k then b else b + 1];
    }
    assert t == t[..k] + [t[k]] + t[k + 1..];
    assert t[k] == t[..k][i];
    hide NoDup, Dedup, Subst;
    DedupSkips(t[..k], t[k], t[k + 1..]);
    DedupNoDup(r);
  }

  lemma ReplaceAbsent<T>(s: seq<T>, i: nat, b: T)
    requires NoDup(s) && i < |s| && b !in s
    ensures s[i := b] == Dedup(Subst(s, s[i], b)) && NoDup(s[i := b])
  {
    SubstAt(s, i, b);
    DedupNoDup(s[i := b]);
  }

  lemma ReplaceNothing<T>(s: seq<T>, a: T, b: T)
    requires NoDup(s) && (a !in s || a == b)
    ensures Dedup(Subst(s, a, b)) == s
  {
    assert Subst(s, a, b) == s;
    DedupNoDup(s);
  }
}
