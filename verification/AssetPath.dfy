/** How the clean plugin turns asset names into paths below the output directory:
    a regular-expression replacement repeated until it changes nothing. */
module AssetPath {

  // ---------- the replacement, on characters ----------

  function ToSlashes(s: string): string {
    seq(|s|, i requires 0 <= i < |s| => if s[i] == '\\' then '/' else s[i])
  }

  /** The two names differ only in which way their slashes lean. */
  ghost predicate SlashesAlike(a: string, b: string) {
    |a| == |b| && forall i :: 0 <= i < |a| ==> a[i] == b[i] || (a[i] in "/\\" && b[i] in "/\\")
  }

  lemma AlikeToSlashes(a: string, b: string)
    requires SlashesAlike(a, b)
    ensures ToSlashes(a) == ToSlashes(b)
  {
  }

  /** Normalising leaves no backslash, and does nothing else with one than with a slash. */
  lemma SlashesOnly(asset: string)
    ensures '\\' !in Fixpoint(ToSlashes(asset))
    ensures '\\' !in asset ==> ToSlashes(asset) == asset
    ensures SlashesAlike(asset, ToSlashes(asset))
  {
    NothingNew(ToSlashes(asset), '\\');
  }

  /** Only characters of the name are left in it. */
  lemma {:induction false} NothingNew(s: string, c: char)
    requires c !in s
    ensures c !in Fixpoint(s)
    decreases |s|
  {
    PassShrinks(s, true);
    PassCopiesFrom(s, true, c);
    if Pass(s, true) != s {
      NothingNew(Pass(s, true), c);
    }
  }

  lemma {:induction false} PassCopiesFrom(s: string, atStart: bool, c: char)
    requires c !in s
    ensures c !in Pass(s, atStart)
    decreases |s|
  {
    if s != "" {
      var n := MatchLen(s);
      if atStart && n > 0 {
        PassCopiesFrom(s[n..], false, c);
      } else if s[0] == '/' && MatchLen(s[1..]) > 0 {
        PassCopiesFrom(s[1 + MatchLen(s[1..])..], false, c);
      } else {
        PassCopiesFrom(s[1..], false, c);
      }
    }
  }

  /** The number of characters before the first slash. */
  function SegLen(s: string): (n: nat)
    ensures n <= |s| && (forall i :: 0 <= i < n ==> s[i] != '/') && (n < |s| ==> s[n] == '/')
  {
    if s == "" || s[0] == '/' then 0 else 1 + SegLen(s[1..])
  }

  /** s starts with two dots. */
  predicate DotDot(s: string) {
    |s| >= 2 && s[0] == '.' && s[1] == '.'
  }

  /** s starts with "../". */
  predicate GoesUp(s: string) {
    |s| >= 3 && DotDot(s) && s[2] == '/'
  }

  /** The length of a match of "(?!\.\.)[^/]+/\.\./" at the front of s, or 0. */
  function MatchLen(s: string): (n: nat)
    ensures n <= |s|
  {
    var n := SegLen(s);
    if 0 < n < |s| && !DotDot(s) && GoesUp(s[n + 1..]) then n + 4 else 0
  }

  /** One global replacement pass; a match starts at the very front or takes the slash before it. */
  function Pass(s: string, atStart: bool): string
    decreases |s|
  {
    if s == "" then ""
    else if atStart && MatchLen(s) > 0 then Pass(s[MatchLen(s)..], false)
    else if s[0] == '/' && MatchLen(s[1..]) > 0 then "/" + Pass(s[1 + MatchLen(s[1..])..], false)
    else [s[0]] + Pass(s[1..], false)
  }

  /** A pass that changes the string makes it shorter. */
  lemma {:induction false} PassShrinks(s: string, atStart: bool)
    ensures Pass(s, atStart) == s || |Pass(s, atStart)| < |s|
    decreases |s|
  {
    if s != "" {
      if atStart && MatchLen(s) > 0 {
        PassShrinks(s[MatchLen(s)..], false);
      } else if s[0] == '/' && MatchLen(s[1..]) > 0 {
        PassShrinks(s[1 + MatchLen(s[1..])..], false);
      } else {
        PassShrinks(s[1..], false);
      }
    }
  }

  ghost function Fixpoint(s: string): string
    decreases |s|
  {
    PassShrinks(s, true);
    if Pass(s, true) == s then s else Fixpoint(Pass(s, true))
  }

  /** The do-while loop. */
  method Normalize(asset: string) returns (normalizedAsset: string)
    ensures normalizedAsset == Fixpoint(ToSlashes(asset))
    ensures Pass(normalizedAsset, true) == normalizedAsset && '\\' !in normalizedAsset
    ensures '\\' !in asset ==> normalizedAsset == Fixpoint(asset)
    ensures forall name :: SlashesAlike(asset, name) ==> normalizedAsset == Fixpoint(ToSlashes(name))
  {
    SlashesOnly(asset);
    forall name | SlashesAlike(asset, name) ensures ToSlashes(name) == ToSlashes(asset) {
      AlikeToSlashes(asset, name);
    }
    normalizedAsset := ToSlashes(asset);
    var newNormalizedAsset := Pass(normalizedAsset, true);
    while newNormalizedAsset != normalizedAsset
      invariant newNormalizedAsset == Pass(normalizedAsset, true)
      invariant Fixpoint(normalizedAsset) == Fixpoint(ToSlashes(asset))
      decreases |normalizedAsset|
    {
      PassShrinks(normalizedAsset, true);
      normalizedAsset := newNormalizedAsset;
      newNormalizedAsset := Pass(normalizedAsset, true);
    }
  }

  /** Which segment a "/../" behind it takes along: any but an empty one and one that starts with two dots. */
  lemma MatchesIff(a: string, rest: string)
    requires '/' !in a
    ensures MatchLen(a + "/../" + rest) == if a != "" && !(".." <= a) then |a| + 4 else 0
  {
    var s := a + "/../" + rest;
    assert s == a + "/" + ("../" + rest);
    SegLenOf(a, "../" + rest);
    assert s[|a| + 1..] == "../" + rest;
    if ".." <= a {
      assert s[0] == '.' && s[1] == '.';
    } else if |a| == 1 {
      assert s[1] == '/';
    }
  }

  /** The two tests on a name, in terms of what it starts with. */
  lemma StartsWith(s: string)
    ensures GoesUp(s) <==> "../" <= s
    ensures Absolute(s) <==>
      "/" <= s || "\\\\" <= s || exists c: char :: ('A' <= c <= 'Z' || 'a' <= c <= 'z') && [c, ':', '\\'] <= s
  {
    if Absolute(s) && |s| >= 3 && Letter(s[0]) {
      assert s[1] == ':' && s[2] == '\\' ==> [s[0], ':', '\\'] <= s;
    }
  }

  // ---------- the same on segments ----------

  function Split(s: string): (segs: seq<string>)
    ensures segs != []
    decreases |s|
  {
    var n := SegLen(s);
    if n == |s| then [s] else [s[..n]] + Split(s[n + 1..])
  }

  /** The segment "..". */
  predicate IsUp(a: string) {
    |a| == 2 && DotDot(a)
  }

  predicate Cancels(a: string, b: string) {
    a != "" && !DotDot(a) && IsUp(b)
  }

  /** One pass: a segment and the ".." after it go when something follows; the segment that
      follows is copied, because its slash has been used up. */
  function SegPass(segs: seq<string>): seq<string> {
    if |segs| >= 3 && Cancels(segs[0], segs[1]) then [segs[2]] + SegPass(segs[3..])
    else if segs == [] then []
    else [segs[0]] + SegPass(segs[1..])
  }

  lemma {:induction false} SegLenOf(a: string, b: string)
    requires '/' !in a
    ensures SegLen(a + "/" + b) == |a|
    decreases |a|
  {
    if a != "" {
      assert (a + "/" + b)[1..] == a[1..] + "/" + b;
      SegLenOf(a[1..], b);
    }
  }

  lemma SplitAt(a: string, b: string)
    requires '/' !in a
    ensures Split(a + "/" + b) == [a] + Split(b)
  {
    var s := a + "/" + b;
    SegLenOf(a, b);
    assert s[..|a|] == a && s[|a| + 1..] == b;
  }

  lemma {:induction false} WholeSegment(s: string)
    requires '/' !in s
    ensures SegLen(s) == |s|
  {
    assert forall i :: 0 <= i < |s| ==> s[i] in s;
  }

  lemma GoesUpIsUp(t: string)
    ensures GoesUp(t) <==> SegLen(t) < |t| && IsUp(t[..SegLen(t)])
  {
    if GoesUp(t) {
      SegLenOf(t[..2], t[3..]);
      assert t == t[..2] + "/" + t[3..];
    }
  }

  lemma SplitFirst(s: string)
    ensures var n := SegLen(s);
            Split(s) == if n == |s| then [s] else [s[..n]] + Split(s[n + 1..])
  {
    hide SegLen;
  }

  lemma MatchShape(s: string, t: string)
    requires SegLen(s) < |s| && t == s[SegLen(s) + 1..]
    ensures MatchLen(s) > 0 <==> s[..SegLen(s)] != "" && !DotDot(s[..SegLen(s)]) && GoesUp(t)
    ensures MatchLen(s) > 0 ==> MatchLen(s) == SegLen(s) + 4 && s[MatchLen(s)..] == t[3..]
  {
    assert SegLen(s) > 0 ==> (DotDot(s) <==> DotDot(s[..SegLen(s)]));
  }

  lemma MatchIsCancel(s: string)
    ensures MatchLen(s) > 0 <==> |Split(s)| >= 3 && Cancels(Split(s)[0], Split(s)[1])
    ensures MatchLen(s) > 0 ==> Split(s[MatchLen(s)..]) == Split(s)[2..]
  {
    var n := SegLen(s);
    SplitFirst(s);
    hide Split;
    if n < |s| {
      var t := s[n + 1..];
      var m := SegLen(t);
      MatchShape(s, t);
      SplitFirst(t);
      GoesUpIsUp(t);
      assert m < |t| && IsUp(t[..m]) ==> m == 2;
      hide MatchLen, GoesUp, DotDot, IsUp, SegLen;
      if m < |t| {
        assert Split(s) == [s[..n], t[..m]] + Split(t[m + 1..]);
      }
    }
  }

  // a pass on characters is a pass on segments

  function Avail(s: string): string {
    if MatchLen(s) > 0 then Pass(s[MatchLen(s)..], false) else Pass(s, false)
  }

  lemma StartIsAvail(s: string)
    ensures Pass(s, true) == Avail(s)
  {
  }

  /** Away from a slash the pass copies. */
  lemma {:induction false} PassCopies(a: string, t: string)
    requires '/' !in a
    ensures Pass(a + t, false) == a + Pass(t, false)
    decreases |a|
  {
    if a == "" {
      assert a + t == t;
    } else {
      assert (a + t)[1..] == a[1..] + t;
      PassCopies(a[1..], t);
      assert Pass(a + t, false) == [a[0]] + Pass(a[1..] + t, false);
      hide Pass;
      assert [a[0]] + (a[1..] + Pass(t, false)) == a + Pass(t, false);
    }
  }

  lemma PassAtSlash(s: string)
    requires s != "" && s[0] == '/'
    ensures Pass(s, false) == "/" + Avail(s[1..])
  {
    var t := s[1..];
    if MatchLen(t) > 0 {
      assert s[1 + MatchLen(t)..] == t[MatchLen(t)..];
    }
  }

  function SegCopy(segs: seq<string>): seq<string> {
    if segs == [] then [] else [segs[0]] + SegPass(segs[1..])
  }

  lemma {:induction false} CopySegments(s: string)
    ensures Split(Pass(s, false)) == SegCopy(Split(s))
    decreases |s|, 0
  {
    hide *;
    var n := SegLen(s);
    if n == |s| {
      CopyWhole(s);
    } else {
      var h, t := s[..n], s[n + 1..];
      CopyFirst(s);
      AvailSegments(t);
      NoSlashBefore(h);
      SplitAt(h, Avail(t));
      SplitFirst(s);
      SegCopyCons(h, Split(t));
    }
  }

  lemma SegCopyCons(h: string, rest: seq<string>)
    ensures SegCopy([h] + rest) == [h] + SegPass(rest)
  {
    assert ([h] + rest)[1..] == rest;
  }

  lemma CopyWhole(s: string)
    requires SegLen(s) == |s|
    ensures Split(Pass(s, false)) == SegCopy(Split(s))
  {
    NoSlashBefore(s);
    assert s + "" == s;
    PassCopies(s, "");
    EmptyPass();
    SplitFirst(s);
    assert [s][1..] == [];
  }

  lemma Assoc(a: string, b: string, c: string)
    ensures a + (b + c) == a + b + c
  {
  }

  lemma CutAt(s: string, n: nat)
    requires n < |s|
    ensures s == s[..n] + s[n..] && s[n..][0] == s[n] && s[n..][1..] == s[n + 1..]
  {
  }

  lemma CopyFirst(s: string)
    requires SegLen(s) < |s|
    ensures Pass(s, false) == s[..SegLen(s)] + "/" + Avail(s[SegLen(s) + 1..])
  {
    var n := SegLen(s);
    CutAt(s, n);
    assert s[n] == '/';
    NoSlashBefore(s[..n]);
    hide *;
    PassCopies(s[..n], s[n..]);
    PassAtSlash(s[n..]);
    Assoc(s[..n], "/", Avail(s[n + 1..]));
  }

  lemma NoSlashBefore(a: string)
    requires forall i :: 0 <= i < |a| ==> a[i] != '/'
    ensures '/' !in a
  {
  }

  lemma EmptyPass()
    ensures Pass("", false) == "" && SegPass([]) == []
  {
  }

  lemma {:induction false} AvailSegments(s: string)
    ensures Split(Avail(s)) == SegPass(Split(s))
    decreases |s|, 1
  {
    MatchIsCancel(s);
    if MatchLen(s) > 0 {
      var u := s[MatchLen(s)..];
      CopySegments(u);
      assert Split(u)[1..] == Split(s)[3..];
    } else {
      CopySegments(s);
    }
  }

  // ---------- what the result means ----------

  /** Path resolution on a stack: empty and "." segments stay put, ".." goes up. */
  function Resolve(segs: seq<string>, at: seq<string>): seq<string> {
    if segs == [] then at else Resolve(segs[1..], Enter(at, segs[0]))
  }

  function Enter(at: seq<string>, seg: string): seq<string> {
    if seg == "" || seg == "." then at
    else if !IsUp(seg) then at + [seg]
    else if at != [] && !IsUp(at[|at| - 1]) then at[..|at| - 1]
    else at + [seg]
  }

  /** Segments as asset names normally have them. */
  ghost predicate Plain(segs: seq<string>) {
    forall i :: 0 <= i < |segs| ==> segs[i] != "" && segs[i] != "." && (DotDot(segs[i]) ==> IsUp(segs[i]))
  }

  /** A replaced pair of segments leads back to where it started exactly when the first is not ".". */
  lemma CancelStaysPut(at: seq<string>, a: string, b: string)
    requires Cancels(a, b)
    ensures Enter(Enter(at, a), b) == at <==> a != "."
  {
    assert !IsUp(a);
    assert (at + [a])[..|at|] == at;
    assert |Enter(at, b)| != |at|;
  }

  /** A pass only drops segments, never the last. */
  lemma {:induction false} SegPassKeepsLast(segs: seq<string>)
    ensures |SegPass(segs)| <= |segs|
    ensures segs != [] ==> SegPass(segs) != [] && SegPass(segs)[|SegPass(segs)| - 1] == segs[|segs| - 1]
    decreases |segs|
  {
    if |segs| >= 3 && Cancels(segs[0], segs[1]) {
      SegPassKeepsLast(segs[3..]);
    } else if segs != [] {
      SegPassKeepsLast(segs[1..]);
    }
  }

  // ---------- one scan with a stack ----------

  /** Pushes segment after segment; a ".." that something follows takes the segment before it off. */
  function Scan(segs: seq<string>, st: seq<string>): seq<string>
    decreases |segs|
  {
    if |segs| <= 1 then st + segs
    else if st != [] && Cancels(st[|st| - 1], segs[0]) then Scan(segs[1..], st[..|st| - 1])
    else Scan(segs[1..], st + [segs[0]])
  }

  /** Some "." is matched by a later ".." that something follows. */
  predicate DotMatched(segs: seq<string>, st: seq<string>)
    decreases |segs|
  {
    if |segs| <= 1 then false
    else if st != [] && Cancels(st[|st| - 1], segs[0]) then st[|st| - 1] == "." || DotMatched(segs[1..], st[..|st| - 1])
    else DotMatched(segs[1..], st + [segs[0]])
  }

  /** The "." segments that a pass cancels. */
  function DotsInPass(segs: seq<string>): nat
    decreases |segs|
  {
    if |segs| >= 3 && Cancels(segs[0], segs[1]) then (if segs[0] == "." then 1 else 0) + DotsInPass(segs[3..])
    else if segs == [] then 0
    else DotsInPass(segs[1..])
  }

  lemma ScanStep(x: string, rest: seq<string>, st: seq<string>)
    requires rest != []
    ensures var up := st != [] && Cancels(st[|st| - 1], x);
      var st' := if up then st[..|st| - 1] else st + [x];
      && Scan([x] + rest, st) == Scan(rest, st')
      && (DotMatched([x] + rest, st) <==> (up && st[|st| - 1] == ".") || DotMatched(rest, st'))
  {
    assert ([x] + rest)[1..] == rest;
  }

  lemma ScanPair(a: string, b: string, rest: seq<string>, st: seq<string>)
    requires Cancels(a, b) && rest != []
    ensures Scan([a, b] + rest, st) == Scan(rest, st)
    ensures DotMatched([a, b] + rest, st) <==> a == "." || DotMatched(rest, st)
  {
    assert !IsUp(a) && (st != [] ==> !Cancels(st[|st| - 1], a));
    assert (st + [a])[..|st|] == st && (st + [a])[|st|] == a;
    assert [a, b] + rest == [a] + ([b] + rest);
    hide *;
    ScanStep(a, [b] + rest, st);
    ScanStep(b, rest, st + [a]);
  }

  /** A pass does not change what the scan comes to. */
  lemma {:induction false} ScanPass(segs: seq<string>, st: seq<string>)
    ensures Scan(SegPass(segs), st) == Scan(segs, st)
    ensures DotMatched(segs, st) <==> DotsInPass(segs) > 0 || DotMatched(SegPass(segs), st)
    decreases |segs|, 0
  {
    if |segs| >= 3 && Cancels(segs[0], segs[1]) {
      var x, rest := segs[2], segs[3..];
      assert segs == [segs[0], segs[1]] + ([x] + rest);
      ScanPair(segs[0], segs[1], [x] + rest, st);
      ScanPassRest(x, rest, st);
    } else if segs != [] {
      assert segs == [segs[0]] + segs[1..];
      ScanPassRest(segs[0], segs[1..], st);
    }
  }

  lemma {:induction false} ScanPassRest(x: string, rest: seq<string>, st: seq<string>)
    ensures Scan([x] + SegPass(rest), st) == Scan([x] + rest, st)
    ensures DotMatched([x] + rest, st) <==> DotsInPass(rest) > 0 || DotMatched([x] + SegPass(rest), st)
    decreases |rest|, 1
  {
    SegPassKeepsLast(rest);
    if rest != [] {
      ScanStep(x, rest, st);
      ScanStep(x, SegPass(rest), st);
      ScanPass(rest, if st != [] && Cancels(st[|st| - 1], x) then st[..|st| - 1] else st + [x]);
    }
  }

  ghost predicate NoCancel(segs: seq<string>) {
    forall i :: 0 <= i < |segs| - 2 ==> !Cancels(segs[i], segs[i + 1])
  }

  lemma {:induction false} FixedHasNoCancel(segs: seq<string>)
    ensures |SegPass(segs)| <= |segs|
    ensures |SegPass(segs)| == |segs| ==> NoCancel(segs)
    decreases |segs|
  {
    if |segs| >= 3 && Cancels(segs[0], segs[1]) {
      FixedHasNoCancel(segs[3..]);
    } else if segs != [] {
      var t := segs[1..];
      FixedHasNoCancel(t);
      if |SegPass(segs)| == |segs| {
        forall i | 0 <= i < |segs| - 2 ensures !Cancels(segs[i], segs[i + 1]) {
          if i > 0 {
            assert t[i - 1] == segs[i] && t[i] == segs[i + 1];
          }
        }
      }
    }
  }

  /** Where nothing cancels, the scan only pushes. */
  lemma {:induction false} ScanFixed(segs: seq<string>, st: seq<string>)
    requires NoCancel(segs) && (st != [] && |segs| >= 2 ==> !Cancels(st[|st| - 1], segs[0]))
    ensures Scan(segs, st) == st + segs && !DotMatched(segs, st)
    decreases |segs|
  {
    if |segs| >= 2 {
      var t := segs[1..];
      forall i | 0 <= i < |t| - 2 ensures !Cancels(t[i], t[i + 1]) {
        assert t[i] == segs[i + 1] && t[i + 1] == segs[i + 2];
      }
      ScanFixed(t, st + [segs[0]]);
      assert (st + [segs[0]]) + t == st + segs;
    }
  }

  // ---------- heights ----------

  /** How much deeper a segment leads. */
  function Rise(a: string): int {
    if a == "" || a == "." then 0 else if IsUp(a) then -1 else 1
  }

  function Height(segs: seq<string>): int {
    if segs == [] then 0 else Rise(segs[0]) + Height(segs[1..])
  }

  lemma HeightOf(x: string, rest: seq<string>)
    ensures Height([x] + rest) == Rise(x) + Height(rest)
  {
    assert ([x] + rest)[1..] == rest;
  }

  /** A cancelled "." leaves the path one higher. */
  lemma {:induction false} PassHeight(segs: seq<string>)
    ensures Height(SegPass(segs)) == Height(segs) + DotsInPass(segs)
    decreases |segs|
  {
    if |segs| >= 3 && Cancels(segs[0], segs[1]) {
      PassHeight(segs[3..]);
      HeightOf(segs[2], SegPass(segs[3..]));
      HeightOf(segs[2], segs[3..]);
      HeightOf(segs[1], [segs[2]] + segs[3..]);
      HeightOf(segs[0], [segs[1]] + ([segs[2]] + segs[3..]));
      assert segs == [segs[0]] + ([segs[1]] + ([segs[2]] + segs[3..]));
      assert !IsUp(segs[0]);
    } else if segs != [] {
      PassHeight(segs[1..]);
      HeightOf(segs[0], SegPass(segs[1..]));
    }
  }

  /** A resolved path: names and "..". */
  ghost predicate Solid(at: seq<string>) {
    forall i :: 0 <= i < |at| ==> at[i] != "" && at[i] != "."
  }

  lemma {:induction false} HeightSnoc(at: seq<string>, x: string)
    ensures Height(at + [x]) == Height(at) + Rise(x)
    decreases |at|
  {
    if at == [] {
      assert at + [x] == [x];
      HeightOf(x, []);
    } else {
      HeightSnoc(at[1..], x);
      assert (at + [x])[1..] == at[1..] + [x];
    }
  }

  lemma EnterHeight(at: seq<string>, x: string)
    requires Solid(at)
    ensures Solid(Enter(at, x)) && Height(Enter(at, x)) == Height(at) + Rise(x)
  {
    HeightSnoc(at, x);
    if at != [] {
      HeightSnoc(at[..|at| - 1], at[|at| - 1]);
      assert at[..|at| - 1] + [at[|at| - 1]] == at;
    }
  }

  /** Locations of different heights are different. */
  lemma {:induction false} ResolveHeight(segs: seq<string>, at: seq<string>)
    requires Solid(at)
    ensures Solid(Resolve(segs, at)) && Height(Resolve(segs, at)) == Height(at) + Height(segs)
    decreases |segs|
  {
    if segs != [] {
      EnterHeight(at, segs[0]);
      hide Enter;
      ResolveHeight(segs[1..], Enter(at, segs[0]));
    }
  }

  /** A pass that cancels no "." keeps the location. */
  lemma {:induction false} SegPassKeeps(segs: seq<string>, at: seq<string>)
    requires DotsInPass(segs) == 0
    ensures Resolve(SegPass(segs), at) == Resolve(segs, at)
    decreases |segs|
  {
    if |segs| >= 3 && Cancels(segs[0], segs[1]) {
      CancelStaysPut(at, segs[0], segs[1]);
      var rest := SegPass(segs[3..]);
      SegPassKeeps(segs[3..], Enter(at, segs[2]));
      assert SegPass(segs) == [segs[2]] + rest;
      hide SegPass, Enter, Cancels;
      assert segs[1..][1..] == segs[2..] && segs[2..][1..] == segs[3..];
      assert Resolve(segs, at) == Resolve(segs[1..], Enter(at, segs[0]));
      assert Resolve(segs[1..], Enter(at, segs[0])) == Resolve(segs[2..], at);
      assert ([segs[2]] + rest)[1..] == rest;
    } else if segs != [] {
      var rest := SegPass(segs[1..]);
      SegPassKeeps(segs[1..], Enter(at, segs[0]));
      assert SegPass(segs) == [segs[0]] + rest;
      hide SegPass, Enter, Cancels;
      assert ([segs[0]] + rest)[1..] == rest;
    }
  }

  // ---------- the loop ----------

  lemma OnePass(s: string)
    ensures Split(Pass(s, true)) == SegPass(Split(s))
  {
    hide *;
    StartIsAvail(s);
    AvailSegments(s);
  }

  lemma FixedSegments(r: string)
    requires Pass(r, true) == r
    ensures Scan(Split(r), []) == Split(r) && !DotMatched(Split(r), [])
  {
    hide *;
    OnePass(r);
    FixedHasNoCancel(Split(r));
    ScanFixed(Split(r), []);
    assert [] + Split(r) == Split(r);
  }

  /** What the loop does to a name: the scan, and the height and location it comes to. */
  lemma {:induction false} FixpointScans(s: string)
    ensures var r := Split(Fixpoint(s));
      && r == Scan(Split(s), []) && Height(r) >= Height(Split(s))
      && (DotMatched(Split(s), []) <==> Height(r) > Height(Split(s)))
      && (!DotMatched(Split(s), []) ==> Resolve(r, []) == Resolve(Split(s), []))
    decreases |s|
  {
    hide Pass, Split, SegPass, Resolve, Scan, DotMatched, Height, DotsInPass;
    if Pass(s, true) == s {
      FixedSegments(s);
    } else {
      PassShrinks(s, true);
      OnePass(s);
      ScanPass(Split(s), []);
      PassHeight(Split(s));
      FixpointScans(Pass(s, true));
      if DotsInPass(Split(s)) == 0 {
        SegPassKeeps(Split(s), []);
      }
    }
  }

  /** For every name: normalising comes to one scan of its segments. */
  lemma NormalizedIsScan(asset: string)
    ensures Split(Fixpoint(ToSlashes(asset))) == Scan(Split(ToSlashes(asset)), [])
  {
    FixpointScans(ToSlashes(asset));
  }

  /** Normalising keeps the location of a name, if and only if no "." in it is matched by a later ".."
      that something follows. */
  lemma NormalizedKeepsLocationIff(asset: string)
    ensures Resolve(Split(Fixpoint(ToSlashes(asset))), []) == Resolve(Split(ToSlashes(asset)), [])
      <==> !DotMatched(Split(ToSlashes(asset)), [])
  {
    var s := ToSlashes(asset);
    hide *;
    FixpointScans(s);
    NothingSolid();
    ResolveHeight(Split(s), []);
    ResolveHeight(Split(Fixpoint(s)), []);
  }

  lemma NothingSolid()
    ensures Solid([])
  {
  }

  /** A name without "." segments has none to match. */
  lemma {:induction false} NoDotNoMatch(segs: seq<string>, st: seq<string>)
    requires "." !in segs && "." !in st
    ensures !DotMatched(segs, st)
    decreases |segs|
  {
    if |segs| > 1 {
      if st != [] && Cancels(st[|st| - 1], segs[0]) {
        NoDotNoMatch(segs[1..], st[..|st| - 1]);
      } else {
        NoDotNoMatch(segs[1..], st + [segs[0]]);
      }
    }
  }

  // ---------- plain names ----------

  /** On plain segments the scan is path resolution, but for the last segment, which is only pushed. */
  lemma {:induction false} PlainScan(init: seq<string>, last: string, st: seq<string>)
    requires Plain(init) && Plain(st)
    ensures Scan(init + [last], st) == Resolve(init, st) + [last]
    decreases |init|
  {
    if init == [] {
      assert init + [last] == [last];
    } else {
      var x, rest := init[0], init[1..];
      assert Plain([x]) && Plain(rest);
      PlainEnter(st, x);
      FirstOf(init, last);
      hide Plain, Enter, Scan;
      ScanStep(x, rest + [last], st);
      PlainScan(rest, last, Enter(st, x));
    }
  }

  lemma FirstOf(init: seq<string>, last: string)
    requires init != []
    ensures init + [last] == [init[0]] + (init[1..] + [last])
  {
  }

  lemma PlainEnter(st: seq<string>, x: string)
    requires Plain(st) && Plain([x])
    ensures Plain(Enter(st, x))
    ensures Enter(st, x) == if st != [] && Cancels(st[|st| - 1], x) then st[..|st| - 1] else st + [x]
  {
    assert [x][0] == x;
  }

  lemma {:induction false} ResolveSnoc(segs: seq<string>, x: string, at: seq<string>)
    ensures Resolve(segs + [x], at) == Enter(Resolve(segs, at), x)
    decreases |segs|
  {
    hide Enter;
    if segs == [] {
      assert segs + [x] == [x] && [x][1..] == [];
      assert Resolve([], Enter(at, x)) == Enter(at, x);
    } else {
      ResolveSnoc(segs[1..], x, Enter(at, segs[0]));
      assert (segs + [x])[1..] == segs[1..] + [x];
    }
  }

  lemma EnterName(at: seq<string>, x: string)
    requires x != "" && x != "."
    ensures !IsUp(x) ==> Enter(at, x) == at + [x]
  {
  }

  /** A plain name is normalised to its resolved directory and its last segment; that is its resolved
      path unless it ends in "..". */
  lemma NormalizedIsResolved(asset: string)
    requires Plain(Split(ToSlashes(asset)))
    ensures var segs := Split(ToSlashes(asset));
      var init, last := segs[..|segs| - 1], segs[|segs| - 1];
      && Split(Fixpoint(ToSlashes(asset))) == Resolve(init, []) + [last]
      && Resolve(segs, []) == Enter(Resolve(init, []), last)
      && (!IsUp(last) ==> Split(Fixpoint(ToSlashes(asset))) == Resolve(segs, []))
  {
    var segs := Split(ToSlashes(asset));
    NormalizedIsScan(asset);
    hide Fixpoint, ToSlashes, Split, Scan, Resolve, Enter;
    PlainForm(segs, segs[..|segs| - 1], segs[|segs| - 1]);
  }

  lemma PlainForm(segs: seq<string>, init: seq<string>, last: string)
    requires Plain(segs) && segs == init + [last]
    ensures Scan(segs, []) == Resolve(init, []) + [last]
    ensures Resolve(segs, []) == Enter(Resolve(init, []), last)
    ensures !IsUp(last) ==> Enter(Resolve(init, []), last) == Resolve(init, []) + [last]
  {
    assert segs[|init|] == last && Plain([]);
    assert forall i :: 0 <= i < |init| ==> init[i] == segs[i];
    assert Plain(init) && last != "" && last != ".";
    hide *;
    PlainScan(init, last, []);
    ResolveSnoc(init, last, []);
    EnterName(Resolve(init, []), last);
  }

  /** at starts with "..". */
  predicate Outside(at: seq<string>) {
    at != [] && IsUp(at[0])
  }

  /** The final test: a plain name is skipped exactly when it lies outside the output directory and has
      not come to "..", which lies outside too and is not skipped. */
  lemma SkippedIsOutside(asset: string)
    requires Plain(Split(ToSlashes(asset)))
    ensures GoesUp(Fixpoint(ToSlashes(asset))) <==>
              Outside(Resolve(Split(ToSlashes(asset)), [])) && Fixpoint(ToSlashes(asset)) != ".."
  {
    var segs, r := Split(ToSlashes(asset)), Fixpoint(ToSlashes(asset));
    NormalizedIsResolved(asset);
    hide Fixpoint, Resolve, Plain, ToSlashes;
    var at := Resolve(segs[..|segs| - 1], []);
    FirstSegment(r);
    hide GoesUp, Split;
    EnterOutside(at, segs[|segs| - 1]);
    assert Split(r) == at + [segs[|segs| - 1]];
  }

  lemma EnterOutside(at: seq<string>, last: string)
    requires last != "" && last != "."
    ensures Outside(Enter(at, last)) && !(at == [] && IsUp(last)) <==> Outside(at)
  {
  }

  lemma FirstSegment(r: string)
    ensures GoesUp(r) <==> |Split(r)| > 1 && IsUp(Split(r)[0])
    ensures r == ".." <==> |Split(r)| == 1 && IsUp(Split(r)[0])
  {
    GoesUpIsUp(r);
    SplitFirst(r);
    assert IsUp("..");
    assert r[..|r|] == r;
    if IsUp(r) {
      assert r == "..";
    }
    if r == ".." {
      assert '/' !in "..";
      WholeSegment(r);
    }
  }

  /** Any ".." comes before everything else. */
  ghost predicate UpsLead(at: seq<string>) {
    forall i, j :: 0 <= i < j < |at| && IsUp(at[j]) ==> IsUp(at[i])
  }

  ghost predicate OnlyUps(at: seq<string>) {
    forall i :: 0 <= i < |at| ==> IsUp(at[i])
  }

  lemma EnterUps(at: seq<string>, x: string)
    requires UpsLead(at)
    ensures UpsLead(Enter(at, x))
  {
  }

  /** Resolving leaves ".." in front only. */
  lemma {:induction false} ResolveUps(segs: seq<string>, at: seq<string>)
    requires UpsLead(at)
    ensures UpsLead(Resolve(segs, at))
    decreases |segs|
  {
    if segs != [] {
      EnterUps(at, segs[0]);
      hide UpsLead, Enter;
      ResolveUps(segs[1..], Enter(at, segs[0]));
    }
  }

  /** In a normalised plain name every ".." stands in front, if and only if the name does not end in "..", or
      its directory is the output directory or one straight above it. */
  lemma NormalizedUpsLeadIff(asset: string)
    requires Plain(Split(ToSlashes(asset)))
    ensures var segs := Split(ToSlashes(asset));
      var init, last := segs[..|segs| - 1], segs[|segs| - 1];
      UpsLead(Split(Fixpoint(ToSlashes(asset)))) <==> !IsUp(last) || OnlyUps(Resolve(init, []))
  {
    var segs := Split(ToSlashes(asset));
    var init, last := segs[..|segs| - 1], segs[|segs| - 1];
    NormalizedIsResolved(asset);
    hide Fixpoint, ToSlashes, Split, Resolve, Enter, Plain;
    ResolveUps(init, []);
    LastUp(Resolve(init, []), last);
  }

  lemma LastUp(at: seq<string>, last: string)
    requires UpsLead(at)
    ensures UpsLead(at + [last]) <==> !IsUp(last) || OnlyUps(at)
  {
    var all := at + [last];
    if UpsLead(all) && IsUp(last) {
      forall i | 0 <= i < |at| ensures IsUp(at[i]) {
        assert all[i] == at[i] && all[|at|] == last;
      }
    }
  }

  // ---------- the final test on any name ----------

  /** The stack after segments that are all followed by others. */
  function Stack(segs: seq<string>, st: seq<string>): seq<string> {
    if segs == [] then st else Stack(segs[1..], Pushed(st, segs[0]))
  }

  function Pushed(st: seq<string>, x: string): seq<string> {
    if st != [] && Cancels(st[|st| - 1], x) then st[..|st| - 1] else st + [x]
  }

  /** Some ".." that something follows meets an empty stack. */
  ghost predicate ClimbsOut(segs: seq<string>, st: seq<string>) {
    exists i :: 0 <= i < |segs| - 1 && IsUp(segs[i]) && Stack(segs[..i], st) == []
  }

  /** The segment at the bottom of the stack stays there if it is "..". */
  lemma {:induction false} BottomStays(segs: seq<string>, st: seq<string>)
    requires st != [] && IsUp(st[0]) && segs != []
    ensures |Scan(segs, st)| > 1 && IsUp(Scan(segs, st)[0])
    decreases |segs|
  {
    if |segs| > 1 {
      if Cancels(st[|st| - 1], segs[0]) {
        BottomStays(segs[1..], st[..|st| - 1]);
      } else {
        BottomStays(segs[1..], st + [segs[0]]);
      }
    }
  }

  /** ClimbsOut, one segment on. */
  lemma ClimbsOutStep(segs: seq<string>, st: seq<string>)
    requires |segs| > 1
    ensures ClimbsOut(segs, st) <==> (IsUp(segs[0]) && st == []) || ClimbsOut(segs[1..], Pushed(st, segs[0]))
  {
    var rest, st' := segs[1..], Pushed(st, segs[0]);
    hide Pushed, IsUp;
    forall i | 0 <= i < |rest| ensures Stack(segs[..i + 1], st) == Stack(rest[..i], st') && segs[i + 1] == rest[i] {
      assert segs[..i + 1][1..] == rest[..i];
    }
    if i :| 0 <= i < |segs| - 1 && IsUp(segs[i]) && Stack(segs[..i], st) == [] {
      if i > 0 {
        assert segs[i] == rest[i - 1] && Stack(rest[..i - 1], st') == [];
      }
    }
    if i :| 0 <= i < |rest| - 1 && IsUp(rest[i]) && Stack(rest[..i], st') == [] {
      assert Stack(segs[..i + 1], st) == [] && IsUp(segs[i + 1]);
    }
    if IsUp(segs[0]) && st == [] {
      assert Stack(segs[..0], st) == [];
    }
  }

  lemma {:induction false} ScanClimbs(segs: seq<string>, st: seq<string>)
    requires segs != [] && (st == [] || !IsUp(st[0]))
    ensures |Scan(segs, st)| > 1 && IsUp(Scan(segs, st)[0]) <==> ClimbsOut(segs, st)
    decreases |segs|
  {
    if |segs| > 1 {
      var rest, st' := segs[1..], Pushed(st, segs[0]);
      ClimbsOutStep(segs, st);
      assert Scan(segs, st) == Scan(rest, st');
      if IsUp(segs[0]) && st == [] {
        BottomStays(rest, st');
      } else {
        ScanClimbs(rest, st');
      }
    } else {
      assert st == [] ==> Scan(segs, st) == segs;
    }
  }

  /** The final test, on any name: it is skipped exactly when some ".." in it that something follows has no
      segment left before it to take off. */
  lemma SkippedIff(asset: string)
    ensures GoesUp(Fixpoint(ToSlashes(asset))) <==> ClimbsOut(Split(ToSlashes(asset)), [])
  {
    hide *;
    NormalizedIsScan(asset);
    FirstSegment(Fixpoint(ToSlashes(asset)));
    ScanClimbs(Split(ToSlashes(asset)), []);
  }

  /** What is skipped lies outside the output directory, as it is normalised. */
  lemma {:induction false} StaysOutside(segs: seq<string>, at: seq<string>)
    requires Outside(at)
    ensures Outside(Resolve(segs, at))
    decreases |segs|
  {
    if segs != [] {
      assert Outside(Enter(at, segs[0]));
      StaysOutside(segs[1..], Enter(at, segs[0]));
    }
  }

  lemma SkippedLiesOutside(asset: string)
    requires GoesUp(Fixpoint(ToSlashes(asset)))
    ensures Outside(Resolve(Split(Fixpoint(ToSlashes(asset))), []))
  {
    var r := Fixpoint(ToSlashes(asset));
    FirstSegment(r);
    hide Fixpoint, ToSlashes, Split, GoesUp;
    var segs := Split(r);
    assert Enter([], segs[0]) == [segs[0]];
    StaysOutside(segs[1..], [segs[0]]);
  }

  /** A "." segment is taken for a directory, so the asset is moved: "./../a" becomes "a". */
  lemma DotSegmentMoves()
    ensures Fixpoint("./../a") == "a"
    ensures Resolve(Split("./../a"), []) == ["..", "a"] && Resolve(Split("a"), []) == ["a"]
  {
    DotPass();
    DotSplit();
    hide Pass, Split;
    assert Enter([], ".") == [] && Enter([], "..") == [".."];
    assert Resolve(["..", "a"], []) == Resolve(["a"], [".."]) == Resolve([], ["..", "a"]);
  }

  lemma DotPass()
    ensures Pass("./../a", true) == "a" && Pass("a", true) == "a"
  {
    assert "./../a"[2..] == "../a" && "./../a"[5..] == "a";
    assert MatchLen("./../a") == 5;
    assert Pass("a", false) == "a" && Pass("a", true) == "a";
  }

  lemma DotSplit()
    ensures Split("./../a") == [".", "..", "a"] && Split("a") == ["a"]
  {
    SplitWhole("a");
    SplitAt("..", "a");
    assert "../a" == ".." + "/" + "a";
    SplitAt(".", "../a");
    assert "./../a" == "." + "/" + "../a";
  }

  // ---------- collecting the assets of a compilation ----------

  predicate Letter(c: char) {
    'A' <= c <= 'Z' || 'a' <= c <= 'z'
  }

  /** A drive, a leading slash or two leading backslashes. */
  predicate Absolute(s: string) {
    || (|s| >= 3 && Letter(s[0]) && s[1] == ':' && s[2] == '\\')
    || (|s| >= 1 && s[0] == '/')
    || (|s| >= 2 && s[0] == '\\' && s[1] == '\\')
  }

  /** The name x comes from the given asset name, which is neither absolute nor outside. */
  ghost predicate ComesFrom(name: string, x: string) {
    !Absolute(name) && !GoesUp(x) && x == Fixpoint(ToSlashes(name))
  }

  ghost predicate Collected(names: seq<string>, x: string) {
    exists name :: name in names && ComesFrom(name, x)
  }

  method CollectAssets(names: seq<string>) returns (currentAssets: set<string>)
    ensures forall x :: x in currentAssets <==> Collected(names, x)
    ensures forall x :: x in currentAssets ==> '\\' !in x && !("../" <= x)
  {
    currentAssets := {};
    hide Fixpoint, ToSlashes, Pass, GoesUp, Absolute;
    for i := 0 to |names|
      invariant forall x :: x in currentAssets <==> Collected(names[..i], x)
    {
      if !Absolute(names[i]) {
        var normalizedAsset := Normalize(names[i]);
        if !GoesUp(normalizedAsset) {
          currentAssets := currentAssets + {normalizedAsset};
        }
      }
      forall x ensures Collected(names[..i + 1], x) <==> Collected(names[..i], x) || ComesFrom(names[i], x) {
        assert names[..i + 1] == names[..i] + [names[i]];
      }
    }
    assert names[..|names|] == names;
    forall x | x in currentAssets ensures '\\' !in x && !("../" <= x) {
      var name :| name in names && ComesFrom(name, x);
      SlashesOnly(name);
      StartsWith(x);
    }
  }

  // ---------- names as strings and names as segment lists ----------

  /** The output path itself is the empty name. */
  function PathOf(name: string): seq<string> {
    if name == "" then [] else Split(name)
  }

  /** name.replace(/(^|\/)[^/]*$/, "") */
  function Dirname(name: string): string {
    if name == "" || '/' !in name then ""
    else if name[|name| - 1] == '/' then name[..|name| - 1]
    else Dirname(name[..|name| - 1])
  }

  lemma SplitWhole(b: string)
    requires '/' !in b
    ensures Split(b) == [b]
  {
    WholeSegment(b);
    SplitFirst(b);
  }

  lemma ConcatSlash(a: string, t: string, b: string)
    ensures (a + "/" + t) + "/" + b == a + "/" + (t + "/" + b)
  {
  }

  lemma AppendToCons<T>(h: T, t: seq<T>, x: T)
    ensures [h] + (t + [x]) == ([h] + t) + [x]
  {
  }

  lemma {:induction false} SplitEnd(a: string, b: string)
    requires '/' !in b
    ensures Split(a + "/" + b) == Split(a) + [b]
    decreases |a|
  {
    SplitWhole(b);
    if SegLen(a) == |a| {
      NoSlashBefore(a);
      SplitWhole(a);
      hide *;
      SplitAt(a, b);
    } else {
      var h, t := a[..SegLen(a)], a[SegLen(a) + 1..];
      NoSlashBefore(h);
      SplitFirst(a);
      assert a == h + "/" + t && |t| < |a|;
      hide *;
      SplitEnd(t, b);
      SplitAt(h, t + "/" + b);
      ConcatSlash(h, t, b);
      AppendToCons(h, Split(t), b);
    }
  }

  /** Appending an entry name appends a segment. */
  lemma JoinIsAppend(directory: string, file: string)
    requires '/' !in file && file != ""
    ensures PathOf(if directory == "" then file else directory + "/" + file) == PathOf(directory) + [file]
  {
    if directory == "" {
      WholeSegment(file);
      assert file[..|file|] == file;
    } else {
      SplitEnd(directory, file);
    }
  }

  lemma {:induction false} DirnameCuts(name: string)
    requires '/' in name
    ensures exists b :: '/' !in b && name == Dirname(name) + "/" + b
    decreases |name|
  {
    var n := |name| - 1;
    if name[n] == '/' {
      assert '/' !in "" && name == Dirname(name) + "/" + "";
    } else {
      assert '/' in name[..n] by {
        var i :| 0 <= i < |name| && name[i] == '/';
        assert name[..n][i] == '/';
      }
      DirnameCuts(name[..n]);
      var b :| '/' !in b && name[..n] == Dirname(name[..n]) + "/" + b;
      var b' := b + [name[n]];
      assert '/' !in b' && name == Dirname(name) + "/" + b';
    }
  }

  /** Cutting the last segment off gives the parent path, except for a name whose only slash comes first:
      that gives the output path itself. */
  lemma DirnameIsParentIff(name: string)
    requires name != ""
    ensures PathOf(Dirname(name)) == PathOf(name)[..|PathOf(name)| - 1] <==> !(name[0] == '/' && '/' !in name[1..])
  {
    if '/' in name {
      DirnameCuts(name);
      var b :| '/' !in b && name == Dirname(name) + "/" + b;
      SplitEnd(Dirname(name), b);
      OnlySlash(Dirname(name), b);
      assert Split(name)[..|Split(name)| - 1] == Split(Dirname(name));
    } else {
      assert name[0] in name;
      SplitWhole(name);
    }
  }

  lemma OnlySlash(d: string, b: string)
    requires '/' !in b
    ensures var name := d + "/" + b; d == "" <==> name[0] == '/' && '/' !in name[1..]
  {
    var name := d + "/" + b;
    if d == "" {
      assert name[1..] == b;
    } else {
      assert name[1..][|d| - 1] == '/';
    }
  }
}
