/** What a full clean and an incremental clean leave in the output directory. */
module CleanOutcome {
  import opened FileTree
  import opened CleanJobs
  import opened CleanInvariant
  import opened CleanRuns
  import opened CleanDiff
  import opened CleanFailure

  /** Asset names are not empty, and none is a directory of another. */
  ghost predicate PrefixFree(assets: set<Path>) {
    && [] !in assets
    && forall a, b :: a in assets && b in assets && a <= b ==> a == b
  }

  /** No asset directory is behind a file, unless it is kept. */
  ghost predicate NoneBehind(c: Config, fs: Disk, assets: set<Path>) {
    forall d :: AssetDir(assets, d) && BehindFile(fs, d) ==> c.keep(d)
  }

  ghost predicate FullDiff(fs: Disk, assets: set<Path>, roots: set<Path>) {
    forall p :: p in roots <==> Stale(fs, assets, p)
  }

  lemma {:induction false} PrefixOfDir(assets: set<Path>, d: Path, k: nat)
    requires AssetDir(assets, d) && k <= |d|
    ensures AssetDir(assets, d[..k])
  {
    var a :| a in assets && d <= a && (d == a ==> a == []);
    assert d[..k] <= a;
  }

  /** A directory on disk that holds assets is not stale. */
  lemma HoldingIsNotStale(fs: Disk, assets: set<Path>, a: Path, b: Path)
    requires WellFormed(fs) && b in fs && a <= b && a != b && AssetDir(assets, a)
    ensures !Stale(fs, assets, a)
  {
    AncestorsExist(fs, b, |a|);
    assert b[..|a|] == a;
  }

  lemma StaleNested(fs: Disk, assets: set<Path>, a: Path, b: Path)
    requires WellFormed(fs) && Stale(fs, assets, a) && Stale(fs, assets, b) && a <= b && a != b
    ensures AssetDir(assets, b) && BehindFile(fs, b)
  {
    if AssetDir(assets, b) {
      PrefixOfDir(assets, b, |a|);
      assert b[..|a|] == a;
      if a in fs {
        assert b[..|a|] in fs && fs[b[..|a|]] == File;
      } else {
        var k :| 0 <= k < |a| && a[..k] in fs && fs[a[..k]] == File;
        assert b[..k] == a[..k];
      }
    } else {
      PrefixOfDir(assets, Parent(b), |a|);
      assert Parent(b)[..|a|] == a;
      HoldingIsNotStale(fs, assets, a, b);
      assert false;
    }
  }

  /** The roots of a full clean that can fail are the asset directories behind a file. */
  lemma FullHazards(c: Config, fs: Disk, assets: set<Path>, roots: set<Path>)
    requires WellFormed(fs) && FullDiff(fs, assets, roots)
    ensures WorldOk(World(c, fs, roots))
    ensures forall r :: Hazard(World(c, fs, roots), r) <==> AssetDir(assets, r) && BehindFile(fs, r) && !c.keep(r)
    ensures Safe(World(c, fs, roots)) <==> NoneBehind(c, fs, assets)
  {
    var w := World(c, fs, roots);
    forall a, b | a in roots && b in roots && b in fs && a <= b ensures a == b {
      if a != b {
        StaleNested(fs, assets, a, b);
        NotThere(fs, b);
      }
    }
    forall r ensures Hazard(w, r) <==> AssetDir(assets, r) && BehindFile(fs, r) && !c.keep(r) {
      if BehindFile(fs, r) {
        NotThere(fs, r);
      }
    }
  }

  /** Nothing is behind a file. */
  lemma NotThere(fs: Disk, d: Path)
    requires WellFormed(fs) && BehindFile(fs, d)
    ensures d !in fs
  {
    var k :| 0 <= k < |d| && d[..k] in fs && fs[d[..k]] == File;
    if d in fs {
      AncestorsExist(fs, d, k);
    }
  }

  /** Some schedule of a full clean ends with an error, if and only if some asset directory is behind a
      file and not kept. */
  lemma FullCleanFailsIff(c: Config, fs: Disk, assets: set<Path>, roots: set<Path>, diff: seq<Path>)
    requires WellFormed(fs) && FullDiff(fs, assets, roots) && DiffOf(World(c, fs, roots), diff)
    ensures SomeRunFails(World(c, fs, roots), diff) <==>
      exists d :: AssetDir(assets, d) && BehindFile(fs, d) && !c.keep(d)
  {
    hide DiffOf, SomeRunFails, WorldOk, Safe;
    FullHazards(c, fs, assets, roots);
    FailsIffHazard(World(c, fs, roots), diff);
  }

  /** Which assets are doomed by a full clean. */
  lemma AssetDoomedIff(c: Config, fs: Disk, assets: set<Path>, roots: set<Path>, a: Path)
    requires WellFormed(fs) && FullDiff(fs, assets, roots) && a in assets && a in fs
    ensures Doomed(World(c, fs, roots), a) <==> fs[a] == File && AssetDir(assets, a) && !c.keep(a)
  {
    var w := World(c, fs, roots);
    assert a[..|a|] == a && a <= a;
    if Doomed(w, a) {
      var r :| DoomedBy(w, r, a);
      assert Clear(c, r, a);
      assert r == a by {
        if r != a {
          HoldingIsNotStale(fs, assets, r, a);
        }
      }
    }
    if fs[a] == File && AssetDir(assets, a) && !c.keep(a) {
      assert Stale(fs, assets, a);
      hide AssetDir, Stale;
      forall q | q in fs && a <= q ensures Clear(c, a, q) {
        FileIsLeaf(fs, a, q);
      }
      assert DoomedBy(w, a, a);
    }
  }

  /** A complete real run of a full clean that succeeds has removed an asset exactly when it was a file
      that another asset needs as a directory, and not kept. A run that fails has removed no other
      asset, and needs an asset directory behind a file. */
  lemma AssetRemovedIff(c: Config, fs: Disk, assets: set<Path>, roots: set<Path>, diff: seq<Path>, run: seq<Sys>,
                        a: Path)
    requires WellFormed(fs) && FullDiff(fs, assets, roots) && a in assets && a in fs && !c.dry
    requires DiffOf(World(c, fs, roots), diff) && Complete(World(c, fs, roots), diff, run)
    ensures run != []
    ensures match run[|run| - 1].status
            case Working => false
            case Succeeded => a !in run[|run| - 1].fs <==> fs[a] == File && AssetDir(assets, a) && !c.keep(a)
            case Failed(_) =>
              && (a !in run[|run| - 1].fs ==> fs[a] == File && AssetDir(assets, a) && !c.keep(a))
              && !NoneBehind(c, fs, assets)
  {
    var w := World(c, fs, roots);
    FullHazards(c, fs, assets, roots);
    AssetDoomedIff(c, fs, assets, roots, a);
    assert run != [] && IsRun(w, diff, run);
    hide DiffOf, Complete, WorldOk, Doomed, Safe, IsRun, NoneBehind, AssetDir, FullDiff;
    CompleteIsCleaned(w, diff, run);
    OnlyDoomedGo(w, diff, run, |run| - 1);
  }

  /** Without assets nothing is stale. */
  lemma NoAssetsNoDiff(fs: Disk, roots: set<Path>)
    requires FullDiff(fs, {}, roots)
    ensures roots == {}
  {
    assert forall p :: !Stale(fs, {}, p);
  }

  // ---------- where the descent to a stale file starts ----------

  ghost function Depth(assets: set<Path>, p: Path, k: nat): (n: nat)
    requires k <= |p|
    requires forall j :: 0 <= j < k ==> AssetDir(assets, p[..j])
    ensures k <= n <= |p|
    ensures forall j :: 0 <= j < n ==> AssetDir(assets, p[..j])
    ensures n == |p| || !AssetDir(assets, p[..n])
    decreases |p| - k
  {
    if k == |p| || !AssetDir(assets, p[..k]) then k else Depth(assets, p, k + 1)
  }

  /** The shortest prefix of p that is no asset directory, or p itself. */
  ghost function RootFor(assets: set<Path>, p: Path): Path {
    p[..Depth(assets, p, 0)]
  }

  ghost predicate CoversAsset(assets: set<Path>, p: Path) {
    exists a :: a in assets && a <= p
  }

  lemma RootForIsStale(fs: Disk, assets: set<Path>, p: Path)
    requires WellFormed(fs) && assets != {} && p in fs && fs[p] == File && !CoversAsset(assets, p)
    ensures Stale(fs, assets, RootFor(assets, p))
  {
    var n := Depth(assets, p, 0);
    var r := p[..n];
    AncestorsExist(fs, p, n);
    if AssetDir(assets, r) {
      assert r == p;
    } else {
      var a :| a in assets;
      assert AssetDir(assets, []);
      assert n > 0;
      assert Parent(r) == p[..n - 1];
      assert r <= p;
    }
  }

  lemma CoveredFileIsSafe(fs: Disk, assets: set<Path>, p: Path, a: Path, r: Path)
    requires WellFormed(fs) && PrefixFree(assets) && p in fs && fs[p] == File
    requires a in assets && a <= p && r <= p
    ensures !Stale(fs, assets, r)
  {
    AncestorsExist(fs, p, |r|);
    assert p[..|r|] == r;
    NotBelowAsset(assets, a, r);
    NotBelowAsset(assets, a, Parent(r));
    assert a <= Parent(r) || r <= a;
  }

  /** No asset directory lies at or below an asset. */
  lemma NotBelowAsset(assets: set<Path>, a: Path, d: Path)
    requires PrefixFree(assets) && a in assets
    ensures a <= d ==> !AssetDir(assets, d)
  {
    forall b | b in assets && a <= d <= b ensures a <= b {
    }
  }

  /** Which files a full clean removes: those at or below no asset, with nothing kept and no dot
      entry on the way down from their diff root. */
  lemma FullCleanRemoves(c: Config, fs: Disk, assets: set<Path>, roots: set<Path>, p: Path)
    requires WellFormed(fs) && FullDiff(fs, assets, roots) && PrefixFree(assets)
    requires assets != {} && p in fs && fs[p] == File
    ensures Doomed(World(c, fs, roots), p) <==>
              !CoversAsset(assets, p) && Clear(c, RootFor(assets, p), p)
  {
    var w := World(c, fs, roots);
    FullHazards(c, fs, assets, roots);
    assert p <= p;
    hide Safe, NoneBehind, Clear;
    if Doomed(w, p) {
      var r :| DoomedBy(w, r, p);
      if a :| a in assets && a <= p {
        CoveredFileIsSafe(fs, assets, p, a, r);
      }
      RootForIsStale(fs, assets, p);
      SameRoot(w, r, RootFor(assets, p), p);
    }
    if !CoversAsset(assets, p) && Clear(c, RootFor(assets, p), p) {
      RootForIsStale(fs, assets, p);
      forall q | q in fs && p <= q ensures Clear(c, RootFor(assets, p), q) {
        FileIsLeaf(fs, p, q);
      }
      assert DoomedBy(w, RootFor(assets, p), p);
    }
  }

  /** After every complete real run of a full clean that succeeds, a file is left exactly when it is an
      asset or below one, or is protected by keep or a dot entry; all runs succeed when no unkept asset
      directory is behind a file. */
  lemma FullCleanLeaves(c: Config, fs: Disk, assets: set<Path>, roots: set<Path>, diff: seq<Path>, run: seq<Sys>,
                        p: Path)
    requires WellFormed(fs) && FullDiff(fs, assets, roots) && PrefixFree(assets)
    requires assets != {} && !c.dry && DiffOf(World(c, fs, roots), diff) && Complete(World(c, fs, roots), diff, run)
    requires p in fs && fs[p] == File
    ensures run != [] && (NoneBehind(c, fs, assets) ==> run[|run| - 1].status == Succeeded)
    ensures run[|run| - 1].status == Succeeded ==>
      (p in run[|run| - 1].fs <==> CoversAsset(assets, p) || !Clear(c, RootFor(assets, p), p))
  {
    hide NoneBehind, Clear, DiffOf, Complete, WorldOk, Safe, Doomed;
    FullHazards(c, fs, assets, roots);
    CompleteIsCleaned(World(c, fs, roots), diff, run);
    FullCleanRemoves(c, fs, assets, roots, p);
  }

  /** At no point of any schedule, failed ones included, is a current asset announced or missing, except
      for an unkept file that another asset needs as a directory. */
  lemma AssetsStay(c: Config, fs: Disk, assets: set<Path>, roots: set<Path>, diff: seq<Path>, run: seq<Sys>, i: nat,
                   a: Path)
    requires WellFormed(fs) && FullDiff(fs, assets, roots)
    requires DiffOf(World(c, fs, roots), diff) && IsRun(World(c, fs, roots), diff, run) && i < |run|
    requires a in assets && a in fs && !(fs[a] == File && AssetDir(assets, a) && !c.keep(a))
    ensures WillBeRemoved(a) !in run[i].log && a in run[i].fs
  {
    FullHazards(c, fs, assets, roots);
    AssetDoomedIff(c, fs, assets, roots, a);
    hide DiffOf, IsRun, WorldOk, FullDiff, AssetDir, Doomed;
    OnlyDoomedGo(World(c, fs, roots), diff, run, i);
  }

  // ---------- incremental against full ----------

  ghost predicate IsFile(fs: Disk, p: Path) {
    p in fs && fs[p] == File
  }

  /** The non-kept files on disk are exactly the old assets. */
  ghost predicate OldIsDisk(c: Config, fs: Disk, before: set<Path>) {
    forall p :: !c.keep(p) ==> (IsFile(fs, p) <==> p in before)
  }

  ghost predicate KeepClosed(c: Config) {
    forall p, q :: p <= q && c.keep(p) ==> c.keep(q)
  }

  ghost predicate NoDots(assets: set<Path>) {
    forall a, k :: a in assets && 0 < k <= |a| ==> !DotEntry(a[..k])
  }

  ghost predicate NoAssetIsDirectory(fs: Disk, assets: set<Path>) {
    forall a :: a in assets && a in fs ==> fs[a] == File
  }

  lemma ClearFile(c: Config, before: set<Path>, r: Path, p: Path)
    requires KeepClosed(c) && NoDots(before) && p in before && r <= p && !c.keep(p)
    ensures Clear(c, r, p)
  {
    forall k | |r| <= k <= |p| ensures !c.keep(p[..k]) && (k > |r| ==> !DotEntry(p[..k])) {
      assert p[..k] <= p;
    }
  }

  lemma IncrementalRemoves(c: Config, fs: Disk, before: set<Path>, assets: set<Path>, p: Path)
    requires WellFormed(fs) && p in fs && fs[p] == File
    requires forall r :: r in before && r in fs && !c.keep(r) ==> fs[r] == File
    ensures Doomed(World(c, fs, before - assets), p) <==> p in before && p !in assets && !c.keep(p)
  {
    var w := World(c, fs, before - assets);
    assert p <= p && p[..|p|] == p;
    if Doomed(w, p) {
      var r :| DoomedBy(w, r, p);
      assert Clear(c, r, p);
      assert p[..|r|] == r;
      AncestorsExist(fs, p, |r|);
    }
    if p in before && p !in assets && !c.keep(p) {
      forall q | q in fs && p <= q ensures Clear(c, p, q) {
        FileIsLeaf(fs, p, q);
      }
      assert DoomedBy(w, p, p);
    }
  }

  lemma FullRemovesOld(c: Config, fs: Disk, before: set<Path>, assets: set<Path>, roots: set<Path>, p: Path)
    requires WellFormed(fs) && OldIsDisk(c, fs, before) && p in fs && fs[p] == File
    requires FullDiff(fs, assets, roots) && PrefixFree(assets) && assets != {}
    requires KeepClosed(c) && NoDots(before) && NoAssetIsDirectory(fs, assets)
    ensures Doomed(World(c, fs, roots), p) <==> p in before && p !in assets && !c.keep(p)
  {
    FullCleanRemoves(c, fs, assets, roots, p);
    var r := RootFor(assets, p);
    assert r <= p && p <= p && p[..|p|] == p;
    if CoversAsset(assets, p) {
      var a :| a in assets && a <= p;
      AncestorsExist(fs, p, |a|);
      assert p[..|a|] == a;
    }
    if Clear(c, r, p) {
      assert !c.keep(p[..|p|]);
    } else if p in before && !c.keep(p) {
      ClearFile(c, before, r, p);
    }
  }

  /** Diffing against the old assets removes the same files as diffing against the disk. */
  lemma IncrementalRefinesFull(c: Config, fs: Disk, before: set<Path>, assets: set<Path>, roots: set<Path>)
    requires WellFormed(fs) && OldIsDisk(c, fs, before)
    requires FullDiff(fs, assets, roots) && PrefixFree(assets) && assets != {}
    requires KeepClosed(c) && NoDots(before) && NoAssetIsDirectory(fs, assets)
    ensures forall p :: p in fs && fs[p] == File ==>
              (Doomed(World(c, fs, before - assets), p) <==> Doomed(World(c, fs, roots), p))
  {
    forall p | p in fs && fs[p] == File
      ensures Doomed(World(c, fs, before - assets), p) <==> Doomed(World(c, fs, roots), p)
    {
      IncrementalRemoves(c, fs, before, assets, p);
      FullRemovesOld(c, fs, before, assets, roots, p);
    }
  }
}
