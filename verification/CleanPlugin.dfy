/** The plugin across builds: a full clean first, incremental cleans afterwards. */
module CleanPlugin {
  import opened Common
  import opened FileTree
  import opened CleanJobs
  import opened CleanInvariant
  import opened CleanRuns
  import opened CleanDiff
  import opened CleanOutcome
  import CleanRunner

  ghost function StaleSet(fs: Disk, assets: set<Path>): set<Path> {
    set p | p in fs.Keys + Prefixes(assets) && Stale(fs, assets, p)
  }

  lemma StaleSetComplete(fs: Disk, assets: set<Path>)
    ensures FullDiff(fs, assets, StaleSet(fs, assets))
  {
    forall p | AssetDir(assets, p) ensures p in Prefixes(assets) {
      var a :| a in assets && p <= a && (p == a ==> a == []);
      assert p == a[..|p|];
    }
  }

  /** The disk a real run leaves. */
  ghost function CleanedDisk(w: World): Disk {
    map p | p in w.fs0 && !Doomed(w, p) :: w.fs0[p]
  }

  /** The assets of a build are written: their directories are made and their files put in place. */
  function Written(fs: Disk, assets: set<Path>): Disk {
    map p | p in fs.Keys + Prefixes(assets) ::
      if p in assets then File else if AssetDir(assets, p) then Dir else if p in fs then fs[p] else Dir
  }

  class Plugin {
    const dry: bool
    const keepFn: Path -> bool
    const keepHook: Path -> Option<bool>
    var oldAssets: Option<set<Path>>

    constructor (dry: bool, keepFn: Path -> bool, keepHook: Path -> Option<bool>)
      ensures this.dry == dry && this.keepFn == keepFn && this.keepHook == keepHook && oldAssets == None
    {
      this.dry, this.keepFn, this.keepHook, oldAssets := dry, keepFn, keepHook, None;
    }

    /** A hook's answer wins over the keep option. */
    function IsKept(p: Path): bool {
      match keepHook(p)
      case Some(kept) => kept
      case None => keepFn(p)
    }

    ghost function Options(): Config {
      Config(p => IsKept(p), dry)
    }

    /** The cleaning task of a build. */
    ghost function Task(fs: Disk, assets: set<Path>): World
      reads this
    {
      World(Options(), fs, match oldAssets case Some(a) => a - assets case None => StaleSet(fs, assets))
    }

    /** The roots that the next build cleans, on whatever disk it finds. */
    ghost predicate LooksAtDisk()
      reads this
    {
      forall fs, assets :: Task(fs, assets).roots == StaleSet(fs, assets)
    }

    ghost predicate DiffsAgainst(before: set<Path>)
      reads this
    {
      forall fs, assets :: Task(fs, assets).roots == before - assets
    }

    /** What the hook protects is still there, and what the option does where the hook says nothing. */
    ghost predicate KeptStay(fs: Disk, after: Disk) {
      forall p :: p in fs && (keepHook(p) == Some(true) || (keepHook(p) == None && keepFn(p))) ==>
        p in after && after[p] == fs[p]
    }

    /** Of the files that a clean starts from, only these are. */
    ghost predicate OnlyKeptStay(fs: Disk, after: Disk, roots: set<Path>) {
      forall p :: p in roots && IsFile(fs, p) && p in after ==>
        keepHook(p) == Some(true) || (keepHook(p) == None && keepFn(p))
    }

    /** The emit hook: clean, then remember the assets for the next build; after an error the next build
        looks at the disk again. */
    method Emit(fs: Disk, currentAssets: set<Path>) returns (after: Disk, status: Status)
      requires WellFormed(fs) && (oldAssets.Some? ==> Antichain(fs, oldAssets.value - currentAssets))
      modifies this
      ensures status == Succeeded ==>
        && oldAssets == Some(currentAssets) && DiffsAgainst(currentAssets)
        && after == if dry then fs else CleanedDisk(old(Task(fs, currentAssets)))
      ensures status != Succeeded ==>
        && status.Failed? && oldAssets == None && LooksAtDisk() && !Safe(old(Task(fs, currentAssets)))
        && (forall p :: p in after ==> p in fs && after[p] == fs[p])
        && forall p :: p in fs && p !in after ==> !dry && Doomed(old(Task(fs, currentAssets)), p)
      ensures KeptStay(fs, after)
      ensures status == Succeeded && !dry ==> OnlyKeptStay(fs, after, old(Task(fs, currentAssets)).roots)
      ensures status == Succeeded && !dry && old(oldAssets).Some? ==>
        OnlyKeptStay(fs, after, set p | p in old(oldAssets).value && p !in currentAssets)
    {
      ghost var w := Task(fs, currentAssets);
      var diff: set<Path>;
      match oldAssets {
        case Some(a) =>
          diff := GetDiffToOldAssets(currentAssets, a);
        case None =>
          diff := GetDiffToFs(fs, currentAssets);
          StaleSetComplete(fs, currentAssets);
          FullHazards(w.c, fs, currentAssets, w.roots);
      }
      assert diff == w.roots && WorldOk(w);
      after, status := Clean(fs, diff, w);
      WhatIsKept(w);
      oldAssets := if status.Failed? then None else Some(currentAssets);
    }

    /** applyDiff over the diff, up to its callback. */
    method Clean(fs: Disk, diff: set<Path>, ghost w: World) returns (after: Disk, status: Status)
      requires WorldOk(w) && w == World(Options(), fs, diff)
      ensures status == Succeeded ==> after == if dry then fs else CleanedDisk(w)
      ensures status != Succeeded ==>
        && status.Failed? && !Safe(w)
        && (forall p :: p in after ==> p in fs && after[p] == fs[p])
        && forall p :: p in fs && p !in after ==> !dry && Doomed(w, p)
    {
      var jobs := ArrayFrom(diff);
      var runner := new CleanRunner.JobRunner(p => IsKept(p), dry, fs);
      hide Cleaned, WorldOk, Safe, Doomed;
      runner.ApplyDiff(jobs, w);
      after, status := runner.fs, runner.status;
      CleanedOrFailed(w, runner.Snapshot());
    }
  }

  /** Nothing kept is doomed, and every unkept file among the roots is. */
  lemma WhatIsKept(w: World)
    requires WellFormed(w.fs0)
    ensures forall p :: p in w.fs0 && w.c.keep(p) ==> !Doomed(w, p)
    ensures forall p :: p in w.roots && IsFile(w.fs0, p) && !w.c.keep(p) ==> Doomed(w, p)
  {
    forall p, r | p in w.fs0 && w.c.keep(p) ensures !DoomedBy(w, r, p) {
      assert p <= p && p[..|p|] == p;
      assert r <= p ==> !Clear(w.c, r, p);
    }
    forall p | p in w.roots && IsFile(w.fs0, p) && !w.c.keep(p) ensures Doomed(w, p) {
      forall q | q in w.fs0 && p <= q ensures Clear(w.c, p, q) {
        FileIsLeaf(w.fs0, p, q);
        assert p[..|p|] == p;
      }
      assert DoomedBy(w, p, p);
    }
  }

  /** Array.from on a set. */
  method ArrayFrom(s: set<Path>) returns (a: seq<Path>)
    ensures forall p :: p in a <==> p in s
    ensures forall i, j :: 0 <= i < j < |a| ==> a[i] != a[j]
  {
    a := [];
    var todo := s;
    while todo != {}
      invariant todo <= s
      invariant forall p :: p in a <==> p in s - todo
      invariant forall i, j :: 0 <= i < j < |a| ==> a[i] != a[j]
      decreases todo
    {
      var p :| p in todo;
      assert p !in a;
      a := a + [p];
      todo := todo - {p};
    }
  }

  lemma CleanedOrFailed(w: World, s: Sys)
    requires Cleaned(w, s) || (s.status.Failed? && !Safe(w) && PartlyCleaned(w, s))
    ensures s.status == Succeeded ==> s.fs == if w.c.dry then w.fs0 else CleanedDisk(w)
    ensures s.status != Succeeded ==>
      && s.status.Failed? && !Safe(w)
      && (forall p :: p in s.fs ==> p in w.fs0 && s.fs[p] == w.fs0[p])
      && forall p :: p in w.fs0 && p !in s.fs ==> !w.c.dry && Doomed(w, p)
  {
    hide Doomed, Safe;
    if s.status == Succeeded {
      assert s.fs.Keys == if w.c.dry then w.fs0.Keys else CleanedDisk(w).Keys;
    }
  }

  // ---------- a run of builds ----------

  ghost function IncrementalStep(c: Config, fs: Disk, before: set<Path>, assets: set<Path>): Disk {
    Written(CleanedDisk(World(c, fs, before - assets)), assets)
  }

  ghost function FullStep(c: Config, fs: Disk, assets: set<Path>): Disk {
    Written(CleanedDisk(World(c, fs, StaleSet(fs, assets))), assets)
  }

  /** The disk after the builds, each cleaned against the assets of the one before. */
  ghost function IncrementalRun(c: Config, fs: Disk, before: set<Path>, builds: seq<set<Path>>): Disk
    decreases |builds|
  {
    if builds == [] then fs
    else IncrementalRun(c, IncrementalStep(c, fs, before, builds[0]), builds[0], builds[1..])
  }

  /** The disk after the builds, each cleaned against the disk. */
  ghost function FullRun(c: Config, fs: Disk, builds: seq<set<Path>>): Disk
    decreases |builds|
  {
    if builds == [] then fs else FullRun(c, FullStep(c, fs, builds[0]), builds[1..])
  }

  ghost predicate SameFiles(a: Disk, b: Disk) {
    forall p :: IsFile(a, p) <==> IsFile(b, p)
  }

  /** On this disk no asset of the run is a directory or has a file for an ancestor. */
  ghost predicate Roomy(fs: Disk, names: set<Path>) {
    forall a, k :: a in names && 0 <= k <= |a| && a[..k] in fs ==> fs[a[..k]] == if k == |a| then File else Dir
  }

  /** What links the disk of a full-cleaning run to that of an incremental one between builds. The unkept
      files of the incremental one are the assets of the last build and some that are no asset of any
      build; the full-cleaning one has the same files but for those of them that are gone. */
  ghost predicate Linked(c: Config, full: Disk, inc: Disk, before: set<Path>, names: set<Path>,
                         hidden: set<Path>, gone: set<Path>)
  {
    && WellFormed(full) && WellFormed(inc) && Roomy(full, names) && Roomy(inc, names) && before <= names
    && FilesLinked(c, full, inc, before, hidden, gone)
    && gone <= hidden && (forall p :: p in hidden ==> !c.keep(p) && p !in names)
  }

  ghost predicate FilesLinked(c: Config, full: Disk, inc: Disk, before: set<Path>, hidden: set<Path>, gone: set<Path>) {
    && (forall p :: !c.keep(p) ==> (IsFile(inc, p) <==> p in before || p in hidden))
    && forall p :: IsFile(full, p) <==> IsFile(inc, p) && p !in gone
  }

  /** Nothing is kept on the way down to p from the root that a full clean starts from, and nothing is a
      dot entry. */
  ghost predicate WayClear(c: Config, assets: set<Path>, p: Path) {
    Clear(c, RootFor(assets, p), p)
  }

  ghost function Cleared(c: Config, hidden: set<Path>, assets: set<Path>): set<Path> {
    set p | p in hidden && WayClear(c, assets, p)
  }

  ghost function ClearedBy(c: Config, hidden: set<Path>, builds: seq<set<Path>>): set<Path> {
    if builds == [] then {} else Cleared(c, hidden, builds[0]) + ClearedBy(c, hidden, builds[1..])
  }

  lemma {:induction false} ClearedByIff(c: Config, hidden: set<Path>, builds: seq<set<Path>>, p: Path)
    ensures p in ClearedBy(c, hidden, builds) <==>
      p in hidden && exists i :: 0 <= i < |builds| && WayClear(c, builds[i], p)
  {
    hide WayClear;
    if builds != [] {
      var rest := builds[1..];
      ClearedByIff(c, hidden, rest, p);
      if i :| 0 <= i < |builds| && WayClear(c, builds[i], p) {
        assert i > 0 ==> builds[i] == rest[i - 1];
      }
      if i :| 0 <= i < |rest| && WayClear(c, rest[i], p) {
        assert rest[i] == builds[i + 1];
      }
    }
  }

  lemma RoomyIsUsable(fs: Disk, names: set<Path>, assets: set<Path>)
    requires Roomy(fs, names) && assets <= names && PrefixFree(names)
    ensures (forall d :: AssetDir(assets, d) ==> !BehindFile(fs, d)) && NoAssetIsDirectory(fs, assets)
  {
    forall d | AssetDir(assets, d) ensures !BehindFile(fs, d) {
      var a :| a in assets && d <= a && (d == a ==> a == []);
      forall k | 0 <= k < |d| && d[..k] in fs ensures fs[d[..k]] == Dir {
        assert d[..k] == a[..k];
      }
    }
    forall a | a in assets && a in fs ensures fs[a] == File {
      assert a[..|a|] == a;
    }
  }

  lemma CleanedWellFormed(w: World)
    requires WorldOk(w)
    ensures WellFormed(CleanedDisk(w))
  {
    hide Doomed;
    forall p | p in CleanedDisk(w) && p != [] ensures Parent(p) in CleanedDisk(w) && CleanedDisk(w)[Parent(p)] == Dir {
      assert p in Children(w.fs0, Parent(p));
      if Doomed(w, Parent(p)) {
        DoomedReachesDown(w, Parent(p));
      }
    }
  }

  lemma WrittenKind(fs: Disk, names: set<Path>, assets: set<Path>, p: Path)
    requires Roomy(fs, names) && assets <= names && PrefixFree(names)
    ensures IsFile(Written(fs, assets), p) <==> IsFile(fs, p) || p in assets
    ensures p in Written(fs, assets) <==> p in fs || p in Prefixes(assets)
    ensures AssetDir(assets, p) ==> p !in assets && p in Written(fs, assets) && Written(fs, assets)[p] == Dir
  {
    if p in assets {
      assert p[..|p|] == p;
    }
    if AssetDir(assets, p) {
      var a :| a in assets && p <= a && (p == a ==> a == []);
      assert p == a[..|p|];
    } else if p in Prefixes(assets) {
      var a, k :| a in assets && 0 <= k <= |a| && a[..k] == p;
      assert p <= a;
    }
  }

  lemma WrittenWellFormed(fs: Disk, names: set<Path>, assets: set<Path>)
    requires WellFormed(fs) && Roomy(fs, names) && assets <= names && PrefixFree(names)
    ensures WellFormed(Written(fs, assets))
  {
    var after := Written(fs, assets);
    forall p | p in after && p != [] ensures Parent(p) in after && after[Parent(p)] == Dir {
      var d := Parent(p);
      WrittenKind(fs, names, assets, p);
      WrittenKind(fs, names, assets, d);
      if p in Prefixes(assets) {
        var a, k :| a in assets && 0 <= k <= |a| && a[..k] == p;
        assert d == a[..k - 1] && d <= a;
        assert AssetDir(assets, d);
      } else {
        assert d in fs && fs[d] == Dir && d[..|d|] == d;
      }
    }
  }

  lemma WrittenRoomy(fs: Disk, names: set<Path>, assets: set<Path>)
    requires Roomy(fs, names) && assets <= names && PrefixFree(names)
    ensures Roomy(Written(fs, assets), names)
  {
    var after := Written(fs, assets);
    forall a, k | a in names && 0 <= k <= |a| && a[..k] in after
      ensures after[a[..k]] == if k == |a| then File else Dir
    {
      var p := a[..k];
      WrittenKind(fs, names, assets, p);
      assert k == |a| ==> p == a;
      if AssetDir(assets, p) {
        var b :| b in assets && p <= b && (p == b ==> b == []);
        assert k == |a| ==> a <= b;
      } else if p in assets {
        assert p <= a;
      }
    }
  }

  lemma CleanedRoomy(w: World, names: set<Path>)
    requires Roomy(w.fs0, names)
    ensures Roomy(CleanedDisk(w), names)
  {
  }

  /** A full clean leaves the assets and what is protected on the way down to it. */
  lemma FullCleanFiles(c: Config, fs: Disk, assets: set<Path>, names: set<Path>)
    requires WellFormed(fs) && Roomy(fs, names) && PrefixFree(names) && assets <= names && assets != {}
    ensures var w := World(c, fs, StaleSet(fs, assets));
      && WorldOk(w) && Safe(w)
      && forall p :: IsFile(CleanedDisk(w), p) <==> IsFile(fs, p) && (p in assets || !WayClear(c, assets, p))
  {
    var w := World(c, fs, StaleSet(fs, assets));
    StaleSetComplete(fs, assets);
    RoomyIsUsable(fs, names, assets);
    FullHazards(c, fs, assets, w.roots);
    assert PrefixFree(assets);
    hide Safe, NoneBehind, WorldOk, Roomy, PrefixFree, FullDiff, StaleSet, Clear, RootFor;
    forall p ensures IsFile(CleanedDisk(w), p) <==> IsFile(fs, p) && (p in assets || !WayClear(c, assets, p)) {
      if IsFile(fs, p) {
        FullCleanRemoves(c, fs, assets, w.roots, p);
        CoveredIsAsset(fs, assets, names, p);
      }
      hide Doomed, WellFormed;
    }
  }

  /** An incremental clean cannot fail, and removes just the old assets. */
  lemma IncrementalCleanFiles(c: Config, fs: Disk, before: set<Path>, assets: set<Path>, names: set<Path>)
    requires WellFormed(fs) && Roomy(fs, names) && PrefixFree(names) && before <= names
    ensures var w := World(c, fs, before - assets);
      && WorldOk(w) && Safe(w)
      && forall p :: IsFile(CleanedDisk(w), p) <==> IsFile(fs, p) && !(p in before && p !in assets && !c.keep(p))
  {
    var w := World(c, fs, before - assets);
    forall r | r in names ensures !BehindFile(fs, r) && (r in fs ==> fs[r] == File) {
      assert r[..|r|] == r;
    }
    forall p
      ensures IsFile(CleanedDisk(w), p) <==> IsFile(fs, p) && !(p in before && p !in assets && !c.keep(p))
    {
      if IsFile(fs, p) {
        IncrementalRemoves(c, fs, before, assets, p);
      }
      hide Doomed, WellFormed;
    }
  }

  /** What writing the assets does to a clean disk. */
  lemma WrittenFiles(w: World, names: set<Path>, assets: set<Path>)
    requires WorldOk(w) && Roomy(w.fs0, names) && assets <= names && PrefixFree(names)
    ensures var after := Written(CleanedDisk(w), assets);
      && WellFormed(after) && Roomy(after, names)
      && forall p :: IsFile(after, p) <==> IsFile(CleanedDisk(w), p) || p in assets
  {
    hide *;
    CleanedWellFormed(w);
    CleanedRoomy(w, names);
    WrittenWellFormed(CleanedDisk(w), names, assets);
    WrittenRoomy(CleanedDisk(w), names, assets);
    forall p ensures IsFile(Written(CleanedDisk(w), assets), p) <==> IsFile(CleanedDisk(w), p) || p in assets {
      WrittenKind(CleanedDisk(w), names, assets, p);
    }
  }

  /** Nothing kept is clear, and every unkept name is. */
  lemma KeptIsNotClear(c: Config, before: set<Path>, names: set<Path>, assets: set<Path>, p: Path)
    requires KeepClosed(c) && NoDots(names) && before <= names
    ensures c.keep(p) ==> !WayClear(c, assets, p)
    ensures !c.keep(p) && p in before ==> WayClear(c, assets, p)
  {
    assert p[..|p|] == p;
    if !c.keep(p) && p in before {
      ClearFile(c, before, RootFor(assets, p), p);
    }
  }

  /** One build keeps the link; files that it clears are gone from then on where the disk is looked at. */
  lemma StepKeepsLink(c: Config, full: Disk, inc: Disk, before: set<Path>, assets: set<Path>, names: set<Path>,
                      hidden: set<Path>, gone: set<Path>)
    requires Linked(c, full, inc, before, names, hidden, gone) && assets <= names && assets != {}
    requires PrefixFree(names) && NoDots(names) && KeepClosed(c)
    ensures Linked(c, FullStep(c, full, assets), IncrementalStep(c, inc, before, assets), assets, names,
                   hidden, gone + Cleared(c, hidden, assets))
  {
    var wf, wi := World(c, full, StaleSet(full, assets)), World(c, inc, before - assets);
    var full', inc' := FullStep(c, full, assets), IncrementalStep(c, inc, before, assets);
    hide *;
    LinkedParts(c, full, inc, before, names, hidden, gone);
    FullCleanFiles(c, full, assets, names);
    IncrementalCleanFiles(c, inc, before, assets, names);
    WrittenFiles(wf, names, assets);
    WrittenFiles(wi, names, assets);
    StepsAre(c, full, inc, before, assets);
    ClearedIs(c, hidden, assets);
    forall p
      ensures !c.keep(p) ==> (IsFile(inc', p) <==> p in assets || p in hidden)
      ensures IsFile(full', p) <==> IsFile(inc', p) && p !in gone + Cleared(c, hidden, assets)
    {
      KeptIsNotClear(c, before, names, assets, p);
    }
    LinkedAgain(c, full', inc', assets, names, hidden, gone + Cleared(c, hidden, assets));
  }

  lemma LinkedParts(c: Config, full: Disk, inc: Disk, before: set<Path>, names: set<Path>,
                    hidden: set<Path>, gone: set<Path>)
    requires Linked(c, full, inc, before, names, hidden, gone)
    ensures WellFormed(full) && WellFormed(inc) && Roomy(full, names) && Roomy(inc, names) && before <= names
    ensures gone <= hidden && forall p :: p in hidden ==> !c.keep(p) && p !in names
    ensures forall p :: !c.keep(p) ==> (IsFile(inc, p) <==> p in before || p in hidden)
    ensures forall p :: IsFile(full, p) <==> IsFile(inc, p) && p !in gone
  {
  }

  lemma LinkedAgain(c: Config, full: Disk, inc: Disk, before: set<Path>, names: set<Path>,
                    hidden: set<Path>, gone: set<Path>)
    requires WellFormed(full) && WellFormed(inc) && Roomy(full, names) && Roomy(inc, names) && before <= names
    requires forall p :: p in hidden ==> !c.keep(p) && p !in names
    requires forall p :: !c.keep(p) ==> (IsFile(inc, p) <==> p in before || p in hidden)
    requires forall p :: IsFile(full, p) <==> IsFile(inc, p) && p !in gone
    requires gone <= hidden
    ensures Linked(c, full, inc, before, names, hidden, gone)
  {
  }

  lemma StepsAre(c: Config, full: Disk, inc: Disk, before: set<Path>, assets: set<Path>)
    ensures FullStep(c, full, assets) == Written(CleanedDisk(World(c, full, StaleSet(full, assets))), assets)
    ensures IncrementalStep(c, inc, before, assets) == Written(CleanedDisk(World(c, inc, before - assets)), assets)
  {
  }

  lemma ClearedIs(c: Config, hidden: set<Path>, assets: set<Path>)
    ensures forall p :: p in Cleared(c, hidden, assets) <==> p in hidden && WayClear(c, assets, p)
  {
  }

  // ---------- from the first build on ----------

  /** No unkept file but the assets is protected by a dot entry or by keep on the way down to it. */
  ghost predicate FirstClear(c: Config, fs: Disk, assets: set<Path>) {
    forall p :: IsFile(fs, p) && !c.keep(p) && p !in assets ==> WayClear(c, assets, p)
  }

  /** After a first, full clean the unkept files on disk are the assets, if and only if nothing that has
      to go is protected. */
  lemma FirstCleanIff(c: Config, fs: Disk, assets: set<Path>, names: set<Path>)
    requires WellFormed(fs) && Roomy(fs, names) && PrefixFree(names) && assets <= names && assets != {}
    ensures OldIsDisk(c, FullStep(c, fs, assets), assets) <==> FirstClear(c, fs, assets)
  {
    hide PrefixFree, StaleSet, Written, WayClear, Roomy, WellFormed, CleanedDisk, WorldOk, Safe;
    FullCleanFiles(c, fs, assets, names);
    WrittenFiles(World(c, fs, StaleSet(fs, assets)), names, assets);
  }

  lemma CoveredIsAsset(fs: Disk, assets: set<Path>, names: set<Path>, p: Path)
    requires WellFormed(fs) && Roomy(fs, names) && assets <= names && IsFile(fs, p)
    ensures CoversAsset(assets, p) <==> p in assets
  {
    assert p <= p;
    forall a | a in assets && a <= p ensures a == p {
      AncestorsExist(fs, p, |a|);
      assert p[..|a|] == a[..|a|] && a in names;
    }
  }

  /** The unkept files that a first, full clean leaves although they are no assets. */
  ghost function Hidden(c: Config, fs: Disk, assets: set<Path>): set<Path> {
    set p | p in fs && fs[p] == File && !c.keep(p) && p !in assets && !WayClear(c, assets, p)
  }

  lemma FirstBuildLinks(c: Config, fs: Disk, assets: set<Path>, names: set<Path>)
    requires WellFormed(fs) && Roomy(fs, names) && PrefixFree(names) && assets <= names && assets != {}
    requires NoDots(names) && KeepClosed(c)
    ensures Linked(c, FullStep(c, fs, assets), FullStep(c, fs, assets), assets, names, Hidden(c, fs, assets), {})
  {
    var w, hidden := World(c, fs, StaleSet(fs, assets)), Hidden(c, fs, assets);
    hide PrefixFree, StaleSet, Written, WayClear, Roomy, WellFormed, CleanedDisk, NoDots, KeepClosed, WorldOk, Safe;
    FullCleanFiles(c, fs, assets, names);
    WrittenFiles(w, names, assets);
    forall p ensures p in hidden ==> p !in names {
      KeptIsNotClear(c, names, names, assets, p);
    }
  }

  // ---------- looking at the disk once or before every build ----------

  /** From linked disks on, cleaning before every build by looking at the disk leaves the same files as
      cleaning against the last assets, but for the hidden files that some build clears. */
  lemma {:induction false} RunsDifferBy(c: Config, full: Disk, inc: Disk, before: set<Path>, builds: seq<set<Path>>,
                                        names: set<Path>, hidden: set<Path>, gone: set<Path>)
    requires Linked(c, full, inc, before, names, hidden, gone) && Builds(builds, names)
    requires PrefixFree(names) && NoDots(names) && KeepClosed(c)
    ensures forall p :: p in hidden ==> IsFile(IncrementalRun(c, inc, before, builds), p)
    ensures forall p :: IsFile(FullRun(c, full, builds), p) <==>
      IsFile(IncrementalRun(c, inc, before, builds), p) && p !in gone + ClearedBy(c, hidden, builds)
    decreases |builds|
  {
    if builds != [] {
      StepKeepsLink(c, full, inc, before, builds[0], names, hidden, gone);
      hide PrefixFree, NoDots, KeepClosed, FullStep, IncrementalStep, Linked, IsFile, Cleared;
      RunsDifferBy(c, FullStep(c, full, builds[0]), IncrementalStep(c, inc, before, builds[0]),
                   builds[0], builds[1..], names, hidden, gone + Cleared(c, hidden, builds[0]));
    }
  }

  /** Every build has assets, all among the names. */
  ghost predicate Builds(builds: seq<set<Path>>, names: set<Path>) {
    forall i :: 0 <= i < |builds| ==> builds[i] <= names && builds[i] != {}
  }

  /** The same where the unkept files are the assets of the last build: no difference. */
  lemma IncrementalRunEqualsFull(c: Config, full: Disk, inc: Disk, before: set<Path>,
                                 builds: seq<set<Path>>, names: set<Path>)
    requires WellFormed(full) && WellFormed(inc) && Roomy(full, names) && Roomy(inc, names) && before <= names
    requires SameFiles(full, inc) && OldIsDisk(c, inc, before) && Builds(builds, names)
    requires PrefixFree(names) && NoDots(names) && KeepClosed(c)
    ensures SameFiles(FullRun(c, full, builds), IncrementalRun(c, inc, before, builds))
  {
    hide WellFormed, Roomy, PrefixFree, NoDots, KeepClosed, IsFile;
    RunsDifferBy(c, full, inc, before, builds, names, {}, {});
    forall p ensures p !in ClearedBy(c, {}, builds) {
      ClearedByIff(c, {}, builds, p);
    }
  }

  /** The disk after the builds of a fresh plugin: the first is cleaned against the disk, each other one
      against the assets of the one before. */
  ghost function FreshRun(c: Config, fs: Disk, builds: seq<set<Path>>): Disk {
    if builds == [] then fs else IncrementalRun(c, FullStep(c, fs, builds[0]), builds[0], builds[1..])
  }

  /** From a fresh plugin on: which files looking at the disk only once leaves that looking at it before
      every build does not. It leaves the same, if and only if no later build clears the way to a file that
      the first clean had to leave. */
  lemma FreshRunEqualsFullIff(c: Config, fs: Disk, builds: seq<set<Path>>, names: set<Path>)
    requires WellFormed(fs) && Roomy(fs, names) && PrefixFree(names) && NoDots(names) && KeepClosed(c)
    requires Builds(builds, names) && builds != []
    ensures forall p :: IsFile(FreshRun(c, fs, builds), p) <==>
      || IsFile(FullRun(c, fs, builds), p)
      || (p in Hidden(c, fs, builds[0]) && exists i :: 1 <= i < |builds| && WayClear(c, builds[i], p))
    ensures SameFiles(FullRun(c, fs, builds), FreshRun(c, fs, builds)) <==>
      forall p, i :: p in Hidden(c, fs, builds[0]) && 1 <= i < |builds| ==> !WayClear(c, builds[i], p)
  {
    var first, hidden, rest := FullStep(c, fs, builds[0]), Hidden(c, fs, builds[0]), builds[1..];
    hide *;
    FirstAndRest(c, fs, builds, names);
    FirstBuildLinks(c, fs, builds[0], names);
    RunsDifferBy(c, first, first, builds[0], rest, names, hidden, {});
    forall p
      ensures p in ClearedBy(c, hidden, rest) <==>
        p in hidden && exists i :: 1 <= i < |builds| && WayClear(c, builds[i], p)
    {
      ClearedByIff(c, hidden, rest, p);
      if i :| 1 <= i < |builds| && WayClear(c, builds[i], p) {
        assert rest[i - 1] == builds[i];
      }
    }
    SameFilesIs(FullRun(c, fs, builds), FreshRun(c, fs, builds));
  }

  lemma SameFilesIs(a: Disk, b: Disk)
    ensures SameFiles(a, b) <==> forall p :: IsFile(a, p) <==> IsFile(b, p)
  {
  }

  lemma FirstAndRest(c: Config, fs: Disk, builds: seq<set<Path>>, names: set<Path>)
    requires Builds(builds, names) && builds != []
    ensures builds[0] <= names && builds[0] != {} && Builds(builds[1..], names)
    ensures FullRun(c, fs, builds) == FullRun(c, FullStep(c, fs, builds[0]), builds[1..])
    ensures FreshRun(c, fs, builds) == IncrementalRun(c, FullStep(c, fs, builds[0]), builds[0], builds[1..])
  {
    hide FullStep, IncrementalRun;
  }

  /** With more names the clean starts deeper. */
  lemma DeeperRoot(c: Config, assets: set<Path>, names: set<Path>, p: Path)
    requires assets <= names && WayClear(c, assets, p)
    ensures WayClear(c, names, p)
  {
    var n, m := Depth(assets, p, 0), Depth(names, p, 0);
    assert forall d :: AssetDir(assets, d) ==> AssetDir(names, d);
    assert n <= m;
  }

  /** For the first build alone: looking at the disk only once leaves the same files whatever builds follow, if
      and only if even a build of all names would not clear the way to a file that the first clean left. */
  lemma EveryRunEqualsFullIff(c: Config, fs: Disk, first: set<Path>, names: set<Path>)
    requires WellFormed(fs) && Roomy(fs, names) && PrefixFree(names) && NoDots(names) && KeepClosed(c)
    requires first <= names && first != {}
    ensures
      (forall rest :: Builds(rest, names) ==>
        SameFiles(FullRun(c, fs, [first] + rest), FreshRun(c, fs, [first] + rest))) <==>
      forall p :: p in Hidden(c, fs, first) ==> !WayClear(c, names, p)
  {
    hide WellFormed, Roomy, PrefixFree, NoDots, KeepClosed, WayClear, Hidden, SameFiles, FullRun, FreshRun;
    if forall p :: p in Hidden(c, fs, first) ==> !WayClear(c, names, p) {
      forall rest | Builds(rest, names)
        ensures SameFiles(FullRun(c, fs, [first] + rest), FreshRun(c, fs, [first] + rest))
      {
        var builds := [first] + rest;
        FreshRunEqualsFullIff(c, fs, builds, names);
        forall p, i | p in Hidden(c, fs, builds[0]) && 1 <= i < |builds| ensures !WayClear(c, builds[i], p) {
          if WayClear(c, builds[i], p) {
            DeeperRoot(c, builds[i], names, p);
          }
        }
      }
    } else {
      var p :| p in Hidden(c, fs, first) && WayClear(c, names, p);
      var rest := [names];
      var builds := [first] + rest;
      assert builds[0] == first && builds[1] == names && Builds(rest, names);
      FreshRunEqualsFullIff(c, fs, builds, names);
    }
  }

  // ---------- the builds of one plugin ----------

  /** The builds of a fresh plugin, one after the other, each followed by the writing of its assets. */
  method RunBuilds(plugin: Plugin, fs: Disk, builds: seq<set<Path>>, ghost names: set<Path>) returns (disk: Disk)
    requires plugin.oldAssets == None && !plugin.dry
    requires WellFormed(fs) && Roomy(fs, names) && PrefixFree(names) && Builds(builds, names)
    modifies plugin
    ensures disk == FreshRun(plugin.Options(), fs, builds)
  {
    disk := fs;
    ghost var c := plugin.Options();
    assert builds[..0] == [];
    hide *;
    NoBuilds(c, fs);
    for i := 0 to |builds|
      invariant disk == FreshRun(c, fs, builds[..i]) && WellFormed(disk) && Roomy(disk, names)
      invariant plugin.oldAssets == if i == 0 then None else Some(builds[i - 1])
    {
      NextBuild(c, disk, plugin.oldAssets, builds, i, names);
      var after, status := plugin.Emit(disk, builds[i]);
      disk := Written(after, builds[i]);
      FreshRunMore(c, fs, builds[..i], builds[i]);
      assert builds[..i + 1] == builds[..i] + [builds[i]];
    }
    assert builds[..|builds|] == builds;
  }

  lemma NoBuilds(c: Config, fs: Disk)
    ensures FreshRun(c, fs, []) == fs
  {
  }

  /** What the next build cleans on the disk it finds. */
  ghost function NextTask(c: Config, disk: Disk, last: Option<set<Path>>, assets: set<Path>): World {
    World(c, disk, match last case None => StaleSet(disk, assets) case Some(before) => before - assets)
  }

  /** The next build cannot fail. */
  lemma NextBuild(c: Config, disk: Disk, last: Option<set<Path>>, builds: seq<set<Path>>, i: nat, names: set<Path>)
    requires WellFormed(disk) && Roomy(disk, names) && PrefixFree(names) && Builds(builds, names) && i < |builds|
    requires last == if i == 0 then None else Some(builds[i - 1])
    ensures last.Some? ==> Antichain(disk, last.value - builds[i])
    ensures var w := NextTask(c, disk, last, builds[i]);
      Safe(w) && WellFormed(Written(CleanedDisk(w), builds[i])) && Roomy(Written(CleanedDisk(w), builds[i]), names)
  {
    assert builds[i] <= names && builds[i] != {};
    assert i > 0 ==> builds[i - 1] <= names;
    hide WellFormed, Roomy, PrefixFree, Safe, CleanedDisk, Written, StaleSet, Builds;
    match last {
      case None => FullCleanFiles(c, disk, builds[i], names);
      case Some(before) => IncrementalCleanFiles(c, disk, before, builds[i], names);
    }
    WrittenFiles(NextTask(c, disk, last, builds[i]), names, builds[i]);
  }

  lemma FreshRunMore(c: Config, fs: Disk, builds: seq<set<Path>>, assets: set<Path>)
    ensures var last := if builds == [] then None else Some(builds[|builds| - 1]);
      FreshRun(c, fs, builds + [assets]) ==
        Written(CleanedDisk(NextTask(c, FreshRun(c, fs, builds), last, assets)), assets)
  {
    hide Written, CleanedDisk, StaleSet;
    if builds == [] {
      assert (builds + [assets])[1..] == [];
    } else {
      assert (builds + [assets])[1..] == builds[1..] + [assets];
      IncrementalRunMore(c, FullStep(c, fs, builds[0]), builds[0], builds[1..], assets);
    }
  }

  lemma {:induction false} IncrementalRunMore(c: Config, fs: Disk, before: set<Path>, builds: seq<set<Path>>,
                                              assets: set<Path>)
    ensures var last := if builds == [] then before else builds[|builds| - 1];
      IncrementalRun(c, fs, before, builds + [assets]) ==
        IncrementalStep(c, IncrementalRun(c, fs, before, builds), last, assets)
    decreases |builds|
  {
    hide IncrementalStep;
    var all := builds + [assets];
    if builds == [] {
      assert all[1..] == [];
      assert IncrementalRun(c, IncrementalStep(c, fs, before, assets), assets, []) ==
        IncrementalStep(c, fs, before, assets);
    } else {
      IncrementalRunMore(c, IncrementalStep(c, fs, before, builds[0]), builds[0], builds[1..], assets);
      assert all[1..] == builds[1..] + [assets];
    }
  }
}
