/** Which paths the clean plugin considers stale, and what cleaning them leaves on disk. */
module CleanDiff {
  import opened FileTree
  import opened CleanJobs
  import CleanRunner

  /** d is a directory that some asset is written into, directly or further down. */
  predicate AssetDir(assets: set<Path>, d: Path) {
    exists a :: a in assets && d <= a && (d == a ==> a == [])
  }

  /** readdir on p answers ENOTDIR. */
  predicate NotDirectory(fs: Disk, p: Path) {
    if p in fs then fs[p] == File else BehindFile(fs, p)
  }

  /** What getDiffToFs collects. */
  ghost predicate Stale(fs: Disk, assets: set<Path>, p: Path) {
    || (AssetDir(assets, p) && NotDirectory(fs, p))
    || (p in fs && p != [] && AssetDir(assets, Parent(p)) && !AssetDir(assets, p) && p !in assets)
  }

  // ---------- the algorithms ----------

  /** Set.prototype.add on a set iterated in insertion order. */
  function Add(s: seq<Path>, p: Path): seq<Path> {
    if p in s then s else s + [p]
  }

  function Prefixes(assets: set<Path>): set<Path> {
    set a, k | a in assets && 0 <= k <= |a| :: a[..k]
  }

  lemma ParentIsPrefix(assets: set<Path>, p: Path)
    requires p in Prefixes(assets)
    ensures Parent(p) in Prefixes(assets)
  {
    var a, k :| a in assets && 0 <= k <= |a| && a[..k] == p;
    if k > 0 {
      assert Parent(p) == a[..k - 1];
    }
  }

  ghost function SetOf(s: seq<Path>): set<Path> {
    set p | p in s
  }

  ghost predicate IsParent(assets: set<Path>, d: Path) {
    exists a :: a in assets && d == Parent(a)
  }

  /** The directories of the assets themselves. */
  method ParentsOf(assets: set<Path>) returns (directories: seq<Path>)
    ensures forall d :: d in directories <==> IsParent(assets, d)
  {
    directories := [];
    var todo := assets;
    while todo != {}
      invariant todo <= assets
      invariant forall d :: d in directories <==> exists a :: a in assets - todo && d == Parent(a)
      decreases todo
    {
      var asset :| asset in todo;
      directories := Add(directories, Parent(asset));
      todo := todo - {asset};
    }
    assert assets - todo == assets;
  }

  ghost predicate AllDirs(assets: set<Path>, directories: seq<Path>) {
    forall d :: d in directories ==> d in Prefixes(assets) && AssetDir(assets, d)
  }

  /** The parents of the first i directories are directories too. */
  ghost predicate ClosedUpTo(directories: seq<Path>, i: nat)
    requires i <= |directories|
  {
    forall j :: 0 <= j < i ==> Parent(directories[j]) in directories
  }

  lemma AddDir(assets: set<Path>, directories: seq<Path>, i: nat)
    requires i < |directories| && AllDirs(assets, directories) && ClosedUpTo(directories, i)
    ensures var more := Add(directories, Parent(directories[i]));
            && directories <= more && i < |more| && AllDirs(assets, more) && ClosedUpTo(more, i + 1)
            && (more == directories || Prefixes(assets) - SetOf(more) < Prefixes(assets) - SetOf(directories))
  {
    var p := Parent(directories[i]);
    var more := Add(directories, p);
    assert directories[i] in directories;
    ParentIsPrefix(assets, directories[i]);
    ParentOfDir(assets, directories[i]);
    hide AssetDir, Prefixes;
    assert p in more;
    if more != directories {
      assert p in Prefixes(assets) - SetOf(directories);
      assert p !in Prefixes(assets) - SetOf(more);
    }
  }

  /** directories: the parents of all assets, and their parents as they turn up. */
  method AssetDirectories(assets: set<Path>) returns (directories: seq<Path>)
    ensures forall d :: d in directories <==> AssetDir(assets, d)
  {
    directories := ParentsOf(assets);
    ghost var parents := directories;
    assert AllDirs(assets, directories) by {
      forall d | d in directories ensures d in Prefixes(assets) && AssetDir(assets, d) {
        ParentsAreDirs(assets, d);
      }
    }
    hide AllDirs, Prefixes, AssetDir, IsParent;
    var i := 0;
    while i < |directories|
      invariant 0 <= i <= |directories| && parents <= directories
      invariant AllDirs(assets, directories) && ClosedUpTo(directories, i)
      decreases Prefixes(assets) - SetOf(directories), |directories| - i
    {
      AddDir(assets, directories, i);
      directories := Add(directories, Parent(directories[i]));
      i := i + 1;
    }
    DirsAreReached(assets, parents, directories);
  }

  lemma ParentsAreDirs(assets: set<Path>, d: Path)
    requires IsParent(assets, d)
    ensures d in Prefixes(assets) && AssetDir(assets, d)
  {
    var a :| a in assets && d == Parent(a);
    assert d == a[..|d|];
  }

  lemma ParentOfDir(assets: set<Path>, d: Path)
    requires AssetDir(assets, d)
    ensures AssetDir(assets, Parent(d))
  {
    var a :| a in assets && d <= a && (d == a ==> a == []);
    assert Parent(d) <= a;
  }

  lemma DirsAreReached(assets: set<Path>, parents: seq<Path>, directories: seq<Path>)
    requires forall d :: d in parents <==> IsParent(assets, d)
    requires parents <= directories && AllDirs(assets, directories) && ClosedUpTo(directories, |directories|)
    ensures forall d :: d in directories <==> AssetDir(assets, d)
  {
    forall d | AssetDir(assets, d) ensures d in directories {
      var a :| a in assets && d <= a && (d == a ==> a == []);
      assert IsParent(assets, Parent(a));
      assert Parent(a) in parents;
      hide AllDirs, IsParent, AssetDir;
      Climb(directories, Parent(a), d);
    }
  }

  lemma {:induction false} Climb(directories: seq<Path>, p: Path, d: Path)
    requires p in directories && d <= p && ClosedUpTo(directories, |directories|)
    ensures d in directories
    decreases |p|
  {
    if d != p {
      Climb(directories, Parent(p), d);
    }
  }

  /** What reading the directory d adds to the diff. */
  ghost predicate StaleIn(fs: Disk, assets: set<Path>, d: Path, p: Path) {
    || (p == d && NotDirectory(fs, d))
    || (p in fs && p != [] && Parent(p) == d && !AssetDir(assets, p) && p !in assets)
  }

  lemma EntryOf(fs: Disk, d: Path, names: seq<Name>, p: Path)
    requires Lists(fs, d, names)
    ensures (exists m :: 0 <= m < |names| && p == d + [names[m]]) <==> p in fs && p != [] && Parent(p) == d
  {
    if p in fs && p != [] && Parent(p) == d {
      ChildNamed(p);
      var m :| 0 <= m < |names| && names[m] == p[|p| - 1];
      assert p == d + [names[m]];
    }
  }

  /** One directory's share of the diff. */
  method ReadOne(fs: Disk, assets: set<Path>, directories: seq<Path>, directory: Path) returns (found: set<Path>)
    requires WellFormed(fs) && forall d :: d in directories <==> AssetDir(assets, d)
    ensures forall p :: p in found <==> StaleIn(fs, assets, directory, p)
  {
    found := {};
    var listing := CleanRunner.ListDirectory(fs, directory);
    hide AssetDir, BehindFile, WellFormed;
    match Answer(fs, ReadDir, directory, listing) {
      case Error(code) =>
        if code == ENOTDIR {
          found := {directory};
        }
        NothingInside(fs, directory);
      case Entries(entries) =>
        for k := 0 to |entries|
          invariant forall p :: p in found <==>
            exists m :: 0 <= m < k && p == directory + [entries[m]] && p !in directories && p !in assets
        {
          var filename := directory + [entries[k]];
          if filename !in directories && filename !in assets {
            found := found + {filename};
          }
        }
        forall p ensures p in found <==> StaleIn(fs, assets, directory, p) {
          EntryOf(fs, directory, listing, p);
        }
      case _ =>
    }
  }

  lemma NothingInside(fs: Disk, d: Path)
    requires WellFormed(fs) && (d !in fs || fs[d] == File)
    ensures forall p :: p in fs && p != [] ==> Parent(p) != d
  {
  }

  /** getDiffToFs; the directories are only read, so their order does not matter. */
  method GetDiffToFs(fs: Disk, assets: set<Path>) returns (diff: set<Path>)
    requires WellFormed(fs)
    ensures forall p :: p in diff <==> Stale(fs, assets, p)
  {
    var directories := AssetDirectories(assets);
    diff := {};
    hide StaleIn, WellFormed;
    for i := 0 to |directories|
      invariant forall p :: p in diff <==> exists j :: 0 <= j < i && StaleIn(fs, assets, directories[j], p)
    {
      var found := ReadOne(fs, assets, directories, directories[i]);
      diff := diff + found;
    }
    forall p ensures p in diff <==> Stale(fs, assets, p) {
      StaleSomewhere(fs, assets, directories, p);
    }
  }

  lemma StaleSomewhere(fs: Disk, assets: set<Path>, directories: seq<Path>, p: Path)
    requires forall d :: d in directories <==> AssetDir(assets, d)
    ensures (exists j :: 0 <= j < |directories| && StaleIn(fs, assets, directories[j], p)) <==> Stale(fs, assets, p)
  {
    hide AssetDir, NotDirectory;
    if Stale(fs, assets, p) {
      var d := if AssetDir(assets, p) && NotDirectory(fs, p) then p else Parent(p);
      var j :| 0 <= j < |directories| && directories[j] == d;
      assert StaleIn(fs, assets, directories[j], p);
    }
    if j :| 0 <= j < |directories| && StaleIn(fs, assets, directories[j], p) {
      assert directories[j] in directories;
    }
  }

  /** getDiffToOldAssets */
  method GetDiffToOldAssets(currentAssets: set<Path>, oldAssets: set<Path>) returns (diff: set<Path>)
    ensures diff == oldAssets - currentAssets
  {
    diff := {};
    var todo := oldAssets;
    while todo != {}
      invariant todo <= oldAssets
      invariant diff == (oldAssets - todo) - currentAssets
      decreases todo
    {
      var asset :| asset in todo;
      if asset !in currentAssets {
        diff := diff + {asset};
      }
      todo := todo - {asset};
    }
  }
}
