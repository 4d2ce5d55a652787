/** The output directory as the plugin sees it: a finite map from paths to kinds.
    A path is the list of its segments below the output path; [] is the output path itself. */
module FileTree {
  type Name = string
  type Path = seq<Name>

  datatype Kind = File | Dir

  type Disk = map<Path, Kind>

  /** The error codes the operating system can answer with. */
  datatype Code = ENOENT | ENOTDIR | ENOTEMPTY | EISDIR

  function Parent(p: Path): Path {
    if p == [] then [] else p[..|p| - 1]
  }

  /** The last segment starts with a dot. */
  predicate DotEntry(p: Path) {
    p != [] && p[|p| - 1] != "" && p[|p| - 1][0] == '.'
  }

  /** Everything on disk except the output path itself sits in a directory. */
  ghost predicate WellFormed(fs: Disk) {
    forall p :: p in fs && p != [] ==> Parent(p) in fs && fs[Parent(p)] == Dir
  }

  /** Some proper ancestor of p is a file, so looking p up answers ENOTDIR. */
  predicate BehindFile(fs: Disk, p: Path) {
    exists k :: 0 <= k < |p| && p[..k] in fs && fs[p[..k]] == File
  }

  function Missing(fs: Disk, p: Path): Code {
    if BehindFile(fs, p) then ENOTDIR else ENOENT
  }

  /** The paths directly below d. */
  function Children(fs: Disk, d: Path): set<Path> {
    set p | p in fs && p != [] && Parent(p) == d
  }

  /** names lists the entries of d, each once, in some order. */
  ghost predicate Lists(fs: Disk, d: Path, names: seq<Name>) {
    && (forall n :: n in names <==> d + [n] in fs)
    && (forall i, j :: 0 <= i < j < |names| ==> names[i] != names[j])
  }

  lemma ChildOf(d: Path, n: Name)
    ensures d + [n] != [] && Parent(d + [n]) == d
  {
  }

  lemma ChildNamed(p: Path)
    requires p != []
    ensures Parent(p) + [p[|p| - 1]] == p
  {
  }

  lemma {:induction false} AncestorsExist(fs: Disk, p: Path, k: nat)
    requires WellFormed(fs) && p in fs && k <= |p|
    ensures p[..k] in fs && (k < |p| ==> fs[p[..k]] == Dir)
    decreases |p| - k
  {
    if k == |p| {
      assert p[..k] == p;
    } else {
      AncestorsExist(fs, p, k + 1);
      assert Parent(p[..k + 1]) == p[..k];
    }
  }

  /** A file has nothing below it. */
  lemma FileIsLeaf(fs: Disk, p: Path, q: Path)
    requires WellFormed(fs) && p in fs && fs[p] == File && q in fs && p <= q
    ensures p == q
  {
    AncestorsExist(fs, q, |p|);
    assert q[..|p|] == p;
  }
}
