/** Two cleanings that turn on one file: one where another asset needs a directory, whose outcome depends
    on the schedule, and one that a dot protects from the first build only. */
module CleanExamples {
  import opened Common
  import opened FileTree
  import opened CleanJobs
  import opened CleanInvariant
  import opened CleanRuns
  import opened CleanDiff
  import opened CleanOutcome
  import opened CleanPlugin

  const A: Path := ["a"]
  const B: Path := ["a", "b"]
  const ASSETS: set<Path> := {["a"], ["a", "b", "c"]}
  const FILES: Disk := map[[] := Dir, ["a"] := File]
  const EMPTY: Disk := map[[] := Dir]

  function NothingKept(): Config {
    Config(p => false, false)
  }

  ghost function Cleaning(): World {
    World(NothingKept(), FILES, {A, B})
  }

  lemma AssetDirs(p: Path)
    ensures AssetDir(ASSETS, p) <==> p == [] || p == A || p == B
  {
    var c := ["a", "b", "c"];
    if AssetDir(ASSETS, p) {
      var a :| a in ASSETS && p <= a && (p == a ==> a == []);
      assert p == a[..|p|];
      assert |p| < 3;
    }
    assert c in ASSETS && [] <= c && A <= c && B <= c;
  }

  lemma TheDiff()
    ensures WellFormed(FILES) && FullDiff(FILES, ASSETS, {A, B})
  {
    forall p ensures p in {A, B} <==> Stale(FILES, ASSETS, p) {
      AssetDirs(p);
      AssetDirs(Parent(p));
      assert BehindFile(FILES, B) by {
        assert B[..1] == A;
      }
    }
  }

  // ---------- the states of two schedules ----------

  const CHECK_A := Job(Check, ["a"], None)
  const CHECK_B := Job(Check, ["a", "b"], None)

  function LookUp(job: Job, outcome: Option<Outcome>): Flight {
    Flight(job, LStat, outcome)
  }

  function Both(b: Option<Outcome>): Sys {
    Sys(FILES, [], 2, map[0 := LookUp(CHECK_B, b), 1 := LookUp(CHECK_A, None)], 2, [], false, Working, [])
  }

  lemma FirstDrain()
    ensures Step(NothingKept(), Initial(FILES, [A, B]), Both(None))
  {
    var c, s := NothingKept(), Initial(FILES, [A, B]);
    assert s.queue == [CHECK_A, CHECK_B];
    var s1 := PopAndBegin(c, s);
    assert s1.queue == [CHECK_A] && s1.flights == map[0 := LookUp(CHECK_B, None)];
    var s2 := PopAndBegin(c, s1);
    assert s2 == Both(None).(scheduled := true);
    assert DrainLoop(c, s) == DrainLoop(c, s1) == DrainLoop(c, s2) == s2;
    assert Drain(c, s) == Both(None);
    assert Enabled(s, DrainTick);
    assert After(c, s, DrainTick) == Both(None);
  }

  const FOUND := Some(Stats(false))
  const UNLINK_A := Job(Unlink, ["a"], None)

  lemma Performed(s: Sys, s': Sys, id: nat)
    requires id in s.flights && s.flights[id].call != Tick && s.flights[id].outcome == None
    requires s.flights[id].job.filename == A || s.flights[id].job.filename == B
    requires s.fs == FILES || s.fs == EMPTY
    requires s' == Perform(s, id, [])
    ensures Step(NothingKept(), s, s')
  {
    var d := s.flights[id].job.filename;
    assert forall n: Name :: (d + [n]) !in s.fs by {
      forall n: Name ensures d + [n] !in s.fs {
        assert |d + [n]| > 1;
      }
    }
    assert Enabled(s, PerformCall(id, []));
    assert After(NothingKept(), s, PerformCall(id, [])) == s';
  }

  lemma Delivered(s: Sys, s': Sys, id: nat)
    requires id in s.flights && s.flights[id].outcome.Some? && s' == Deliver(s, id)
    ensures Step(NothingKept(), s, s')
  {
    assert Enabled(s, DeliverCall(id));
    assert After(NothingKept(), s, DeliverCall(id)) == s';
  }

  // ---------- the second root is looked up first ----------

  function AfterError(a: Option<Outcome>): Sys {
    Sys(FILES, [], 1, map[1 := LookUp(CHECK_A, a)], 2, [], false, Failed(ENOTDIR), [])
  }

  function Stuck(): Sys {
    Sys(FILES, [UNLINK_A], 0, map[], 2, [], true, Failed(ENOTDIR), [])
  }

  function FailingRun(): seq<Sys> {
    [Initial(FILES, [A, B]), Both(None), Both(Some(Error(ENOTDIR))), AfterError(None), AfterError(FOUND), Stuck()]
  }

  lemma LookedUpFirst()
    ensures Step(NothingKept(), Both(None), Both(Some(Error(ENOTDIR))))
  {
    assert BehindFile(FILES, B) by {
      assert B[..1] == A;
    }
    hide Step;
    assert Perform(Both(None), 0, []) == Both(Some(Error(ENOTDIR)));
    Performed(Both(None), Both(Some(Error(ENOTDIR))), 0);
  }

  lemma FailingSteps()
    ensures Step(NothingKept(), Both(None), Both(Some(Error(ENOTDIR))))
    ensures Step(NothingKept(), Both(Some(Error(ENOTDIR))), AfterError(None))
    ensures Step(NothingKept(), AfterError(None), AfterError(FOUND))
    ensures Step(NothingKept(), AfterError(FOUND), Stuck())
  {
    hide Step;
    LookedUpFirst();
    assert Deliver(Both(Some(Error(ENOTDIR))), 0) == AfterError(None);
    Delivered(Both(Some(Error(ENOTDIR))), AfterError(None), 0);
    assert Perform(AfterError(None), 1, []) == AfterError(FOUND);
    Performed(AfterError(None), AfterError(FOUND), 1);
    assert Deliver(AfterError(FOUND), 1) == Stuck();
    Delivered(AfterError(FOUND), Stuck(), 1);
  }

  /** The asset "a" is in the way of "a/b/c". When "a/b" is looked up before "a" is removed, the cleaning
      ends with ENOTDIR and "a" stays, although it is doomed. */
  lemma FileInTheWayFails()
    ensures WellFormed(FILES) && FullDiff(FILES, ASSETS, {A, B}) && DiffOf(Cleaning(), [A, B])
    ensures Complete(Cleaning(), [A, B], FailingRun())
    ensures FailingRun()[5].status == Failed(ENOTDIR) && A in FailingRun()[5].fs && Doomed(Cleaning(), A)
  {
    TheDiff();
    DoomedFirst();
    hide Doomed, Complete, FullDiff, DiffOf;
    FailingComplete();
  }

  lemma DoomedFirst()
    ensures Doomed(Cleaning(), A) && DiffOf(Cleaning(), [A, B])
  {
    TheDiff();
    AssetDirs(A);
    AssetDoomedIff(NothingKept(), FILES, ASSETS, {A, B}, A);
    hide Doomed;
  }

  lemma FailingComplete()
    ensures Complete(Cleaning(), [A, B], FailingRun())
  {
    FirstDrain();
    FailingSteps();
    var run := FailingRun();
    hide Step, Initial, Both, AfterError;
    forall i | 0 <= i < |run| - 1 ensures Step(NothingKept(), run[i], run[i + 1]) {
      assert i == 0 || i == 1 || i == 2 || i == 3 || i == 4;
    }
    assert IsRun(Cleaning(), [A, B], run);
    assert !CanStep(Stuck());
  }

  // ---------- "a" is removed first ----------

  function Going(fs: Disk, b: Option<Outcome>, a: Option<Outcome>): Sys {
    Sys(fs, [], 2, map[0 := LookUp(CHECK_B, b), 2 := Flight(UNLINK_A, UnlinkCall, a)], 3, [], false, Working,
        [WillBeRemoved(A)])
  }

  function SucceedingRun(): seq<Sys> {
    [Initial(FILES, [A, B]), Both(None),
     Sys(FILES, [], 2, map[0 := LookUp(CHECK_B, None), 1 := LookUp(CHECK_A, FOUND)], 2, [], false, Working, []),
     Sys(FILES, [UNLINK_A], 1, map[0 := LookUp(CHECK_B, None)], 2, [], true, Working, []),
     Going(FILES, None, None), Going(EMPTY, None, Some(Done)), Going(EMPTY, Some(Error(ENOENT)), Some(Done)),
     Sys(EMPTY, [], 1, map[0 := LookUp(CHECK_B, Some(Error(ENOENT)))], 3, [], true, Working, [WillBeRemoved(A)]),
     Sys(EMPTY, [], 0, map[], 3, [], true, Working, [WillBeRemoved(A), Vanished(B)]),
     Sys(EMPTY, [], 0, map[], 3, [], false, Succeeded, [WillBeRemoved(A), Vanished(B)])]
  }

  lemma SucceedingStart()
    ensures var run := SucceedingRun();
      && Step(NothingKept(), run[1], run[2]) && Step(NothingKept(), run[2], run[3])
      && Step(NothingKept(), run[3], run[4])
  {
    var run := SucceedingRun();
    assert Perform(run[1], 1, []) == run[2];
    Performed(run[1], run[2], 1);
    assert Deliver(run[2], 1) == run[3];
    Delivered(run[2], run[3], 1);
    hide Step;
    SecondDrain();
  }

  lemma SecondDrain()
    ensures Step(NothingKept(), SucceedingRun()[3], SucceedingRun()[4])
  {
    var run := SucceedingRun();
    var s := PopAndBegin(NothingKept(), run[3]);
    assert s == run[4].(scheduled := true);
    assert DrainLoop(NothingKept(), run[3]) == DrainLoop(NothingKept(), s) == s;
    assert Enabled(run[3], DrainTick);
    assert After(NothingKept(), run[3], DrainTick) == run[4];
  }

  lemma SucceedingMiddle()
    ensures var run := SucceedingRun();
      && Step(NothingKept(), run[4], run[5]) && Step(NothingKept(), run[5], run[6])
  {
    var run := SucceedingRun();
    assert FILES - {A} == EMPTY;
    assert Perform(run[4], 2, []) == run[5];
    Performed(run[4], run[5], 2);
    hide Step;
    LookedUpLast();
  }

  lemma LookedUpLast()
    ensures Step(NothingKept(), SucceedingRun()[5], SucceedingRun()[6])
  {
    var run := SucceedingRun();
    assert B[..0] == [] && B[..1] == A;
    assert !BehindFile(EMPTY, B);
    hide Step;
    assert Perform(run[5], 0, []) == run[6];
    Performed(run[5], run[6], 0);
  }

  lemma SucceedingEnd()
    ensures var run := SucceedingRun();
      && Step(NothingKept(), run[6], run[7]) && Step(NothingKept(), run[7], run[8])
      && Step(NothingKept(), run[8], run[9])
  {
    var run := SucceedingRun();
    assert Deliver(run[6], 2) == run[7];
    Delivered(run[6], run[7], 2);
    assert Deliver(run[7], 0) == run[8];
    Delivered(run[7], run[8], 0);
    assert DrainLoop(NothingKept(), run[8]) == run[8];
    assert Enabled(run[8], DrainTick);
    assert After(NothingKept(), run[8], DrainTick) == run[9];
  }

  /** When "a" is removed before "a/b" is looked up, the same cleaning succeeds without "a". */
  lemma FileInTheWayGoes()
    ensures Complete(Cleaning(), [A, B], SucceedingRun())
    ensures SucceedingRun()[9].status == Succeeded && A !in SucceedingRun()[9].fs
  {
    FirstDrain();
    SucceedingStart();
    SucceedingMiddle();
    SucceedingEnd();
    var run := SucceedingRun();
    assert run[9].fs == EMPTY && run[9].flights == map[];
    hide Step;
    forall i | 0 <= i < |run| - 1 ensures Step(NothingKept(), run[i], run[i + 1]) {
      assert i == 0 || i == 1 || i == 2 || i == 3 || i == 4 || i == 5 || i == 6 || i == 7 || i == 8;
    }
    assert IsRun(Cleaning(), [A, B], run);
    assert !CanStep(run[9]);
  }

  // ---------- a dot file that outlives the first build ----------

  const HIDDEN: Path := ["old", ".x"]
  const WITH_HIDDEN: Disk := map[[] := Dir, ["old"] := Dir, ["old", ".x"] := File]
  const FIRST: set<Path> := {["m"]}
  const SECOND: set<Path> := {["m"], ["old", "y"]}

  ghost function AfterFirst(): Disk {
    FullStep(NothingKept(), WITH_HIDDEN, FIRST)
  }

  lemma FirstDirs(p: Path)
    ensures AssetDir(FIRST, p) <==> p == []
    ensures AssetDir(SECOND, p) <==> p == [] || p == ["old"]
  {
    var m, y: Path := ["m"], ["old", "y"];
    assert m in FIRST && m in SECOND && y in SECOND && ["old"] <= y;
    assert p <= m ==> p == m[..|p|];
    assert p <= y ==> p == y[..|p|];
  }

  lemma HiddenWellFormed()
    ensures WellFormed(WITH_HIDDEN)
  {
    var d: Path := ["old"];
    assert HIDDEN[..1] == d && d[..0] == [];
  }

  lemma HiddenRoots()
    ensures RootFor(FIRST, HIDDEN) == ["old"] && RootFor(SECOND, HIDDEN) == HIDDEN
    ensures !Clear(NothingKept(), RootFor(FIRST, HIDDEN), HIDDEN)
      && Clear(NothingKept(), RootFor(SECOND, HIDDEN), HIDDEN)
  {
    FirstDirs(HIDDEN[..0]);
    FirstDirs(HIDDEN[..1]);
    FirstDirs(HIDDEN[..2]);
    assert HIDDEN[..1] == ["old"] && HIDDEN[..2] == HIDDEN;
    assert DotEntry(HIDDEN[..2]);
  }

  lemma NamesAreFree()
    ensures PrefixFree(FIRST) && PrefixFree(SECOND) && FIRST <= SECOND && Roomy(WITH_HIDDEN, SECOND)
  {
    var m, y: Path := ["m"], ["old", "y"];
    assert m[0] != y[0] && !(m <= y) && !(y <= m);
    forall a, k | a in SECOND && 0 <= k <= |a| && a[..k] in WITH_HIDDEN
      ensures WITH_HIDDEN[a[..k]] == if k == |a| then File else Dir
    {
      assert m[..1] == m && y[..2] == y && y[..1] == ["old"];
      assert k == 0 || k == 1 || k == 2;
    }
  }

  /** The first, full clean starts from "old" and leaves it for its dot file. */
  lemma HiddenStays()
    ensures WellFormed(AfterFirst()) && IsFile(AfterFirst(), HIDDEN) && Roomy(AfterFirst(), SECOND)
  {
    var c, w := NothingKept(), World(NothingKept(), WITH_HIDDEN, StaleSet(WITH_HIDDEN, FIRST));
    HiddenWellFormed();
    NamesAreFree();
    HiddenRoots();
    StaleSetComplete(WITH_HIDDEN, FIRST);
    hide WellFormed, PrefixFree, Roomy, Clear, RootFor, StaleSet, Written, CleanedDisk, FullDiff, Doomed, WorldOk;
    FullHazards(c, WITH_HIDDEN, FIRST, w.roots);
    FullCleanRemoves(c, WITH_HIDDEN, FIRST, w.roots, HIDDEN);
    CleanedWellFormed(w);
    CleanedRoomy(w, SECOND);
    StaysThere(w, HIDDEN);
    WrittenWellFormed(CleanedDisk(w), SECOND, FIRST);
    WrittenKind(CleanedDisk(w), SECOND, FIRST, HIDDEN);
    WrittenRoomy(CleanedDisk(w), SECOND, FIRST);
  }

  lemma StaysThere(w: World, p: Path)
    ensures IsFile(CleanedDisk(w), p) <==> IsFile(w.fs0, p) && !Doomed(w, p)
  {
  }

  /** After the builds {m} and {m, old/y} the dot file is gone when each build looks at the disk, and still
      there when only the first does. */
  lemma HiddenDiffers()
    ensures var builds := [FIRST, SECOND];
      && !IsFile(FullRun(NothingKept(), WITH_HIDDEN, builds), HIDDEN)
      && IsFile(FreshRun(NothingKept(), WITH_HIDDEN, builds), HIDDEN)
  {
    var c, f := NothingKept(), AfterFirst();
    HiddenStays();
    NamesAreFree();
    HiddenRoots();
    hide WellFormed, PrefixFree, Roomy, Clear, RootFor, StaleSet, Written, CleanedDisk, FullDiff, Doomed, WorldOk,
         AfterFirst;
    HiddenInFull(f);
    HiddenInFresh(f);
    TwoBuilds();
  }

  lemma TwoBuilds()
    ensures FullRun(NothingKept(), WITH_HIDDEN, [FIRST, SECOND]) == FullStep(NothingKept(), AfterFirst(), SECOND)
    ensures FreshRun(NothingKept(), WITH_HIDDEN, [FIRST, SECOND]) ==
      IncrementalStep(NothingKept(), AfterFirst(), FIRST, SECOND)
  {
    hide FullStep, IncrementalStep;
    var builds := [FIRST, SECOND];
    assert builds[1..] == [SECOND] && [SECOND][1..] == [];
    assert FullRun(NothingKept(), FullStep(NothingKept(), AfterFirst(), SECOND), []) ==
      FullStep(NothingKept(), AfterFirst(), SECOND);
    var step := IncrementalStep(NothingKept(), AfterFirst(), FIRST, SECOND);
    assert IncrementalRun(NothingKept(), step, SECOND, []) == step;
    assert IncrementalRun(NothingKept(), AfterFirst(), FIRST, [SECOND]) == step;
  }

  lemma HiddenInFull(f: Disk)
    requires WellFormed(f) && IsFile(f, HIDDEN) && Roomy(f, SECOND) && PrefixFree(SECOND)
    requires Clear(NothingKept(), RootFor(SECOND, HIDDEN), HIDDEN)
    ensures !IsFile(FullStep(NothingKept(), f, SECOND), HIDDEN)
  {
    var c, w := NothingKept(), World(NothingKept(), f, StaleSet(f, SECOND));
    StaleSetComplete(f, SECOND);
    hide WellFormed, PrefixFree, Roomy, Clear, RootFor, StaleSet, Written, CleanedDisk, FullDiff, Doomed;
    FullCleanRemoves(c, f, SECOND, w.roots, HIDDEN);
    CoveredIsAsset(f, SECOND, SECOND, HIDDEN);
    StaysThere(w, HIDDEN);
    CleanedRoomy(w, SECOND);
    WrittenKind(CleanedDisk(w), SECOND, SECOND, HIDDEN);
  }

  lemma HiddenInFresh(f: Disk)
    requires IsFile(f, HIDDEN) && Roomy(f, SECOND) && PrefixFree(SECOND) && FIRST <= SECOND
    ensures IsFile(IncrementalStep(NothingKept(), f, FIRST, SECOND), HIDDEN)
  {
    var w := World(NothingKept(), f, FIRST - SECOND);
    assert w.roots == {};
    assert !Doomed(w, HIDDEN);
    hide PrefixFree, Roomy, Written, CleanedDisk, Doomed;
    StaysThere(w, HIDDEN);
    CleanedRoomy(w, SECOND);
    WrittenKind(CleanedDisk(w), SECOND, SECOND, HIDDEN);
  }
}
