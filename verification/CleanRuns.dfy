/** The main results about applyDiff: what every schedule of the jobs ends in. */
module CleanRuns {
  import opened Common
  import opened FileTree
  import opened CleanJobs
  import opened CleanInvariant
  import opened CleanSteps
  import opened CleanEvents
  import opened CleanWeight

  // ---------- the specification, without any job or counter ----------

  /** From root r down to q nothing is kept, and nothing strictly below r is a dot entry. */
  ghost predicate Clear(c: Config, r: Path, q: Path) {
    forall k :: |r| <= k <= |q| ==> !c.keep(q[..k]) && (k > |r| ==> !DotEntry(q[..k]))
  }

  /** p lies at or below the diff root r and everything in it is clear. */
  ghost predicate DoomedBy(w: World, r: Path, p: Path) {
    && r in w.roots && r <= p
    && forall q :: q in w.fs0 && p <= q ==> Clear(w.c, r, q)
  }

  /** p must go. */
  ghost predicate Doomed(w: World, p: Path) {
    p in w.fs0 && exists r :: DoomedBy(w, r, p)
  }

  /** The outcome of a cleaning: announced are the doomed paths, and a real run has removed them. */
  ghost predicate Cleaned(w: World, s: Sys) {
    && s.status == Succeeded
    && (forall p :: p in s.fs <==> p in w.fs0 && (w.c.dry || !Doomed(w, p)))
    && (forall p :: p in s.fs ==> s.fs[p] == w.fs0[p])
    && (forall p :: WillBeRemoved(p) in s.log <==> Doomed(w, p))
  }

  // ---------- visited paths and clear paths ----------

  lemma {:induction false} VisitedIsClear(w: World, p: Path)
    requires Visited(w, p) && !w.c.keep(p)
    ensures exists r :: r in w.roots && r <= p && Clear(w.c, r, p)
    decreases |p|
  {
    if p in w.roots {
      assert p <= p && p[..|p|] == p;
      assert Clear(w.c, p, p);
    } else {
      VisitedIsClear(w, Parent(p));
      var r :| r in w.roots && r <= Parent(p) && Clear(w.c, r, Parent(p));
      forall k | |r| <= k <= |p| ensures !w.c.keep(p[..k]) && (k > |r| ==> !DotEntry(p[..k])) {
        if k == |p| {
          assert p[..k] == p;
        } else {
          assert p[..k] == Parent(p)[..k];
        }
      }
      assert r <= p;
    }
  }

  lemma {:induction false} ClearIsVisited(w: World, r: Path, p: Path)
    requires WellFormed(w.fs0) && r in w.roots && r <= p && p in w.fs0 && Clear(w.c, r, p)
    ensures Visited(w, p) && !w.c.keep(p)
    decreases |p|
  {
    assert p[..|p|] == p;
    if p != r {
      var q := Parent(p);
      assert q == p[..|p| - 1];
      assert forall k :: |r| <= k <= |q| ==> q[..k] == p[..k];
      ClearIsVisited(w, r, q);
    }
  }

  lemma SameRoot(w: World, a: Path, b: Path, p: Path)
    requires WorldOk(w) && p in w.fs0 && a in w.roots && b in w.roots && a <= p && b <= p
    ensures a == b
  {
    AncestorsExist(w.fs0, p, |a|);
    AncestorsExist(w.fs0, p, |b|);
    assert p[..|a|] == a && p[..|b|] == b;
    assert a <= b || b <= a;
  }

  // ---------- when nothing is left to do ----------

  ghost predicate Idle(s: Sys) {
    s.queue == [] && s.flights == map[]
  }

  lemma {:induction false} AllFound(w: World, s: Sys, gone: set<Path>, p: Path)
    requires Core(w, s, gone, None, {}, {}) && Idle(s) && Visited(w, p)
    ensures p in w.roots || HasToken(s, Parent(p))
    decreases |p|
  {
    if p !in w.roots {
      var d := Parent(p);
      AllFound(w, s, gone, d);
      assert !Pending(s, d);
      assert Covered(w, s, gone, {}) && GoneOk(w, s, gone);
      hide Core, Pending;
      if d in gone {
        assert p !in Left(w, gone, d);
      } else {
        assert OnHold(s, d);
      }
    }
  }

  lemma Settled(w: World, s: Sys, gone: set<Path>, p: Path)
    requires Core(w, s, gone, None, {}, {}) && Idle(s) && Visited(w, p) && !w.c.keep(p)
    ensures p in gone || Left(w, gone, p) != {}
  {
    AllFound(w, s, gone, p);
    assert !Pending(s, p);
    assert Covered(w, s, gone, {}) && TokensOk(w, s, gone, None);
    hide Core, Pending, Announced, Visited, HasToken;
    if OnHold(s, p) {
      var t :| 0 <= t < |s.tokens| && s.tokens[t].job.filename == p && s.tokens[t].remaining > 0;
      assert TokenOk(w, s, gone, None, t);
    }
  }

  ghost function Subtree(fs: Disk, p: Path): set<Path> {
    set q | q in fs && p <= q
  }

  lemma {:induction false} DoomedIsGone(w: World, s: Sys, gone: set<Path>, r: Path, p: Path)
    requires WorldOk(w) && Core(w, s, gone, None, {}, {}) && Idle(s)
    requires p in w.fs0 && DoomedBy(w, r, p)
    ensures p in gone
    decreases Subtree(w.fs0, p)
  {
    assert p <= p;
    ClearIsVisited(w, r, p);
    hide Core, WorldOk, Visited, Clear;
    Settled(w, s, gone, p);
    if p !in gone {
      var e :| e in Left(w, gone, p);
      assert p <= e && r <= e;
      assert p in Subtree(w.fs0, p) && p !in Subtree(w.fs0, e);
      assert Subtree(w.fs0, e) < Subtree(w.fs0, p);
      assert DoomedBy(w, r, e);
      DoomedIsGone(w, s, gone, r, e);
    }
  }

  lemma {:induction false} GoneBelow(w: World, s: Sys, gone: set<Path>, p: Path, q: Path)
    requires WellFormed(w.fs0) && GoneOk(w, s, gone) && p in gone && q in w.fs0 && p <= q
    ensures q in gone
    decreases |q|
  {
    if q != p {
      GoneBelow(w, s, gone, p, Parent(q));
      assert q !in Left(w, gone, Parent(q));
    }
  }

  lemma GoneIsDoomed(w: World, s: Sys, gone: set<Path>, p: Path)
    requires WorldOk(w) && GoneOk(w, s, gone) && p in gone
    ensures Doomed(w, p)
  {
    assert Visited(w, p) && !w.c.keep(p);
    VisitedIsClear(w, p);
    var r :| r in w.roots && r <= p && Clear(w.c, r, p);
    forall q | q in w.fs0 && p <= q ensures Clear(w.c, r, q) {
      GoneBelow(w, s, gone, p, q);
      assert Visited(w, q) && !w.c.keep(q);
      hide Visited, GoneOk;
      VisitedIsClear(w, q);
      var r' :| r' in w.roots && r' <= q && Clear(w.c, r', q);
      SameRoot(w, r, r', q);
    }
    assert DoomedBy(w, r, p);
  }

  /** With nothing left to do, exactly the doomed paths have been reported. */
  lemma IdleMeansCleaned(w: World, s: Sys, gone: set<Path>)
    requires WorldOk(w) && Inv(w, s, gone) && s.status == Succeeded
    ensures Cleaned(w, s)
  {
    assert Idle(s);
    assert GoneOk(w, s, gone) && LogOk(w, s, gone, {}) && DiskOk(w, s, gone, {}) && Core(w, s, gone, None, {}, {});
    assert forall q :: !RemovalInFlight(s, q) && !RemovalDone(s, q);
    assert forall p :: p in gone <==> Doomed(w, p) by {
      hide Core, GoneOk, LogOk, DiskOk, WorldOk, Clear;
      forall p | p in gone ensures Doomed(w, p) {
        GoneIsDoomed(w, s, gone, p);
      }
      forall p | Doomed(w, p) ensures p in gone {
        var r :| DoomedBy(w, r, p);
        DoomedIsGone(w, s, gone, r, p);
      }
    }
    hide Core, GoneOk, Doomed, RemovalInFlight, RemovalDone;
  }

  // ---------- runs ----------

  ghost predicate Step(c: Config, s: Sys, s': Sys) {
    exists e :: Enabled(s, e) && s' == After(c, s, e)
  }

  ghost predicate CanStep(s: Sys) {
    exists e :: Enabled(s, e)
  }

  /** diff lists the roots, each once. */
  ghost predicate DiffOf(w: World, diff: seq<Path>) {
    && (forall p :: p in diff <==> p in w.roots)
    && (forall i, j :: 0 <= i < j < |diff| ==> diff[i] != diff[j])
  }

  /** A schedule from the start: each state follows from the one before by some event. */
  ghost predicate IsRun(w: World, diff: seq<Path>, run: seq<Sys>) {
    && run != []
    && run[0] == Initial(w.fs0, diff)
    && (forall i :: 0 <= i < |run| - 1 ==> Step(w.c, run[i], run[i + 1]))
  }

  lemma InitialJobs(w: World, diff: seq<Path>, s: Sys)
    requires DiffOf(w, diff) && s == Initial(w.fs0, diff)
    ensures Unique(s)
    ensures forall q :: q in w.roots ==> Pending(s, q)
    ensures QueueOk(w, s, {})
  {
    assert s.queue == seq(|diff|, i requires 0 <= i < |diff| => Job(Check, diff[i], None));
    assert s.log == [] && s.tokens == [] && s.flights == map[];
    hide Initial;
    forall q | q in w.roots ensures Pending(s, q) {
      var i :| 0 <= i < |diff| && diff[i] == q;
      assert PendingAt(s, Waiting(i), q);
    }
    forall i | 0 <= i < |s.queue| ensures Ready(w, s, {}, s.queue[i]) && !Announced(s, s.queue[i].filename) {
      assert s.queue[i].filename in w.roots;
    }
  }

  lemma InitialKeeps(w: World, diff: seq<Path>)
    requires WorldOk(w) && DiffOf(w, diff)
    ensures Inv(w, Initial(w.fs0, diff), {})
  {
    var s := Initial(w.fs0, diff);
    InitialJobs(w, diff, s);
    assert forall q :: !RemovalInFlight(s, q) && !RemovalDone(s, q) && !Announced(s, q) && !HasToken(s, q);
    hide RemovalInFlight, RemovalDone, Announced, HasToken, Visited, Pending, Unique, QueueOk, WorldOk;
  }

  lemma StepKeeps(w: World, s: Sys, s': Sys, gone: set<Path>) returns (gone': set<Path>)
    requires WorldOk(w) && Inv(w, s, gone) && Step(w.c, s, s')
    ensures Inv(w, s', gone') && gone <= gone'
    ensures Weight(w, s') < Weight(w, s)
  {
    var e :| Enabled(s, e) && s' == After(w.c, s, e);
    hide Inv, WorldOk, Weight, Drain, Perform, Deliver;
    match e
    case DrainTick =>
      gone' := DrainKeeps(w, s, gone);
      DrainWeight(w, s, gone);
    case PerformCall(id, listing) =>
      PerformKeeps(w, s, gone, id, listing);
      PerformWeight(w, s, gone, id, listing);
      gone' := gone;
    case DeliverCall(id) =>
      gone' := DeliverKeeps(w, s, gone, id);
      DeliverWeight(w, s, gone, id);
  }

  /** Every reachable state keeps the invariant, and the weight has paid for every event so far. */
  lemma {:induction false} RunKeeps(w: World, diff: seq<Path>, run: seq<Sys>, i: nat) returns (gone: set<Path>)
    requires WorldOk(w) && DiffOf(w, diff) && IsRun(w, diff, run) && i < |run|
    ensures Inv(w, run[i], gone)
    ensures Weight(w, run[i]) + i <= Weight(w, run[0])
  {
    hide Inv, WorldOk, Weight, Step, Initial, DiffOf;
    if i == 0 {
      InitialKeeps(w, diff);
      gone := {};
    } else {
      var before := RunKeeps(w, diff, run, i - 1);
      assert Step(w.c, run[i - 1], run[i - 1 + 1]);
      gone := StepKeeps(w, run[i - 1], run[i], before);
    }
  }

  lemma {:induction false} Listable(fs: Disk, d: Path, kids: set<Path>) returns (names: seq<Name>)
    requires forall k :: k in kids ==> k != [] && Parent(k) == d
    ensures forall n :: n in names <==> d + [n] in kids
    ensures NoDup(names)
    decreases kids
  {
    if kids == {} {
      names := [];
    } else {
      var k :| k in kids;
      ChildNamed(k);
      var n := k[|k| - 1];
      var rest := Listable(fs, d, kids - {k});
      names := [n] + rest;
      forall m ensures m in names <==> d + [m] in kids {
        assert d + [m] == k ==> m == n by {
          assert (d + [m])[|d|] == m && k[|d|] == n;
        }
      }
    }
  }

  /** Deadlock freedom: a task that has not called back can take another event. */
  lemma WorkingCanStep(w: World, s: Sys, gone: set<Path>)
    requires Inv(w, s, gone) && s.status == Working
    ensures CanStep(s)
  {
    hide Core;
    if s.scheduled {
      assert Enabled(s, DrainTick);
    } else {
      assert s.flights.Keys != {};
      var id :| id in s.flights;
      if s.flights[id].outcome.Some? || s.flights[id].call == Tick {
        assert Enabled(s, DeliverCall(id));
      } else {
        var p := s.flights[id].job.filename;
        var names := Listable(s.fs, p, Children(s.fs, p));
        forall n ensures n in names <==> p + [n] in s.fs {
          ChildOf(p, n);
        }
        assert Enabled(s, PerformCall(id, names));
      }
    }
  }

  /** Every schedule is finite and ends in the one specified outcome, or fails because of a root that
      is missing behind a file and not kept. */
  lemma EverySchedule(w: World, diff: seq<Path>, run: seq<Sys>)
    requires WorldOk(w) && DiffOf(w, diff) && IsRun(w, diff, run)
    ensures |run| <= Weight(w, Initial(w.fs0, diff)) + 1
    ensures match run[|run| - 1].status
            case Working => CanStep(run[|run| - 1])
            case Succeeded => Cleaned(w, run[|run| - 1])
            case Failed(code) => code == ENOTDIR && !Safe(w)
  {
    var last := run[|run| - 1];
    var gone := RunKeeps(w, diff, run, |run| - 1);
    hide Inv, WorldOk, Step, Initial, Cleaned, CanStep, DiffOf, Weight;
    match last.status
    case Working => WorkingCanStep(w, last, gone);
    case Succeeded => IdleMeansCleaned(w, last, gone);
    case Failed(code) => FailedMeansHazard(w, last, gone);
  }

  lemma FailedMeansHazard(w: World, s: Sys, gone: set<Path>)
    requires Inv(w, s, gone) && s.status.Failed?
    ensures s.status == Failed(ENOTDIR) && !Safe(w)
  {
    hide Core, BehindFile;
    assert exists r :: Hazard(w, r);
  }

  // ---------- consequences ----------

  lemma DoomedReachesDown(w: World, p: Path)
    requires WorldOk(w) && Doomed(w, p)
    ensures Visited(w, p) && !w.c.keep(p) && forall e :: e in Children(w.fs0, p) ==> Doomed(w, e)
  {
    assert p <= p;
    var r :| DoomedBy(w, r, p);
    ClearIsVisited(w, r, p);
    hide Visited, Clear;
    forall e | e in Children(w.fs0, p) ensures Doomed(w, e) {
      assert r <= p <= e;
      assert DoomedBy(w, r, e);
    }
  }

  lemma ChildTowards(fs: Disk, p: Path, q: Path) returns (e: Path)
    requires WellFormed(fs) && q in fs && p <= q && p != q
    ensures e in Children(fs, p) && e <= q && p <= e
  {
    AncestorsExist(fs, q, |p| + 1);
    e := q[..|p| + 1];
    assert Parent(e) == p;
  }

  lemma DoomedFromBelow(w: World, p: Path)
    requires WorldOk(w) && Visited(w, p) && !w.c.keep(p)
    requires forall e :: e in Children(w.fs0, p) ==> Doomed(w, e)
    ensures Doomed(w, p)
  {
    VisitedIsClear(w, p);
    var r :| r in w.roots && r <= p && Clear(w.c, r, p);
    assert p in w.fs0;
    hide Visited, Clear;
    forall q | q in w.fs0 && p <= q ensures Clear(w.c, r, q) {
      if q != p {
        var e := ChildTowards(w.fs0, p, q);
        hide Children;
        var r' :| DoomedBy(w, r', e);
        assert r <= e;
        SameRoot(w, r, r', e);
      }
    }
    assert DoomedBy(w, r, p);
  }

  /** The specification as a recursion over the tree: a path goes exactly when it is reached by the
      descent, is not kept, and everything directly in it goes. */
  lemma DoomedUnfolds(w: World, p: Path)
    requires WorldOk(w)
    ensures Doomed(w, p) <==>
              Visited(w, p) && !w.c.keep(p) && forall e :: e in Children(w.fs0, p) ==> Doomed(w, e)
  {
    hide Doomed, Visited, WorldOk, Children;
    if Doomed(w, p) {
      DoomedReachesDown(w, p);
    } else if Visited(w, p) && !w.c.keep(p) && forall e :: e in Children(w.fs0, p) ==> Doomed(w, e) {
      DoomedFromBelow(w, p);
    }
  }

  /** A schedule that has run to its end. */
  ghost predicate Complete(w: World, diff: seq<Path>, run: seq<Sys>) {
    IsRun(w, diff, run) && !CanStep(run[|run| - 1])
  }

  lemma CompleteIsCleaned(w: World, diff: seq<Path>, run: seq<Sys>)
    requires WorldOk(w) && DiffOf(w, diff) && Complete(w, diff, run)
    ensures run != [] && (Cleaned(w, run[|run| - 1]) || (run[|run| - 1].status.Failed? && !Safe(w)))
  {
    hide WorldOk, DiffOf, CanStep, Weight, Step, Initial, Cleaned, Safe;
    EverySchedule(w, diff, run);
  }

  ghost function WithDry(w: World, dry: bool): World {
    w.(c := w.c.(dry := dry))
  }

  lemma SameDoomed(w: World)
    ensures forall p :: Doomed(WithDry(w, true), p) <==> Doomed(WithDry(w, false), p)
  {
    var a, b := WithDry(w, true), WithDry(w, false);
    assert forall r, q :: Clear(a.c, r, q) <==> Clear(b.c, r, q);
    hide Clear;
    assert forall r, p :: DoomedBy(a, r, p) <==> DoomedBy(b, r, p);
    hide DoomedBy;
  }

  /** Dry and real runs over the same disk and diff: the dry run changes nothing and announces
      exactly the paths the real run takes off the disk, whatever their schedules. */
  lemma DryRunPredicts(w: World, diff: seq<Path>, dryRun: seq<Sys>, realRun: seq<Sys>)
    requires WorldOk(w) && DiffOf(w, diff)
    requires Complete(WithDry(w, true), diff, dryRun) && Complete(WithDry(w, false), diff, realRun)
    requires dryRun != [] && dryRun[|dryRun| - 1].status == Succeeded
    requires realRun != [] && realRun[|realRun| - 1].status == Succeeded
    ensures dryRun[|dryRun| - 1].fs == w.fs0
    ensures forall p :: WillBeRemoved(p) in dryRun[|dryRun| - 1].log <==>
              p in w.fs0 && p !in realRun[|realRun| - 1].fs
    ensures forall p :: WillBeRemoved(p) in dryRun[|dryRun| - 1].log <==>
              WillBeRemoved(p) in realRun[|realRun| - 1].log
  {
    hide DiffOf, Complete, Cleaned;
    assert WorldOk(WithDry(w, true)) && WorldOk(WithDry(w, false));
    assert DiffOf(WithDry(w, true), diff) && DiffOf(WithDry(w, false), diff) by {
      SameDiff(w, diff);
    }
    hide WorldOk, WithDry, Safe;
    CompleteIsCleaned(WithDry(w, true), diff, dryRun);
    CompleteIsCleaned(WithDry(w, false), diff, realRun);
    DryEndsLikeReal(w, dryRun[|dryRun| - 1], realRun[|realRun| - 1]);
  }

  lemma SameDiff(w: World, diff: seq<Path>)
    requires DiffOf(w, diff)
    ensures forall dry :: DiffOf(WithDry(w, dry), diff)
  {
  }

  lemma DryEndsLikeReal(w: World, a: Sys, b: Sys)
    requires Cleaned(WithDry(w, true), a) && Cleaned(WithDry(w, false), b)
    ensures a.fs == w.fs0
    ensures forall p :: WillBeRemoved(p) in a.log <==> p in w.fs0 && p !in b.fs
    ensures forall p :: WillBeRemoved(p) in a.log <==> WillBeRemoved(p) in b.log
  {
    SameDoomed(w);
    assert forall p :: Doomed(WithDry(w, true), p) ==> p in w.fs0;
    hide Doomed;
    assert a.fs.Keys == w.fs0.Keys;
  }

  /** Two complete schedules of the same cleaning that succeed end with the same disk and the same
      announcements; in a safe world all succeed. */
  lemma SchedulesAgree(w: World, diff: seq<Path>, run: seq<Sys>, other: seq<Sys>)
    requires WorldOk(w) && DiffOf(w, diff) && Complete(w, diff, run) && Complete(w, diff, other)
    ensures run != [] && other != []
    ensures Safe(w) ==> run[|run| - 1].status == Succeeded && other[|other| - 1].status == Succeeded
    ensures run[|run| - 1].status == Succeeded && other[|other| - 1].status == Succeeded ==>
      && run[|run| - 1].fs == other[|other| - 1].fs
      && forall p :: WillBeRemoved(p) in run[|run| - 1].log <==> WillBeRemoved(p) in other[|other| - 1].log
  {
    hide WorldOk, DiffOf, Complete, Doomed, Safe;
    CompleteIsCleaned(w, diff, run);
    CompleteIsCleaned(w, diff, other);
    if run[|run| - 1].status == Succeeded && other[|other| - 1].status == Succeeded {
      assert run[|run| - 1].fs.Keys == other[|other| - 1].fs.Keys;
    }
  }

  // ---------- schedules that fail ----------

  /** An announced removal is of a doomed path. */
  lemma AnnouncedIsDoomed(w: World, s: Sys, gone: set<Path>, p: Path)
    requires WorldOk(w) && Inv(w, s, gone) && Announced(s, p)
    ensures Doomed(w, p)
  {
    assert GoneOk(w, s, gone) && LogOk(w, s, gone, {}) && FlightsOk(w, s, gone);
    hide Inv, WorldOk, GoneOk, Doomed;
    if p in gone {
      GoneIsDoomed(w, s, gone, p);
    } else {
      assert RemovalInFlight(s, p);
      var id :| id in s.flights && IsRemoval(s.flights[id]) && s.flights[id].job.filename == p;
      assert FlightOk(w, s, gone, s.flights[id]);
      hide FlightsOk, LogOk;
      RemovalFacts(w, s, gone, s.flights[id]);
      hide FlightOk, Removable, Left, RemovalInFlight;
      LastIsDoomed(w, s, gone, p);
    }
  }

  lemma LastIsDoomed(w: World, s: Sys, gone: set<Path>, p: Path)
    requires WorldOk(w) && GoneOk(w, s, gone) && Removable(w, p) && Left(w, gone, p) == {}
    ensures Doomed(w, p)
  {
    assert Visited(w, p) && !w.c.keep(p);
    hide Doomed, Visited, WorldOk, GoneOk;
    forall e | e in Children(w.fs0, p) ensures Doomed(w, e) {
      assert e !in Left(w, gone, p);
      GoneIsDoomed(w, s, gone, e);
    }
    DoomedFromBelow(w, p);
  }

  /** Nothing but doomed paths has been announced, and nothing but announced paths has been removed. */
  ghost predicate PartlyCleaned(w: World, s: Sys) {
    && (forall p :: WillBeRemoved(p) in s.log ==> Doomed(w, p))
    && (forall p :: p in w.fs0 && p !in s.fs ==> !w.c.dry && WillBeRemoved(p) in s.log)
    && (forall p :: p in s.fs ==> p in w.fs0 && s.fs[p] == w.fs0[p])
  }

  lemma InvIsPartlyCleaned(w: World, s: Sys, gone: set<Path>)
    requires WorldOk(w) && Inv(w, s, gone)
    ensures PartlyCleaned(w, s)
  {
    hide WorldOk, Inv, Doomed;
    forall p
      ensures WillBeRemoved(p) in s.log ==> Doomed(w, p)
      ensures p in w.fs0 && p !in s.fs ==> !w.c.dry && WillBeRemoved(p) in s.log
      ensures p in s.fs ==> p in w.fs0 && s.fs[p] == w.fs0[p]
    {
      if WillBeRemoved(p) in s.log {
        AnnouncedIsDoomed(w, s, gone, p);
      }
      RemovedIsAnnounced(w, s, gone, p);
    }
  }

  /** In every reachable state of every run, failed ones included. */
  lemma OnlyDoomedGo(w: World, diff: seq<Path>, run: seq<Sys>, i: nat)
    requires WorldOk(w) && DiffOf(w, diff) && IsRun(w, diff, run) && i < |run|
    ensures PartlyCleaned(w, run[i])
  {
    var gone := RunKeeps(w, diff, run, i);
    hide IsRun, DiffOf, WorldOk, PartlyCleaned, Inv;
    InvIsPartlyCleaned(w, run[i], gone);
  }

  lemma RemovedIsAnnounced(w: World, s: Sys, gone: set<Path>, p: Path)
    requires Inv(w, s, gone)
    ensures p in w.fs0 && p !in s.fs ==> !w.c.dry && WillBeRemoved(p) in s.log
    ensures p in s.fs ==> p in w.fs0 && s.fs[p] == w.fs0[p]
  {
    assert LogOk(w, s, gone, {}) && DiskOk(w, s, gone, {});
    hide Inv;
    if RemovalDone(s, p) {
      RemovalDoneIsPending(s, p);
    }
    assert Announced(s, p) <==> WillBeRemoved(p) in s.log;
    hide RemovalDone, RemovalInFlight;
  }

  /** Nothing has been popped off the queue and no call has been started. */
  ghost predicate NothingStarted(s: Sys, s': Sys) {
    && s'.status == s.status && s.queue <= s'.queue && s'.nextId == s.nextId
    && (forall id :: id in s'.flights ==> id in s.flights && s'.flights[id].job == s.flights[id].job)
    && forall p :: WillBeRemoved(p) in s'.log <==> WillBeRemoved(p) in s.log
  }

  lemma StepAfterEnd(c: Config, s: Sys, s': Sys)
    requires Step(c, s, s') && s.status != Working
    ensures NothingStarted(s, s')
  {
    var e :| Enabled(s, e) && s' == After(c, s, e);
    match e
    case DrainTick =>
    case PerformCall(id, listing) =>
    case DeliverCall(id) => DeliverAfterEnd(s, id);
  }

  lemma DeliverAfterEnd(s: Sys, id: nat)
    requires Enabled(s, DeliverCall(id)) && s.status != Working
    ensures NothingStarted(s, Deliver(s, id))
  {
    var f := s.flights[id];
    var s1 := s.(flights := s.flights - {id});
    if f.call != Tick {
      match f.outcome.value
      case Error(code) =>
        ParentAfterEnd(Log(s1, Vanished(f.job.filename)), f.job.parent);
        hide HandleParent;
      case Stats(isDirectory) =>
      case Entries(names) =>
        ExpandAfterEnd(s1, f.job, names);
        hide Expand;
      case Done =>
        ParentAfterEnd(s1, f.job.parent);
        hide HandleParent;
    }
  }

  lemma ParentAfterEnd(s: Sys, parent: Option<nat>)
    ensures var s' := HandleParent(s, parent);
      && s'.status == s.status && s.queue <= s'.queue && s'.nextId == s.nextId
      && s'.flights == s.flights && s'.log == s.log
  {
  }

  lemma ExpandAfterEnd(s: Sys, job: Job, names: seq<Name>)
    ensures var s' := Expand(s, job, names);
      && s'.status == s.status && s.queue <= s'.queue && s'.nextId == s.nextId && s'.flights == s.flights
      && forall p :: WillBeRemoved(p) in s'.log <==> WillBeRemoved(p) in s.log
  {
    NotesForDirectory(job.filename, names);
    hide ChecksFor, NotesFor;
  }

  /** Once the callback has been called, with the first error or without, the status stays as it is, no
      job is started and no removal announced; calls under way still report back. */
  lemma {:induction false} AfterTheEnd(w: World, diff: seq<Path>, run: seq<Sys>, i: nat, j: nat)
    requires IsRun(w, diff, run) && i <= j < |run| && run[i].status != Working
    ensures NothingStarted(run[i], run[j])
    decreases j
  {
    hide *;
    if i == j {
      NothingYet(run[i]);
    } else {
      AfterTheEnd(w, diff, run, i, j - 1);
      RunStep(w, diff, run, j - 1);
      StillOver(run[i], run[j - 1]);
      StepAfterEnd(w.c, run[j - 1], run[j]);
      NothingTwice(run[i], run[j - 1], run[j]);
    }
  }

  lemma RunStep(w: World, diff: seq<Path>, run: seq<Sys>, i: nat)
    requires IsRun(w, diff, run) && i < |run| - 1
    ensures Step(w.c, run[i], run[i + 1])
  {
  }

  lemma NothingYet(s: Sys)
    ensures NothingStarted(s, s)
  {
  }

  lemma StillOver(s: Sys, s': Sys)
    requires NothingStarted(s, s')
    ensures s'.status == s.status
  {
  }

  lemma NothingTwice(a: Sys, b: Sys, c: Sys)
    requires NothingStarted(a, b) && NothingStarted(b, c)
    ensures NothingStarted(a, c)
  {
  }

  /** The entries of d whose removal has not been reported yet. */
  ghost function Outstanding(w: World, s: Sys, d: Path): set<Path> {
    set p | p in Children(w.fs0, d) && !(WillBeRemoved(p) in s.log && !RemovalInFlight(s, p))
  }

  /** In every reachable state each counter equals the number of entries not reported as removed,
      an rmdir call finds its directory empty, and no path is announced twice. */
  lemma CountersCount(w: World, diff: seq<Path>, run: seq<Sys>, i: nat)
    requires WorldOk(w) && DiffOf(w, diff) && IsRun(w, diff, run) && i < |run|
    ensures var s := run[i];
            && (forall t :: 0 <= t < |s.tokens| ==>
              s.tokens[t].remaining == |Outstanding(w, s, s.tokens[t].job.filename)|)
            && (forall id :: id in s.flights && s.flights[id].call == RmDirCall ==>
                  Children(s.fs, s.flights[id].job.filename) == {})
            && (forall j, k :: 0 <= j < k < |s.log| && s.log[j].WillBeRemoved? ==> s.log[j] != s.log[k])
  {
    var gone := RunKeeps(w, diff, run, i);
    var s := run[i];
    hide WorldOk, DiffOf, IsRun;
    assert TokensOk(w, s, gone, None) && LogOk(w, s, gone, {}) && DiskOk(w, s, gone, {}) && FlightsOk(w, s, gone)
        && QueueOk(w, s, gone) && Unique(s);
    hide Inv;
    forall t | 0 <= t < |s.tokens| ensures s.tokens[t].remaining == |Outstanding(w, s, s.tokens[t].job.filename)| {
      assert TokenOk(w, s, gone, None, t);
      OutstandingIsLeft(w, s, gone, s.tokens[t].job.filename);
      hide TokensOk, LogOk, DiskOk, FlightsOk, QueueOk, Unique, Left, Outstanding;
    }
    forall id | id in s.flights && s.flights[id].call == RmDirCall
      ensures Children(s.fs, s.flights[id].job.filename) == {}
    {
      assert FlightOk(w, s, gone, s.flights[id]);
      hide TokensOk, LogOk, DiskOk, FlightsOk, QueueOk, Unique;
      EmptyOnDisk(w, s, gone, s.flights[id].job.filename);
    }
  }

  lemma OutstandingIsLeft(w: World, s: Sys, gone: set<Path>, d: Path)
    requires LogOk(w, s, gone, {}) && FlightsOk(w, s, gone)
    ensures Outstanding(w, s, d) == Left(w, gone, d)
  {
    forall p | RemovalInFlight(s, p) ensures p !in gone {
      var id :| id in s.flights && IsRemoval(s.flights[id]) && s.flights[id].job.filename == p;
      assert FlightOk(w, s, gone, s.flights[id]);
    }
    hide FlightsOk, RemovalInFlight;
    assert forall p :: Announced(s, p) <==> WillBeRemoved(p) in s.log;
  }
}
