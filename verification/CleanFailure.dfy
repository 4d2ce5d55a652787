/** Which cleanings can fail: exactly those with a root that is missing behind a file and not kept. */
module CleanFailure {
  import opened Common
  import opened FileTree
  import opened CleanJobs
  import opened CleanInvariant
  import opened CleanEvents
  import opened CleanWeight
  import opened CleanRuns

  /** The check of b has not been looked up yet. */
  ghost predicate Waits(s: Sys, b: Path) {
    Queued(s, b) || exists id :: LooksUp(s, id, b)
  }

  ghost predicate Queued(s: Sys, b: Path) {
    exists i :: 0 <= i < |s.queue| && s.queue[i].kind == Check && s.queue[i].filename == b
  }

  ghost predicate LooksUp(s: Sys, id: nat, b: Path) {
    id in s.flights && s.flights[id].call == LStat && s.flights[id].outcome == None && s.flights[id].job.filename == b
  }

  /** b is a hazard below the file f. */
  ghost predicate Under(w: World, b: Path, f: Path) {
    Hazard(w, b) && f < b && f in w.fs0 && w.fs0[f] == File
  }

  ghost predicate Steps(c: Config, run: seq<Sys>) {
    forall i :: 0 <= i < |run| - 1 ==> Step(c, run[i], run[i + 1])
  }

  ghost predicate EndsFailed(c: Config, s: Sys, run: seq<Sys>) {
    run != [] && run[0] == s && Steps(c, run) && run[|run| - 1].status.Failed?
  }

  lemma OneMore(c: Config, s: Sys, s': Sys, rest: seq<Sys>)
    requires Step(c, s, s') && EndsFailed(c, s', rest)
    ensures EndsFailed(c, s, [s] + rest)
  {
    var run := [s] + rest;
    forall i | 0 <= i < |run| - 1 ensures Step(c, run[i], run[i + 1]) {
      if i > 0 {
        assert Step(c, rest[i - 1], rest[i - 1 + 1]);
      }
    }
  }

  lemma AlreadyFailed(c: Config, s: Sys)
    requires s.status.Failed?
    ensures EndsFailed(c, s, [s])
  {
  }

  /** A root looked up while the file above it is there fails the cleaning. */
  lemma LookupFails(w: World, s: Sys, gone: set<Path>, id: nat, b: Path) returns (run: seq<Sys>)
    requires WellFormed(w.fs0) && DiskOk(w, s, gone, {}) && s.status == Working
    requires LooksUp(s, id, b) && b !in w.fs0 && BehindFile(s.fs, b)
    ensures EndsFailed(w.c, s, run)
  {
    assert b !in s.fs;
    assert Lists(s.fs, b, []) by {
      forall n ensures b + [n] !in s.fs {
        ChildOf(b, n);
      }
    }
    hide WellFormed, DiskOk, BehindFile, Lists;
    assert Enabled(s, PerformCall(id, []));
    var s1 := Perform(s, id, []);
    assert Step(w.c, s, s1) by {
      assert s1 == After(w.c, s, PerformCall(id, []));
    }
    assert s1.flights[id].outcome == Some(Error(ENOTDIR)) && s1.status == Working;
    assert Enabled(s1, DeliverCall(id));
    var s2 := Deliver(s1, id);
    assert Step(w.c, s1, s2) by {
      assert s2 == After(w.c, s1, DeliverCall(id));
    }
    hide Step;
    AlreadyFailed(w.c, s2);
    OneMore(w.c, s1, s2, [s2]);
    run := [s] + ([s1] + [s2]);
    OneMore(w.c, s, s1, [s1] + [s2]);
  }

  // ---------- what keeps the root waiting and the file in place ----------

  lemma PopWaits(c: Config, s: Sys, b: Path)
    requires s.queue != [] && Waits(s, b) && !c.keep(b) && forall id :: id in s.flights ==> id < s.nextId
    ensures var s' := PopAndBegin(c, s);
      Waits(s', b) && s'.fs == s.fs && s'.status == s.status && forall id :: id in s'.flights ==> id < s'.nextId
  {
    var n := |s.queue| - 1;
    var job, s' := s.queue[n], PopAndBegin(c, s);
    PopShape(c, s);
    if id :| LooksUp(s, id, b) {
      assert LooksUp(s', id, b);
    } else {
      var i :| 0 <= i < |s.queue| && s.queue[i].kind == Check && s.queue[i].filename == b;
      if i == n {
        assert LooksUp(s', s.nextId, b);
      } else {
        assert s'.queue[i] == s.queue[i];
      }
    }
  }

  lemma PopShape(c: Config, s: Sys)
    requires s.queue != []
    ensures var job, s' := s.queue[|s.queue| - 1], PopAndBegin(c, s);
      && s'.fs == s.fs && s'.status == s.status && s'.nextId == s.nextId + 1
      && s.queue[..|s.queue| - 1] <= s'.queue
      && s'.flights.Keys == s.flights.Keys + {s.nextId}
      && (forall id :: id in s.flights && id != s.nextId ==> s'.flights[id] == s.flights[id])
      && (job.kind == Check && !c.keep(job.filename) ==> s'.flights[s.nextId] == Flight(job, LStat, None))
  {
    ParentShape(Log(s.(processing := s.processing + 1, queue := s.queue[..|s.queue| - 1]),
                    WillBeRemoved(s.queue[|s.queue| - 1].filename)), s.queue[|s.queue| - 1].parent);
    hide HandleParent;
  }

  lemma ParentShape(s: Sys, parent: Option<nat>)
    ensures var s' := HandleParent(s, parent);
      && s'.fs == s.fs && s'.status == s.status && s'.nextId == s.nextId && s'.flights == s.flights
      && s.queue <= s'.queue
  {
  }

  lemma {:induction false} DrainWaits(c: Config, s: Sys, b: Path)
    requires Waits(s, b) && !c.keep(b) && forall id :: id in s.flights ==> id < s.nextId
    ensures Waits(DrainLoop(c, s), b) && DrainLoop(c, s).fs == s.fs && DrainLoop(c, s).status == s.status
    decreases CONCURRENCY - s.processing
  {
    hide Waits;
    if s.processing < CONCURRENCY && s.queue != [] {
      PopWaits(c, s, b);
      PopProcessing(c, s);
      hide PopAndBegin;
      DrainWaits(c, PopAndBegin(c, s), b);
    }
  }

  lemma PopProcessing(c: Config, s: Sys)
    requires s.queue != []
    ensures PopAndBegin(c, s).processing == s.processing + 1
  {
  }

  /** An event other than the removal of f. */
  ghost predicate Spares(s: Sys, e: Event, f: Path) {
    e.PerformCall? && e.id in s.flights ==> !(IsRemoval(s.flights[e.id]) && s.flights[e.id].job.filename == f)
  }

  /** A queued root stays queued or is looked up next; a spared file stays. */
  lemma StepWaits(w: World, s: Sys, gone: set<Path>, e: Event, b: Path, f: Path)
    requires WorldOk(w) && Inv(w, s, gone) && Enabled(s, e) && Spares(s, e, f)
    requires Queued(s, b) && !w.c.keep(b) && f in s.fs
    ensures Waits(After(w.c, s, e), b) && f in After(w.c, s, e).fs
  {
    match e
    case DrainTick =>
      assert forall id :: id in s.flights ==> id < s.nextId;
      hide Inv, Queued, Waits, Drain;
      assert Waits(s, b) by { QueuedWaits(s, b); }
      DrainKeepsWaiting(w.c, s, b);
    case PerformCall(id, listing) =>
      assert WorldOk(w) && Core(w, s, gone, None, {}, {});
      hide Inv, WorldOk, Queued, Waits, Perform;
      PerformSpares(w, s, gone, id, listing, f);
      assert Queued(After(w.c, s, e), b) by { SameQueue(s, Perform(s, id, listing), b); }
      QueuedWaits(After(w.c, s, e), b);
    case DeliverCall(id) =>
      hide Inv, WorldOk, Queued, Waits, Deliver;
      DeliverQueue(s, id);
      SameQueue(s, Deliver(s, id), b);
      QueuedWaits(Deliver(s, id), b);
  }

  lemma QueuedWaits(s: Sys, b: Path)
    requires Queued(s, b)
    ensures Waits(s, b)
  {
  }

  lemma SameQueue(s: Sys, s': Sys, b: Path)
    requires Queued(s, b) && s.queue <= s'.queue
    ensures Queued(s', b)
  {
    var i :| 0 <= i < |s.queue| && s.queue[i].kind == Check && s.queue[i].filename == b;
    assert s'.queue[i] == s.queue[i];
  }

  lemma DrainKeepsWaiting(c: Config, s: Sys, b: Path)
    requires Waits(s, b) && !c.keep(b) && forall id :: id in s.flights ==> id < s.nextId
    ensures Waits(Drain(c, s), b) && Drain(c, s).fs == s.fs
  {
    DrainWaits(c, s, b);
    var s1, s2 := DrainLoop(c, s), Drain(c, s);
    assert s2.queue == s1.queue && s2.flights == s1.flights && s2.fs == s1.fs;
    hide Drain, DrainLoop;
    if id :| LooksUp(s1, id, b) {
      assert LooksUp(s2, id, b);
    }
  }

  lemma PerformSpares(w: World, s: Sys, gone: set<Path>, id: nat, listing: seq<Name>, f: Path)
    requires WorldOk(w) && Core(w, s, gone, None, {}, {}) && Enabled(s, PerformCall(id, listing)) && f in s.fs
    requires Spares(s, PerformCall(id, listing), f)
    ensures Perform(s, id, listing).queue == s.queue && f in Perform(s, id, listing).fs
  {
    hide Core, WorldOk, Answer;
    AnswerExpected(w, s, gone, id, listing);
  }

  lemma DeliverQueue(s: Sys, id: nat)
    requires Enabled(s, DeliverCall(id))
    ensures s.queue <= Deliver(s, id).queue && Deliver(s, id).fs == s.fs
  {
    var f := s.flights[id];
    var s1 := s.(flights := s.flights - {id});
    if f.call != Tick && f.outcome.value.Error? {
      ParentShape(Log(s1, Vanished(f.job.filename)), f.job.parent);
    } else {
      ParentShape(s1, f.job.parent);
    }
    hide HandleParent, ChecksFor, NotesFor;
  }

  /** While a root is queued, some event other than the removal of f can happen. */
  lemma SparingEvent(w: World, s: Sys, gone: set<Path>, b: Path, f: Path) returns (e: Event)
    requires Inv(w, s, gone) && s.status == Working && Queued(s, b)
    ensures Enabled(s, e) && Spares(s, e, f)
  {
    if s.scheduled {
      e := DrainTick;
    } else {
      assert s.processing == |s.flights| >= CONCURRENCY && Unique(s);
      hide Inv, Queued, Unique;
      var id := OtherFlight(s, f);
      if s.flights[id].outcome.Some? || s.flights[id].call == Tick {
        e := DeliverCall(id);
      } else {
        var names := SomeListing(s.fs, s.flights[id].job.filename);
        e := PerformCall(id, names);
      }
    }
  }

  lemma OtherFlight(s: Sys, f: Path) returns (id: nat)
    requires Unique(s) && |s.flights| >= 2
    ensures id in s.flights && !(IsRemoval(s.flights[id]) && s.flights[id].job.filename == f)
  {
    assert |s.flights| == |s.flights.Keys|;
    var a :| a in s.flights.Keys;
    assert |s.flights.Keys - {a}| > 0;
    var b :| b in s.flights.Keys - {a};
    assert Flying(a) != Flying(b);
    if IsRemoval(s.flights[a]) && s.flights[a].job.filename == f {
      id := b;
      if IsRemoval(s.flights[b]) && s.flights[b].job.filename == f {
        assert PendingAt(s, Flying(a), f) && PendingAt(s, Flying(b), f);
        assert false;
      }
    } else {
      id := a;
    }
  }

  lemma SomeListing(fs: Disk, p: Path) returns (names: seq<Name>)
    ensures Lists(fs, p, names)
  {
    names := Listable(fs, p, Children(fs, p));
    forall n ensures n in names <==> p + [n] in fs {
      ChildOf(p, n);
    }
  }

  /** As long as a hazard waits and its file is there, the cleaning can still fail: look the root up
      before the file is removed, and let everything else happen in between. */
  lemma {:induction false} CanStillFail(w: World, s: Sys, gone: set<Path>, b: Path, f: Path) returns (run: seq<Sys>)
    requires WorldOk(w) && Inv(w, s, gone) && s.status != Succeeded && Waits(s, b) && Under(w, b, f) && f in s.fs
    ensures EndsFailed(w.c, s, run)
    decreases Weight(w, s)
  {
    if s.status.Failed? {
      AlreadyFailed(w.c, s);
      return [s];
    }
    assert DiskOk(w, s, gone, {});
    assert BehindFile(s.fs, b) by {
      hide Inv, Waits, Hazard;
      assert b[..|f|] == f && s.fs[f] == File;
    }
    assert !w.c.keep(b) && b !in w.fs0 && WellFormed(w.fs0);
    hide BehindFile, Hazard, WorldOk, Inv, Weight, DiskOk, Under, Step;
    if id :| LooksUp(s, id, b) {
      run := LookupFails(w, s, gone, id, b);
    } else {
      var e := SparingEvent(w, s, gone, b, f);
      StepWaits(w, s, gone, e, b, f);
      var s' := After(w.c, s, e);
      IsStep(w.c, s, e);
      hide After, Enabled, Spares;
      var gone' := StepKeeps(w, s, s', gone);
      NotOver(w, s', gone', b);
      hide Waits;
      var rest := CanStillFail(w, s', gone', b, f);
      run := [s] + rest;
      OneMore(w.c, s, s', rest);
    }
  }

  lemma IsStep(c: Config, s: Sys, e: Event)
    requires Enabled(s, e)
    ensures Step(c, s, After(c, s, e))
  {
  }

  lemma NotOver(w: World, s: Sys, gone: set<Path>, b: Path)
    requires Inv(w, s, gone) && Waits(s, b)
    ensures s.status != Succeeded
  {
    hide Core;
  }

  // ---------- the condition ----------

  ghost predicate SomeRunFails(w: World, diff: seq<Path>) {
    exists run: seq<Sys> :: IsRun(w, diff, run) && run[|run| - 1].status.Failed?
  }

  /** Some schedule of a cleaning fails, if and only if one of its roots is missing behind a file and is
      not kept. */
  lemma FailsIffHazard(w: World, diff: seq<Path>)
    requires WorldOk(w) && DiffOf(w, diff)
    ensures SomeRunFails(w, diff) <==> !Safe(w)
  {
    hide WorldOk, DiffOf, Hazard;
    if run: seq<Sys> :| IsRun(w, diff, run) && run[|run| - 1].status.Failed? {
      hide Safe, CanStep, Weight, Initial, Cleaned;
      EverySchedule(w, diff, run);
    }
    if b :| Hazard(w, b) {
      hide SomeRunFails;
      HazardFails(w, diff, b);
    }
  }

  lemma HazardFails(w: World, diff: seq<Path>, b: Path)
    requires WorldOk(w) && DiffOf(w, diff) && Hazard(w, b)
    ensures SomeRunFails(w, diff)
  {
    var s := Initial(w.fs0, diff);
    var k :| 0 <= k < |b| && b[..k] in w.fs0 && w.fs0[b[..k]] == File;
    assert Queued(s, b) by {
      var i :| 0 <= i < |diff| && diff[i] == b;
      assert s.queue[i] == Job(Check, b, None);
    }
    assert diff != [] && s.status == Working && s.fs == w.fs0;
    hide Queued, Hazard, BehindFile, WorldOk, Initial;
    InitialKeeps(w, diff);
    hide DiffOf, Inv, Steps, Step;
    var run := CanStillFail(w, s, {}, b, b[..k]);
    FailedRun(w, diff, s, run);
  }

  lemma FailedRun(w: World, diff: seq<Path>, s: Sys, run: seq<Sys>)
    requires s == Initial(w.fs0, diff) && EndsFailed(w.c, s, run)
    ensures SomeRunFails(w, diff)
  {
    hide Initial, Step;
    assert IsRun(w, diff, run);
  }
}
