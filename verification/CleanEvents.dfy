/** Every event keeps the invariant. */
module CleanEvents {
  import opened Common
  import opened FileTree
  import opened CleanJobs
  import opened CleanInvariant
  import opened CleanPrimitives
  import opened CleanSteps

  // ---------- a call takes effect ----------

  /** A path whose call has not taken effect is still on disk. */
  lemma StillOnDisk(w: World, s: Sys, gone: set<Path>, id: nat)
    requires Unique(s) && DiskOk(w, s, gone, {})
    requires id in s.flights && s.flights[id].call != Tick && s.flights[id].outcome == None
    requires s.flights[id].job.filename !in gone && s.flights[id].job.filename in w.fs0
    ensures s.flights[id].job.filename in s.fs
  {
    var p := s.flights[id].job.filename;
    if RemovalDone(s, p) {
      var k :| k in s.flights && IsRemoval(s.flights[k]) && s.flights[k].job.filename == p
        && s.flights[k].outcome.Some?;
      assert PendingAt(s, Flying(k), p) && PendingAt(s, Flying(id), p);
      assert false;
    }
  }

  lemma MissingRoot(w: World, s: Sys, gone: set<Path>, p: Path)
    requires DiskOk(w, s, gone, {}) && p !in w.fs0
    ensures p !in s.fs && (Missing(s.fs, p) == ENOENT || (Missing(s.fs, p) == ENOTDIR && BehindFile(w.fs0, p)))
  {
  }

  lemma RemovalDoneIsPending(s: Sys, q: Path)
    requires RemovalDone(s, q)
    ensures RemovalInFlight(s, q)
  {
  }

  /** A directory being listed still has all its entries. */
  lemma FullListing(w: World, s: Sys, gone: set<Path>, p: Path, listing: seq<Name>)
    requires WorldOk(w) && Core(w, s, gone, None, {}, {})
    requires Visited(w, p) && !HasToken(s, p) && Lists(s.fs, p, listing)
    ensures Lists(w.fs0, p, listing)
  {
    assert DiskOk(w, s, gone, {});
    hide WorldOk, Core, Visited, HasToken, RemovalDone;
    forall n ensures n in listing <==> p + [n] in w.fs0 {
      ChildOf(p, n);
      if p + [n] in w.fs0 {
        UntouchedChild(w, s, gone, {}, p, p + [n]);
        if RemovalDone(s, p + [n]) {
          RemovalDoneIsPending(s, p + [n]);
        }
      }
    }
  }

  lemma EmptyOnDisk(w: World, s: Sys, gone: set<Path>, p: Path)
    requires DiskOk(w, s, gone, {}) && !w.c.dry && Left(w, gone, p) == {}
    ensures Children(s.fs, p) == {}
  {
    assert Children(s.fs, p) <= Left(w, gone, p);
  }

  /** The answer is the one the starting disk would give. */
  lemma AnswerExpected(w: World, s: Sys, gone: set<Path>, id: nat, listing: seq<Name>)
    requires WorldOk(w) && Core(w, s, gone, None, {}, {}) && Enabled(s, PerformCall(id, listing))
    ensures var f := s.flights[id];
            var answer := Answer(s.fs, f.call, f.job.filename, listing);
            && OutcomeOk(w, f.(outcome := Some(answer)))
            && (IsRemoval(f) <==> answer.Done?)
  {
    var f := s.flights[id];
    var p := f.job.filename;
    assert FlightOk(w, s, gone, f);
    assert DiskOk(w, s, gone, {}) && Unique(s);
    hide Core, WorldOk, FlightOk, DiskOk, Unique, OutcomeOk, Answer;
    FlightOnDisk(w, s, gone, f, id);
    FlightKind(w, s, gone, f);
    if f.call == LStat {
      AnswerStat(w, s, gone, f, listing);
    } else if f.call == ReadDir {
      AnswerList(w, s, gone, f, listing);
    } else {
      AnswerRemoval(w, s, gone, f, listing);
    }
  }

  lemma FlightOnDisk(w: World, s: Sys, gone: set<Path>, f: Flight, id: nat)
    requires FlightOk(w, s, gone, f) && DiskOk(w, s, gone, {}) && Unique(s)
    requires id in s.flights && f == s.flights[id] && f.call != Tick && f.outcome == None
    ensures f.job.filename in w.fs0 ==> f.job.filename in s.fs && s.fs[f.job.filename] == w.fs0[f.job.filename]
  {
    var p := f.job.filename;
    assert p !in gone;
    hide Unique, DiskOk, FlightOk;
    if p in w.fs0 {
      StillOnDisk(w, s, gone, id);
      SameKind(w, s, gone, p);
    }
  }

  lemma FlightKind(w: World, s: Sys, gone: set<Path>, f: Flight)
    requires FlightOk(w, s, gone, f) && f.call != Tick
    ensures f.call == LStat || f.call == ReadDir || IsRemoval(f)
  {
  }

  lemma AnswerStat(w: World, s: Sys, gone: set<Path>, f: Flight, listing: seq<Name>)
    requires WorldOk(w) && FlightOk(w, s, gone, f) && DiskOk(w, s, gone, {}) && f.call == LStat
    requires f.job.filename in w.fs0 ==> f.job.filename in s.fs && s.fs[f.job.filename] == w.fs0[f.job.filename]
    ensures var answer := Answer(s.fs, f.call, f.job.filename, listing);
            OutcomeOk(w, f.(outcome := Some(answer))) && !answer.Done?
  {
    var p := f.job.filename;
    hide FlightOk, DiskOk, WorldOk, Missing, BehindFile;
    if p !in w.fs0 {
      MissingRoot(w, s, gone, p);
    }
  }

  lemma AnswerList(w: World, s: Sys, gone: set<Path>, f: Flight, listing: seq<Name>)
    requires WorldOk(w) && Core(w, s, gone, None, {}, {}) && FlightOk(w, s, gone, f) && f.call == ReadDir
    requires f.job.filename in w.fs0 ==> f.job.filename in s.fs && s.fs[f.job.filename] == w.fs0[f.job.filename]
    requires Lists(s.fs, f.job.filename, listing)
    ensures var answer := Answer(s.fs, f.call, f.job.filename, listing);
            OutcomeOk(w, f.(outcome := Some(answer))) && !answer.Done?
  {
    var p := f.job.filename;
    assert Visited(w, p) && !HasToken(s, p) && p in w.fs0 && w.fs0[p] == Dir;
    hide Core, FlightOk, WorldOk, Visited, HasToken, Lists;
    FullListing(w, s, gone, p, listing);
  }

  lemma AnswerRemoval(w: World, s: Sys, gone: set<Path>, f: Flight, listing: seq<Name>)
    requires WorldOk(w) && FlightOk(w, s, gone, f) && DiskOk(w, s, gone, {}) && IsRemoval(f)
    requires f.job.filename in w.fs0 ==> f.job.filename in s.fs && s.fs[f.job.filename] == w.fs0[f.job.filename]
    ensures var answer := Answer(s.fs, f.call, f.job.filename, listing);
            OutcomeOk(w, f.(outcome := Some(answer))) && answer.Done?
  {
    var p := f.job.filename;
    assert p in w.fs0 && !w.c.dry && (f.call == UnlinkCall ==> w.fs0[p] == File)
        && (f.call == RmDirCall ==> w.fs0[p] == Dir && Left(w, gone, p) == {});
    hide FlightOk, DiskOk, WorldOk, Left, Children;
    if f.call == RmDirCall {
      EmptyOnDisk(w, s, gone, p);
    }
  }

  lemma SameKind(w: World, s: Sys, gone: set<Path>, p: Path)
    requires DiskOk(w, s, gone, {}) && p in s.fs
    ensures s.fs[p] == w.fs0[p]
  {
  }

  lemma PerformFlights(w: World, s: Sys, s': Sys, gone: set<Path>, id: nat, f: Flight)
    requires FlightsOk(w, s, gone) && id in s.flights && SameContext(s, s')
    requires s'.flights == s.flights[id := f] && s'.processing == s.processing && s'.nextId == s.nextId
    requires f.job == s.flights[id].job && f.call == s.flights[id].call && OutcomeOk(w, f)
    ensures FlightsOk(w, s', gone)
  {
    SameReady(w, s, s', gone);
    assert s'.flights.Keys == s.flights.Keys;
    assert |s'.flights| == |s'.flights.Keys| && |s.flights| == |s.flights.Keys|;
    assert FlightOk(w, s, gone, f) by {
      assert FlightOk(w, s, gone, s.flights[id]);
      hide Ready, Announced, Visited, OutcomeOk;
    }
    hide FlightOk, OutcomeOk;
  }

  lemma SameRemovals(s: Sys, s': Sys, id: nat, f: Flight)
    requires id in s.flights && s'.flights == s.flights[id := f]
    requires f.job == s.flights[id].job && f.call == s.flights[id].call
    ensures forall q :: RemovalInFlight(s', q) <==> RemovalInFlight(s, q)
  {
    assert s'.flights[id] == f;
    assert forall k :: k in s.flights <==> k in s'.flights;
    assert forall k :: k in s'.flights && k != id ==> s'.flights[k] == s.flights[k];
  }

  lemma PerformLogDisk(w: World, s: Sys, s': Sys, gone: set<Path>, id: nat, f: Flight)
    requires LogOk(w, s, gone, {}) && DiskOk(w, s, gone, {}) && id in s.flights && SameContext(s, s')
    requires s'.flights == s.flights[id := f] && f.job == s.flights[id].job && f.call == s.flights[id].call
    requires s.flights[id].outcome == None && f.outcome.Some?
    requires s'.fs == if IsRemoval(f) then s.fs - {f.job.filename} else s.fs
    requires IsRemoval(f) ==> !w.c.dry && f.job.filename in w.fs0
    ensures LogOk(w, s', gone, {}) && DiskOk(w, s', gone, {})
  {
    var p := f.job.filename;
    SameRemovals(s, s', id, f);
    assert s'.flights[id] == f;
    forall q ensures RemovalDone(s', q) <==> RemovalDone(s, q) || (IsRemoval(f) && q == p) {
      if RemovalDone(s, q) {
        var k :| k in s.flights && IsRemoval(s.flights[k]) && s.flights[k].job.filename == q
          && s.flights[k].outcome.Some?;
        assert k in s'.flights && s'.flights[k] == s.flights[k];
      }
    }
    hide RemovalInFlight, RemovalDone;
  }

  lemma PerformKeeps(w: World, s: Sys, gone: set<Path>, id: nat, listing: seq<Name>)
    requires WorldOk(w) && Inv(w, s, gone) && Enabled(s, PerformCall(id, listing))
    ensures Inv(w, Perform(s, id, listing), gone)
  {
    var s' := Perform(s, id, listing);
    var f := s.flights[id];
    var f' := s'.flights[id];
    AnswerExpected(w, s, gone, id, listing);
    assert FlightOk(w, s, gone, f);
    assert IsRemoval(f) ==> !w.c.dry && f.job.filename in w.fs0 by {
      hide Core, ParentOk, HasToken, Announced, OutcomeOk, Left;
    }
    assert s'.flights == s.flights[id := f'] && f'.job == f.job && f'.call == f.call && f'.outcome.Some?;
    assert SameContext(s, s');
    assert forall a, p :: PendingAt(s', a, p) <==> PendingAt(s, a, p);
    assert forall p :: Pending(s', p) <==> Pending(s, p);
    assert Unique(s');
    assert s'.flights != map[];
    assert s'.fs == if IsRemoval(f') then s.fs - {f'.job.filename} else s.fs;
    hide QueueOk, FlightsOk, Unique, LogOk, DiskOk, GoneOk, TokensOk, Covered, Pending, SameContext, Perform,
         OutcomeOk, IsRemoval;
    FewerPending(w, s, s', gone, {});
    PerformFlights(w, s, s', gone, id, f');
    PerformLogDisk(w, s, s', gone, id, f');
    RetireQueueGone(w, s, s', gone);
  }

  // ---------- a call reports back ----------

  /** Whether the counter is settled before or after the callback makes no difference. */
  lemma CallbackCommutes(s: Sys, parent: Option<nat>)
    ensures Callback(HandleParent(s, parent)) == HandleParent(Callback(s), parent)
  {
  }

  lemma FlightFacts(w: World, s: Sys, gone: set<Path>, id: nat)
    requires Core(w, s, gone, None, {}, {}) && id in s.flights && s.flights[id].call != Tick
    ensures var f := s.flights[id];
            && FlightOk(w, s, gone, f) && Pending(s, f.job.filename) && NotOnHold(s, f.job.filename)
            && (f.job.parent.Some? ==> f.job.parent.value < |s.tokens|)
            && s.processing == |s.flights| && s.processing <= CONCURRENCY && id < s.nextId
            && (IsRemoval(f) ==> Announced(s, f.job.filename))
            && (IsRemoval(f) && f.outcome.Some? ==> f.job.filename !in s.fs)
  {
    var f := s.flights[id];
    var p := f.job.filename;
    assert PendingAt(s, Flying(id), p);
    assert RemovalInFlight(s, p) <== IsRemoval(f);
    assert RemovalDone(s, p) <== IsRemoval(f) && f.outcome.Some?;
    assert FlightOk(w, s, gone, f);
    hide QueueOk, Unique, GoneOk, Covered, Removable, Visited, Left, HasToken, Announced, OutcomeOk, RemovalInFlight,
         RemovalDone, Holds;
    assert NotOnHold(s, p) by {
      hide LogOk, DiskOk, FlightsOk;
      forall t | 0 <= t < |s.tokens| && s.tokens[t].job.filename == p ensures s.tokens[t].remaining <= 0 {
        assert TokenOk(w, s, gone, None, t);
      }
    }
    hide TokensOk;
  }

  /** What a flight's readiness says once it has left. */
  lemma StillReady(w: World, s: Sys, s1: Sys, gone: set<Path>, f: Flight)
    requires FlightOk(w, s, gone, f) && f.call != Tick && NotOnHold(s, f.job.filename) && SameContext(s, s1)
    ensures Ready(w, s1, gone, f.job) && NotOnHold(s1, f.job.filename) && FlightOk(w, s1, gone, f)
    ensures Announced(s1, f.job.filename) <==> Announced(s, f.job.filename)
  {
    SameReady(w, s, s1, gone);
    hide Ready, OutcomeOk, Announced, Visited;
  }

  lemma RootHasNoParent(w: World, s: Sys, gone: set<Path>, job: Job)
    requires Ready(w, s, gone, job) && job.filename !in w.fs0
    ensures job.parent == None && job.filename in w.roots
  {
  }

  lemma ReadDirOk(w: World, s: Sys, gone: set<Path>, f: Flight)
    requires Ready(w, s, gone, f.job) && f.job.kind == Check && f.call == ReadDir && f.outcome == None
    requires !w.c.keep(f.job.filename) && !Announced(s, f.job.filename)
    requires f.job.filename in w.fs0 && w.fs0[f.job.filename] == Dir
    ensures FlightOk(w, s, gone, f)
  {
    RootIsVisited(w, s, gone, f.job);
  }

  lemma RootIsVisited(w: World, s: Sys, gone: set<Path>, job: Job)
    requires Ready(w, s, gone, job) && job.kind == Check && job.filename in w.fs0
    ensures Visited(w, job.filename)
  {
  }

  lemma UnlinkReady(w: World, s: Sys, gone: set<Path>, job: Job)
    requires Ready(w, s, gone, job) && job.kind == Check && !w.c.keep(job.filename)
    requires job.filename in w.fs0 && w.fs0[job.filename] == File
    ensures Ready(w, s, gone, job.(kind := Unlink))
  {
  }

  /** After a stat report has been taken off: everything its follow-up needs to know. */
  ghost predicate Stated(w: World, s1: Sys, gone: set<Path>, f: Flight) {
    && Core(w, s1, gone, None, {}, {f.job.filename})
    && Ready(w, s1, gone, f.job) && f.job.kind == Check && !w.c.keep(f.job.filename)
    && !Announced(s1, f.job.filename) && !Pending(s1, f.job.filename) && NotOnHold(s1, f.job.filename)
  }

  lemma StatMissing(w: World, s1: Sys, gone: set<Path>, f: Flight)
    requires WorldOk(w) && Stated(w, s1, gone, f) && f.job.filename !in w.fs0
    ensures f.job.parent == None && f.job.filename in w.roots && !w.c.keep(f.job.filename)
    ensures Core(w, s1, gone, None, {}, {})
    ensures Core(w, Log(s1, Vanished(f.job.filename)), gone, None, {}, {})
  {
    var p := f.job.filename;
    assert Core(w, s1, gone, None, {}, {p}) && Ready(w, s1, gone, f.job) && !w.c.keep(p);
    NotVisited(w, p);
    hide Core, Ready, WorldOk, Visited, Stated;
    RootHasNoParent(w, s1, gone, f.job);
    CloseKept(w, s1, gone, p);
    NotesKeep(w, s1, Log(s1, Vanished(p)), gone, [Vanished(p)], {});
  }

  lemma StatDirectory(w: World, s1: Sys, s': Sys, gone: set<Path>, id: nat, f: Flight)
    requires Stated(w, s1, gone, f) && f.job.filename in w.fs0 && w.fs0[f.job.filename] == Dir
    requires id !in s1.flights && s1.processing < CONCURRENCY && id < s1.nextId
    requires s' == s1.(flights := s1.flights[id := Flight(f.job, ReadDir, None)], processing := s1.processing + 1,
                       scheduled := s'.scheduled)
    ensures Core(w, s', gone, None, {}, {})
  {
    var f' := Flight(f.job, ReadDir, None);
    hide Core, Visited, Announced, HasToken, ParentOk, Pending, NotOnHold, Ready;
    ReadDirOk(w, s1, gone, f');
    hide FlightOk;
    LaunchKeeps(w, s1, s', gone, id, f');
  }

  lemma StatFile(w: World, s1: Sys, s': Sys, gone: set<Path>, f: Flight)
    requires Stated(w, s1, gone, f) && f.job.filename in w.fs0 && w.fs0[f.job.filename] == File
    requires s' == s1.(queue := s1.queue + [f.job.(kind := Unlink)], scheduled := s'.scheduled)
    ensures Core(w, s', gone, None, {}, {})
  {
    hide Core, Visited, Announced, HasToken, ParentOk, Pending, NotOnHold, Ready;
    UnlinkReady(w, s1, gone, f.job);
    PushKeeps(w, s1, s', gone, f.job.(kind := Unlink), {f.job.filename});
    assert {f.job.filename} - {f.job.filename} == {};
  }

  /** Taking a delivered check call off. */
  lemma TakeCheck(w: World, s: Sys, s1: Sys, gone: set<Path>, id: nat)
    requires Core(w, s, gone, None, {}, {})
    requires id in s.flights && (s.flights[id].call == LStat || s.flights[id].call == ReadDir)
      && s.flights[id].outcome.Some?
    requires s1 == Callback(s.(flights := s.flights - {id}))
    ensures Stated(w, s1, gone, s.flights[id]) && OutcomeOk(w, s.flights[id])
    ensures id !in s1.flights && s1.processing < CONCURRENCY && id < s1.nextId
  {
    var f := s.flights[id];
    FlightFacts(w, s, gone, id);
    assert s.flights - {id} == s1.flights;
    assert f.job.kind == Check && !w.c.keep(f.job.filename) && OutcomeOk(w, f) && !Announced(s, f.job.filename) by {
      hide Core, OutcomeOk, Visited, Announced, HasToken, ParentOk;
    }
    hide Core, OutcomeOk, FlightOk, Announced, Pending, NotOnHold;
    RetireFlight(w, s, s1, gone, id);
    StillReady(w, s, s1, gone, f);
  }

  /** Deliver on a check job, in terms of the state with the call taken off. */
  lemma DeliverShape(s: Sys, id: nat)
    requires id in s.flights && s.flights[id].call != Tick && s.flights[id].outcome.Some?
    ensures var f := s.flights[id];
            var s1 := Callback(s.(flights := s.flights - {id}));
            var s' := Deliver(s, id);
            match f.outcome.value
            case Error(code) =>
              && (code == ENOENT && f.job.parent == None ==> s' == Log(s1, Vanished(f.job.filename)))
              && (code != ENOENT ==> s' == s1.(scheduled := s'.scheduled, status := s'.status))
              && (code != ENOENT ==> s'.status == if s.status == Working then Failed(code) else s.status)
            case Stats(isDirectory) =>
              if isDirectory then
                s' == s1.(flights := s1.flights[id := Flight(f.job, ReadDir, None)], processing := s1.processing + 1,
                          scheduled := s'.scheduled)
                && s'.scheduled == s.scheduled
              else
                s' == s1.(queue := s1.queue + [f.job.(kind := Unlink)], scheduled := s'.scheduled) && s'.scheduled
            case Entries(names) =>
              s' == Expand(s1, f.job, names).(scheduled := s'.scheduled) && s'.scheduled
            case Done => true
  {
    var s1 := Callback(s.(flights := s.flights - {id}));
    assert s.flights[id := Flight(s.flights[id].job, ReadDir, None)] ==
           s1.flights[id := Flight(s.flights[id].job, ReadDir, None)];
  }

  lemma OtherStatus(w: World, s: Sys, s': Sys, gone: set<Path>)
    requires Core(w, s, gone, None, {}, {}) && s' == s.(scheduled := s'.scheduled, status := s'.status)
    ensures Core(w, s', gone, None, {}, {})
  {
    hide Core;
    NoChange(w, s, s.(scheduled := s'.scheduled), gone);
    StatusIrrelevant(w, s.(scheduled := s'.scheduled), s', gone);
  }

  lemma DeliverStats(w: World, s: Sys, gone: set<Path>, id: nat)
    requires WorldOk(w) && Core(w, s, gone, None, {}, {})
    requires id in s.flights && s.flights[id].call == LStat && s.flights[id].outcome.Some?
    ensures Core(w, Deliver(s, id), gone, None, {}, {})
    ensures var s' := Deliver(s, id);
      if s.flights[id].outcome == Some(Error(ENOTDIR)) then
        Hazard(w, s.flights[id].job.filename) && s'.status == if s.status == Working then Failed(ENOTDIR) else s.status
      else
        s'.status == s.status
        && (|| s'.scheduled
            || (&& id in s'.flights && s'.queue == s.queue
                && s'.processing == s.processing && s'.scheduled == s.scheduled))
  {
    var f := s.flights[id];
    var p := f.job.filename;
    var s1 := Callback(s.(flights := s.flights - {id}));
    var s' := Deliver(s, id);
    hide Core, WorldOk, Stated, Deliver;
    TakeCheck(w, s, s1, gone, id);
    DeliverShape(s, id);
    if p !in w.fs0 {
      StatMissing(w, s1, gone, f);
      if f.outcome == Some(Error(ENOTDIR)) {
        OtherStatus(w, s1, s', gone);
      }
    } else if w.fs0[p] == Dir {
      StatDirectory(w, s1, s', gone, id, f);
    } else {
      StatFile(w, s1, s', gone, f);
    }
  }

  lemma DeliverEntries(w: World, s: Sys, gone: set<Path>, id: nat)
    requires WorldOk(w) && Core(w, s, gone, None, {}, {})
    requires id in s.flights && s.flights[id].call == ReadDir && s.flights[id].outcome.Some?
    ensures Core(w, Deliver(s, id), gone, None, {}, {})
    ensures Deliver(s, id).status == s.status && Deliver(s, id).scheduled
  {
    var f := s.flights[id];
    var s1 := Callback(s.(flights := s.flights - {id}));
    var s' := Deliver(s, id);
    TakeCheck(w, s, s1, gone, id);
    assert Removable(w, f.job.filename) && w.fs0[f.job.filename] == Dir by {
      FlightFacts(w, s, gone, id);
      hide Core, OutcomeOk, Stated, Ready, Announced, WorldOk;
    }
    DeliverShape(s, id);
    hide Core, WorldOk, Removable, Ready, Announced, Pending, NotOnHold, Expand, Lists, Deliver;
    ExpandKeeps(w, s1, s', gone, f.job, f.outcome.value.names);
  }

  lemma RemovalFacts(w: World, s: Sys, gone: set<Path>, f: Flight)
    requires WorldOk(w) && FlightOk(w, s, gone, f) && IsRemoval(f)
    ensures ParentOk(w, s, f.job) && Removable(w, f.job.filename) && Left(w, gone, f.job.filename) == {}
    ensures f.job.filename !in gone && !w.c.dry && OutcomeOk(w, f) && f.job.filename in w.fs0
  {
    if f.job.kind == Unlink {
      assert Left(w, gone, f.job.filename) == {};
    }
  }

  lemma DeliverDone(w: World, s: Sys, gone: set<Path>, id: nat)
    requires WorldOk(w) && Core(w, s, gone, None, {}, {})
    requires id in s.flights && IsRemoval(s.flights[id]) && s.flights[id].outcome.Some?
    ensures s.flights[id].outcome == Some(Done)
    ensures Core(w, Deliver(s, id), gone + {s.flights[id].job.filename}, None, {}, {})
    ensures Deliver(s, id).status == s.status && Deliver(s, id).scheduled
  {
    var f := s.flights[id];
    var p := f.job.filename;
    var s1 := Callback(s.(flights := s.flights - {id}));
    DoneFacts(w, s, s1, gone, id);
    DoneShape(s, id);
    hide Core, WorldOk, FlightOk, Removable, ParentOk, Left, OutcomeOk, Deliver, Pending, NotOnHold, Announced,
         Callback;
    RetireFlight(w, s, s1, gone, id);
    ReportKeeps(w, s1, gone, f.job);
    HandleParentKeeps(w, s1, gone + {p}, f.job.parent);
    HandleParentFrame(s1, f.job.parent);
  }

  lemma DoneShape(s: Sys, id: nat)
    requires id in s.flights && IsRemoval(s.flights[id]) && s.flights[id].outcome == Some(Done)
    ensures var s1 := Callback(s.(flights := s.flights - {id}));
            && Deliver(s, id) == HandleParent(s1, s.flights[id].job.parent)
            && s1 == s.(flights := s.flights - {id}, processing := s.processing - 1, scheduled := true)
            && HandleParent(s1, s.flights[id].job.parent).scheduled
  {
    CallbackCommutes(s.(flights := s.flights - {id}), s.flights[id].job.parent);
  }

  lemma DoneFacts(w: World, s: Sys, s1: Sys, gone: set<Path>, id: nat)
    requires WorldOk(w) && Core(w, s, gone, None, {}, {})
    requires id in s.flights && IsRemoval(s.flights[id]) && s.flights[id].outcome.Some?
    requires SameContext(s, s1) && s1.fs == s.fs
    ensures var f := s.flights[id];
            && ParentOk(w, s1, f.job) && Removable(w, f.job.filename) && Left(w, gone, f.job.filename) == {}
            && f.job.filename !in gone && NotOnHold(s1, f.job.filename) && Announced(s1, f.job.filename)
            && f.job.filename !in s1.fs && !w.c.dry && f.outcome.value == Done
            && (f.job.parent.Some? ==> f.job.parent.value < |s1.tokens|)
  {
    var f := s.flights[id];
    hide Core, WorldOk, FlightOk, Removable, ParentOk, Left, Pending, NotOnHold, Announced;
    FlightFacts(w, s, gone, id);
    RemovalFacts(w, s, gone, f);
    StillReady(w, s, s1, gone, f);
    SameReady(w, s, s1, gone);
  }

  lemma NotVisited(w: World, p: Path)
    requires p !in w.fs0
    ensures !Visited(w, p)
  {
  }

  lemma DeliverTick(w: World, s: Sys, gone: set<Path>, id: nat)
    requires Core(w, s, gone, None, {}, {})
    requires id in s.flights && s.flights[id].call == Tick
    ensures Core(w, Deliver(s, id), gone, None, {}, {})
    ensures Deliver(s, id).status == s.status && Deliver(s, id).scheduled
  {
    hide Core;
    RetireFlight(w, s, Deliver(s, id), gone, id);
  }

  lemma DeliverKeeps(w: World, s: Sys, gone: set<Path>, id: nat) returns (gone': set<Path>)
    requires WorldOk(w) && Inv(w, s, gone) && Enabled(s, DeliverCall(id))
    ensures Inv(w, Deliver(s, id), gone') && gone <= gone'
  {
    var f := s.flights[id];
    hide Core, WorldOk, Deliver;
    match f.call
    case Tick => DeliverTick(w, s, gone, id); gone' := gone;
    case LStat => DeliverStats(w, s, gone, id); gone' := gone;
    case ReadDir => DeliverEntries(w, s, gone, id); gone' := gone;
    case _ => DeliverDone(w, s, gone, id); gone' := gone + {f.job.filename};
  }

  // ---------- a job starts ----------

  lemma QueueFacts(w: World, s: Sys, gone: set<Path>)
    requires Core(w, s, gone, None, {}, {}) && s.queue != []
    ensures var job := s.queue[|s.queue| - 1];
            && Ready(w, s, gone, job) && Pending(s, job.filename) && NotOnHold(s, job.filename)
            && !Announced(s, job.filename) && !RemovalInFlight(s, job.filename)
            && (job.parent.Some? ==> job.parent.value < |s.tokens|)
            && s.processing == |s.flights| && s.nextId !in s.flights
            && (job.kind != Check && job.filename in w.fs0 ==> job.filename in s.fs)
  {
    var n := |s.queue| - 1;
    var job := s.queue[n];
    var p := job.filename;
    assert PendingAt(s, Waiting(n), p);
    hide Unique, GoneOk, Covered, Removable, Visited, Left, HasToken, OutcomeOk, Holds;
    assert Ready(w, s, gone, job) && !Announced(s, p);
    assert !RemovalInFlight(s, p) && !RemovalDone(s, p);
    hide RemovalInFlight, RemovalDone;
    assert NotOnHold(s, p) by {
      hide LogOk, DiskOk, FlightsOk;
      forall t | 0 <= t < |s.tokens| && s.tokens[t].job.filename == p ensures s.tokens[t].remaining <= 0 {
        assert TokenOk(w, s, gone, None, t);
      }
    }
    hide TokensOk;
  }

  /** What is known of the job just popped, in the state without it. */
  ghost predicate Popped(w: World, s1: Sys, gone: set<Path>, job: Job) {
    && Core(w, s1, gone, None, {}, {job.filename})
    && Ready(w, s1, gone, job) && !Pending(s1, job.filename) && NotOnHold(s1, job.filename)
    && !Announced(s1, job.filename) && !RemovalInFlight(s1, job.filename)
    && (job.parent.Some? ==> job.parent.value < |s1.tokens|)
    && s1.nextId !in s1.flights && s1.processing < CONCURRENCY
    && (job.kind != Check && job.filename in w.fs0 ==> job.filename in s1.fs)
  }

  lemma PopJob(w: World, s: Sys, gone: set<Path>)
    requires Core(w, s, gone, None, {}, {}) && s.queue != [] && s.processing < CONCURRENCY
    ensures Popped(w, s.(queue := s.queue[..|s.queue| - 1]), gone, s.queue[|s.queue| - 1])
  {
    var s1 := s.(queue := s.queue[..|s.queue| - 1]);
    QueueFacts(w, s, gone);
    assert forall q :: RemovalInFlight(s1, q) <==> RemovalInFlight(s, q);
    hide Core, Ready, Announced, RemovalInFlight, Pending;
    RetireQueued(w, s, s1, gone);
    SameReady(w, s, s1, gone);
  }

  lemma BeginKept(w: World, s1: Sys, s': Sys, gone: set<Path>, job: Job)
    requires Popped(w, s1, gone, job) && w.c.keep(job.filename)
    requires s' == Launch(Log(s1, WillBeKept(job.filename)), Flight(job, Tick, None)).(processing := s1.processing + 1)
    ensures Core(w, s', gone, None, {}, {})
  {
    var s2 := Log(s1, WillBeKept(job.filename));
    hide Core, Ready, Announced, RemovalInFlight, Pending, NotOnHold;
    CloseKept(w, s1, gone, job.filename);
    NotesKeep(w, s1, s2, gone, [WillBeKept(job.filename)], {});
    LaunchTick(w, s2, s', gone, s2.nextId, Flight(job, Tick, None));
  }

  lemma BeginCheck(w: World, s1: Sys, s': Sys, gone: set<Path>, job: Job)
    requires Popped(w, s1, gone, job) && job.kind == Check && !w.c.keep(job.filename)
    requires s' == Launch(s1, Flight(job, LStat, None)).(processing := s1.processing + 1)
    ensures Core(w, s', gone, None, {}, {})
  {
    var f := Flight(job, LStat, None);
    assert FlightOk(w, s1, gone, f) by {
      hide Core, Ready, Announced, RemovalInFlight, Pending, NotOnHold;
    }
    hide Core, Ready, Announced, RemovalInFlight, Pending, NotOnHold, FlightOk;
    LaunchKeeps(w, s1, s', gone, s1.nextId, f);
  }

  lemma JobFacts(w: World, s: Sys, gone: set<Path>, job: Job)
    requires WorldOk(w) && Ready(w, s, gone, job) && job.kind != Check
    ensures ParentOk(w, s, job) && Removable(w, job.filename) && Left(w, gone, job.filename) == {}
    ensures job.filename !in gone && job.filename in w.fs0
  {
    if job.kind == Unlink {
      assert Left(w, gone, job.filename) == {};
    }
  }

  lemma BeginRemoval(w: World, s1: Sys, s': Sys, gone: set<Path>, job: Job)
    requires WorldOk(w) && Popped(w, s1, gone, job) && job.kind != Check && !w.c.dry
    requires s' == Launch(Log(s1, WillBeRemoved(job.filename)),
                          Flight(job, if job.kind == Unlink then UnlinkCall else RmDirCall, None))
                   .(processing := s1.processing + 1)
    ensures Core(w, s', gone, None, {}, {})
  {
    var p := job.filename;
    var f := Flight(job, if job.kind == Unlink then UnlinkCall else RmDirCall, None);
    var s2 := Log(s1, WillBeRemoved(p));
    JobFacts(w, s1, gone, job);
    assert !RemovalInFlight(s2, p) && NotOnHold(s2, p) by {
      hide Core, Ready, Announced, Pending;
      assert RemovalInFlight(s2, p) <==> RemovalInFlight(s1, p);
    }
    assert Ready(w, s2, gone, job) by {
      hide Core, Announced, Pending, RemovalInFlight, Visited;
      assert forall q :: HasToken(s2, q) <==> HasToken(s1, q);
      assert ParentOk(w, s2, job) <==> ParentOk(w, s1, job);
    }
    assert !w.c.keep(p);
    hide Core, Announced, Pending, RemovalInFlight, NotOnHold, Removable, ParentOk, Left, Ready;
    assert FlightOk(w, s2, gone, f);
    hide FlightOk;
    AnnounceKeeps(w, s1, s2, gone, p);
    LaunchKeeps(w, s2, s', gone, s2.nextId, f);
  }

  lemma BeginDry(w: World, s1: Sys, s': Sys, gone: set<Path>, job: Job)
    requires WorldOk(w) && Popped(w, s1, gone, job) && job.kind != Check && w.c.dry
    requires s' == Launch(HandleParent(Log(s1, WillBeRemoved(job.filename)), job.parent), Flight(job, Tick, None))
                   .(processing := s1.processing + 1)
    ensures Core(w, s', gone + {job.filename}, None, {}, {})
  {
    var p := job.filename;
    var s2 := Log(s1, WillBeRemoved(p));
    var s3 := HandleParent(s2, job.parent);
    JobFacts(w, s1, gone, job);
    assert NotOnHold(s2, p) by {
      hide Core, Ready, Announced, Pending, ParentOk, HandleParent;
    }
    assert ParentOk(w, s2, job) <==> ParentOk(w, s1, job) by {
      hide Core, Ready, Announced, Pending, RemovalInFlight, NotOnHold, HandleParent;
    }
    HandleParentFrame(s2, job.parent);
    hide Core, Announced, Pending, RemovalInFlight, NotOnHold, Removable, ParentOk, Left, Ready, HandleParent, WorldOk;
    AnnounceKeeps(w, s1, s2, gone, p);
    ReportKeeps(w, s2, gone, job);
    HandleParentKeeps(w, s2, gone + {p}, job.parent);
    LaunchTick(w, s3, s', gone + {p}, s3.nextId, Flight(job, Tick, None));
  }

  lemma HandleParentFrame(s: Sys, parent: Option<nat>)
    ensures var s' := HandleParent(s, parent);
            && s'.flights == s.flights && s'.processing == s.processing && s'.nextId == s.nextId && s'.fs == s.fs
            && s'.log == s.log && s'.status == s.status
  {
  }

  lemma PopFrame(c: Config, s: Sys)
    requires s.queue != []
    ensures var s' := PopAndBegin(c, s);
            && s'.status == s.status && s'.processing == s.processing + 1
            && (s.scheduled ==> s'.scheduled)
  {
    HandleParentFrame(Log(s.(processing := s.processing + 1, queue := s.queue[..|s.queue| - 1]),
                          WillBeRemoved(s.queue[|s.queue| - 1].filename)), s.queue[|s.queue| - 1].parent);
  }

  lemma PopDryShape(c: Config, s: Sys, s1: Sys, job: Job)
    requires s.queue != [] && c.dry && job == s.queue[|s.queue| - 1] && job.kind != Check && s.scheduled
    requires s1 == s.(queue := s.queue[..|s.queue| - 1])
    ensures PopAndBegin(c, s) ==
              Launch(HandleParent(Log(s1, WillBeRemoved(job.filename)), job.parent), Flight(job, Tick, None))
              .(processing := s1.processing + 1)
  {
    var s2 := Log(s1, WillBeRemoved(job.filename));
    assert HandleParent(s2.(processing := s1.processing + 1), job.parent) ==
           HandleParent(s2, job.parent).(processing := s1.processing + 1);
    hide HandleParent;
    HandleParentFrame(s2, job.parent);
  }

  lemma PopCheckShape(c: Config, s: Sys, s1: Sys, job: Job)
    requires s.queue != [] && job == s.queue[|s.queue| - 1] && job.kind == Check
    requires s1 == s.(queue := s.queue[..|s.queue| - 1])
    ensures PopAndBegin(c, s) ==
              (if c.keep(job.filename) then
                 Launch(Log(s1, WillBeKept(job.filename)), Flight(job, Tick, None)).(processing := s1.processing + 1)
               else
                 Launch(s1, Flight(job, LStat, None)).(processing := s1.processing + 1))
  {
  }

  lemma PopRemovalShape(c: Config, s: Sys, s1: Sys, job: Job)
    requires s.queue != [] && !c.dry && job == s.queue[|s.queue| - 1] && job.kind != Check
    requires s1 == s.(queue := s.queue[..|s.queue| - 1])
    ensures PopAndBegin(c, s) ==
              Launch(Log(s1, WillBeRemoved(job.filename)),
                     Flight(job, if job.kind == Unlink then UnlinkCall else RmDirCall, None))
              .(processing := s1.processing + 1)
  {
    hide HandleParent;
  }

  lemma BeginKeeps(w: World, s: Sys, gone: set<Path>) returns (gone': set<Path>)
    requires WorldOk(w) && Core(w, s, gone, None, {}, {}) && s.queue != [] && s.processing < CONCURRENCY && s.scheduled
    ensures Core(w, PopAndBegin(w.c, s), gone', None, {}, {}) && gone <= gone'
  {
    var job := s.queue[|s.queue| - 1];
    var s1 := s.(queue := s.queue[..|s.queue| - 1]);
    var s' := PopAndBegin(w.c, s);
    hide Core, Popped, WorldOk, HandleParent, PopAndBegin, Launch, Log;
    gone' := gone;
    PopJob(w, s, gone);
    if job.kind == Check {
      PopCheckShape(w.c, s, s1, job);
      if w.c.keep(job.filename) {
        BeginKept(w, s1, s', gone, job);
      } else {
        BeginCheck(w, s1, s', gone, job);
      }
    } else if w.c.dry {
      PopDryShape(w.c, s, s1, job);
      BeginDry(w, s1, s', gone, job);
      gone' := gone + {job.filename};
    } else {
      PopRemovalShape(w.c, s, s1, job);
      BeginRemoval(w, s1, s', gone, job);
    }
  }

  lemma {:induction false} DrainLoopKeeps(w: World, s: Sys, gone: set<Path>) returns (gone': set<Path>)
    requires WorldOk(w) && Core(w, s, gone, None, {}, {}) && s.scheduled
    ensures Core(w, DrainLoop(w.c, s), gone', None, {}, {}) && gone <= gone'
    ensures var s' := DrainLoop(w.c, s);
            s'.status == s.status && (s'.queue != [] ==> s'.processing >= CONCURRENCY)
    decreases CONCURRENCY - s.processing
  {
    hide Core, WorldOk;
    if s.processing < CONCURRENCY && s.queue != [] {
      var gone1 := BeginKeeps(w, s, gone);
      PopFrame(w.c, s);
      hide PopAndBegin;
      gone' := DrainLoopKeeps(w, PopAndBegin(w.c, s), gone1);
    } else {
      gone' := gone;
    }
  }

  lemma DrainKeeps(w: World, s: Sys, gone: set<Path>) returns (gone': set<Path>)
    requires WorldOk(w) && Inv(w, s, gone) && Enabled(s, DrainTick)
    ensures Inv(w, Drain(w.c, s), gone') && gone <= gone'
  {
    assert Core(w, s, gone, None, {}, {});
    hide Core, WorldOk, DrainLoop;
    gone' := DrainLoopKeeps(w, s, gone);
    var s1 := DrainLoop(w.c, s);
    var s2 := s1.(scheduled := false);
    assert Core(w, s2, gone', None, {}, {}) by {
      NoChange(w, s1, s2, gone');
    }
    ProcessingCounts(w, s2, gone');
    StatusIrrelevant(w, s2, s2.(status := Succeeded), gone');
  }

  lemma ProcessingCounts(w: World, s: Sys, gone: set<Path>)
    requires Core(w, s, gone, None, {}, {})
    ensures s.processing == |s.flights|
    ensures s.processing == 0 ==> s.flights == map[]
  {
    hide QueueOk, Unique, LogOk, DiskOk, GoneOk, TokensOk, Covered, FlightOk;
    assert |s.flights| == |s.flights.Keys|;
    if s.processing == 0 {
      assert s.flights.Keys == {};
    }
  }

  lemma StatusIrrelevant(w: World, s: Sys, s': Sys, gone: set<Path>)
    requires Core(w, s, gone, None, {}, {}) && s' == s.(status := s'.status)
    ensures Core(w, s', gone, None, {}, {})
  {
    assert forall a, p :: PendingAt(s', a, p) <==> PendingAt(s, a, p);
    assert forall p :: Pending(s', p) <==> Pending(s, p);
    assert Unique(s');
    assert SameContext(s, s');
    hide QueueOk, FlightsOk, Unique, LogOk, DiskOk, GoneOk, TokensOk, Covered, Pending, SameContext;
    FewerPending(w, s, s', gone, {});
    SameFlightsLogDisk(w, s, s', gone);
    RetireQueueGone(w, s, s', gone);
  }
}
