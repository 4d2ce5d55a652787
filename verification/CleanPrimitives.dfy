/** The elementary changes the events are made of, and what each does to the invariant. */
module CleanPrimitives {
  import opened Common
  import opened FileTree
  import opened CleanJobs
  import opened CleanInvariant

  /** Nothing a job's readiness depends on has changed. */
  ghost predicate SameContext(s: Sys, s': Sys) {
    s'.tokens == s.tokens && s'.log == s.log
  }

  lemma SameReady(w: World, s: Sys, s': Sys, gone: set<Path>)
    requires s'.tokens == s.tokens && (SameContext(s, s') || forall p :: Announced(s', p) <==> Announced(s, p))
    ensures forall p {:trigger HasToken(s', p)} :: HasToken(s', p) <==> HasToken(s, p)
    ensures forall p {:trigger Announced(s', p)} :: Announced(s', p) <==> Announced(s, p)
    ensures forall p {:trigger OnHold(s', p)} :: OnHold(s', p) <==> OnHold(s, p)
    ensures forall job {:trigger ParentOk(w, s', job)} :: ParentOk(w, s', job) <==> ParentOk(w, s, job)
    ensures forall job {:trigger Ready(w, s', gone, job)} :: Ready(w, s', gone, job) <==> Ready(w, s, gone, job)
    ensures forall f {:trigger FlightOk(w, s', gone, f)} :: FlightOk(w, s', gone, f) <==> FlightOk(w, s, gone, f)
  {
    hide Visited, Removable, OutcomeOk, Left;
  }

  // ---------- taking a pending job out ----------

  lemma FlightGonePending(s: Sys, s': Sys, id: nat)
    requires Unique(s) && id in s.flights
    requires s'.flights == s.flights - {id} && s'.queue == s.queue
    ensures Unique(s')
    ensures forall p :: Pending(s', p) <==>
      Pending(s, p) && (s.flights[id].call == Tick || p != s.flights[id].job.filename)
  {
    assert forall a, p :: PendingAt(s', a, p) <==> PendingAt(s, a, p) && a != Flying(id);
    assert forall p :: PendingAt(s, Flying(id), p) ==> s.flights[id].call != Tick && p == s.flights[id].job.filename;
    assert s.flights[id].call != Tick ==> PendingAt(s, Flying(id), s.flights[id].job.filename);
    hide Holds, At;
    forall p | Pending(s, p) && (s.flights[id].call == Tick || p != s.flights[id].job.filename)
      ensures Pending(s', p)
    {
      var a :| PendingAt(s, a, p);
      assert PendingAt(s', a, p);
    }
  }

  lemma QueuePopPending(s: Sys, s': Sys)
    requires Unique(s) && s.queue != []
    requires s'.flights == s.flights && s'.queue == s.queue[..|s.queue| - 1]
    ensures Unique(s')
    ensures forall p :: Pending(s', p) <==> Pending(s, p) && p != s.queue[|s.queue| - 1].filename
  {
    var n := |s.queue| - 1;
    assert forall a, p :: PendingAt(s', a, p) <==> PendingAt(s, a, p) && a != Waiting(n);
    assert PendingAt(s, Waiting(n), s.queue[n].filename);
    forall p | Pending(s, p) && p != s.queue[n].filename
      ensures Pending(s', p)
    {
      var a :| PendingAt(s, a, p);
      assert PendingAt(s', a, p);
    }
  }

  /** Tokens and coverage when one path stops being pending. */
  lemma FewerPending(w: World, s: Sys, s': Sys, gone: set<Path>, open: set<Path>)
    requires TokensOk(w, s, gone, None) && Covered(w, s, gone, {})
    requires SameContext(s, s')
    requires forall p :: Pending(s', p) ==> Pending(s, p)
    requires forall p :: Pending(s, p) && p !in open ==> Pending(s', p)
    ensures TokensOk(w, s', gone, None) && Covered(w, s', gone, open)
  {
    SameReady(w, s, s', gone);
    hide Pending, HasToken, OnHold, ParentOk, Visited, Removable, Announced;
    forall t | 0 <= t < |s'.tokens| ensures TokenOk(w, s', gone, None, t) {
      assert TokenOk(w, s, gone, None, t);
    }
  }

  lemma FlightsShrink(w: World, s: Sys, s': Sys, gone: set<Path>, id: nat)
    requires FlightsOk(w, s, gone) && id in s.flights && SameContext(s, s')
    requires s'.flights == s.flights - {id} && s'.processing == s.processing - 1 && s'.nextId == s.nextId
    ensures FlightsOk(w, s', gone)
  {
    SameReady(w, s, s', gone);
    assert s'.flights.Keys == s.flights.Keys - {id};
    assert |s'.flights| == |s'.flights.Keys| && |s.flights| == |s.flights.Keys|;
    hide FlightOk;
  }

  lemma RetireLogDisk(w: World, s: Sys, s': Sys, gone: set<Path>, id: nat)
    requires LogOk(w, s, gone, {}) && DiskOk(w, s, gone, {}) && id in s.flights
    requires SameContext(s, s') && s'.flights == s.flights - {id} && s'.fs == s.fs
    ensures LogOk(w, s', gone, {s.flights[id].job.filename}) && DiskOk(w, s', gone, {s.flights[id].job.filename})
    ensures !IsRemoval(s.flights[id]) ==> LogOk(w, s', gone, {}) && DiskOk(w, s', gone, {})
  {
    var p := s.flights[id].job.filename;
    forall q | q != p || !IsRemoval(s.flights[id])
      ensures RemovalInFlight(s', q) <==> RemovalInFlight(s, q)
      ensures RemovalDone(s', q) <==> RemovalDone(s, q)
    {
      if RemovalInFlight(s, q) {
        var k :| k in s.flights && IsRemoval(s.flights[k]) && s.flights[k].job.filename == q;
        assert k in s'.flights;
      }
      if RemovalDone(s, q) {
        var k :| k in s.flights && IsRemoval(s.flights[k]) && s.flights[k].job.filename == q
          && s.flights[k].outcome.Some?;
        assert k in s'.flights;
      }
    }
    hide RemovalInFlight, RemovalDone;
  }

  lemma RetireQueueGone(w: World, s: Sys, s': Sys, gone: set<Path>)
    requires QueueOk(w, s, gone) && GoneOk(w, s, gone) && SameContext(s, s') && s'.queue <= s.queue
    ensures QueueOk(w, s', gone) && GoneOk(w, s', gone)
  {
    SameReady(w, s, s', gone);
    hide Ready, Removable, HasToken;
  }

  lemma RetireFlight(w: World, s: Sys, s': Sys, gone: set<Path>, id: nat)
    requires Core(w, s, gone, None, {}, {}) && id in s.flights
    requires s' == s.(flights := s.flights - {id}, processing := s.processing - 1, scheduled := s'.scheduled)
    ensures var p := s.flights[id].job.filename;
            if s.flights[id].call == Tick then Core(w, s', gone, None, {}, {})
            else Core(w, s', gone, None, if IsRemoval(s.flights[id]) then {p} else {}, {p}) && !Pending(s', p)
  {
    hide QueueOk, FlightsOk, Unique, LogOk, DiskOk, GoneOk, TokensOk, Covered, Pending;
    FlightGonePending(s, s', id);
    var p := s.flights[id].job.filename;
    FewerPending(w, s, s', gone, if s.flights[id].call == Tick then {} else {p});
    FlightsShrink(w, s, s', gone, id);
    RetireLogDisk(w, s, s', gone, id);
    RetireQueueGone(w, s, s', gone);
  }

  lemma RetireQueued(w: World, s: Sys, s': Sys, gone: set<Path>)
    requires Core(w, s, gone, None, {}, {}) && s.queue != []
    requires s' == s.(queue := s.queue[..|s.queue| - 1])
    ensures var p := s.queue[|s.queue| - 1].filename;
            Core(w, s', gone, None, {}, {p}) && !Pending(s', p)
  {
    hide QueueOk, Unique, GoneOk, TokensOk, Covered, Pending, FlightOk;
    QueuePopPending(s, s');
    var p := s.queue[|s.queue| - 1].filename;
    FewerPending(w, s, s', gone, {p});
    SameReady(w, s, s', gone);
    RetireQueueGone(w, s, s', gone);
    assert FlightsOk(w, s', gone);
    assert forall q :: RemovalInFlight(s', q) <==> RemovalInFlight(s, q);
    assert forall q :: RemovalDone(s', q) <==> RemovalDone(s, q);
    hide RemovalInFlight, RemovalDone, FlightsOk;
  }

  // ---------- putting a job in flight or in the queue ----------

  lemma FlightNewPending(s: Sys, s': Sys, id: nat, f: Flight)
    requires Unique(s) && id !in s.flights
    requires s'.flights == s.flights[id := f] && s'.queue == s.queue
    requires f.call == Tick || !Pending(s, f.job.filename)
    ensures Unique(s')
    ensures forall p :: Pending(s', p) <==> Pending(s, p) || (f.call != Tick && p == f.job.filename)
  {
    assert forall a, p :: PendingAt(s', a, p) <==>
      PendingAt(s, a, p) || (a == Flying(id) && f.call != Tick && p == f.job.filename);
    assert f.call != Tick ==> PendingAt(s', Flying(id), f.job.filename);
    hide Holds, At;
    forall p | Pending(s, p) ensures Pending(s', p) {
      var a :| PendingAt(s, a, p);
      assert PendingAt(s', a, p);
    }
  }

  lemma QueueNewPending(s: Sys, s': Sys, job: Job)
    requires Unique(s) && !Pending(s, job.filename)
    requires s'.flights == s.flights && s'.queue == s.queue + [job]
    ensures Unique(s')
    ensures forall p :: Pending(s', p) <==> Pending(s, p) || p == job.filename
  {
    assert forall a, p :: PendingAt(s', a, p) <==>
      PendingAt(s, a, p) || (a == Waiting(|s.queue|) && p == job.filename);
    assert PendingAt(s', Waiting(|s.queue|), job.filename);
    hide Holds, At;
    forall p | Pending(s, p) ensures Pending(s', p) {
      var a :| PendingAt(s, a, p);
      assert PendingAt(s', a, p);
    }
  }

  /** No counter still above zero stands for p. */
  ghost predicate NotOnHold(s: Sys, p: Path) {
    forall t :: 0 <= t < |s.tokens| && s.tokens[t].job.filename == p ==> s.tokens[t].remaining <= 0
  }

  /** Tokens and coverage when p becomes pending. */
  lemma MorePending(w: World, s: Sys, s': Sys, gone: set<Path>, p: Path, open: set<Path>)
    requires TokensOk(w, s, gone, None) && Covered(w, s, gone, open)
    requires SameContext(s, s') && NotOnHold(s, p)
    requires forall q :: Pending(s', q) <==> Pending(s, q) || q == p
    ensures TokensOk(w, s', gone, None) && Covered(w, s', gone, open - {p})
  {
    SameReady(w, s, s', gone);
    hide Pending, HasToken, OnHold, ParentOk, Visited, Removable, Announced;
    forall t | 0 <= t < |s'.tokens| ensures TokenOk(w, s', gone, None, t) {
      assert TokenOk(w, s, gone, None, t);
    }
  }

  lemma FlightsGrow(w: World, s: Sys, s': Sys, gone: set<Path>, id: nat, f: Flight)
    requires FlightsOk(w, s, gone) && id !in s.flights && SameContext(s, s')
    requires s.processing < CONCURRENCY && FlightOk(w, s, gone, f)
    requires s'.flights == s.flights[id := f] && s'.processing == s.processing + 1
    requires s.nextId <= s'.nextId && id < s'.nextId
    ensures FlightsOk(w, s', gone)
  {
    SameReady(w, s, s', gone);
    assert s'.flights.Keys == s.flights.Keys + {id};
    assert |s'.flights| == |s'.flights.Keys| && |s.flights| == |s.flights.Keys|;
    hide FlightOk;
  }

  lemma LaunchLogDisk(w: World, s: Sys, s': Sys, gone: set<Path>, id: nat, f: Flight)
    requires LogOk(w, s, gone, if IsRemoval(f) then {f.job.filename} else {})
    requires DiskOk(w, s, gone, if IsRemoval(f) then {f.job.filename} else {})
    requires id !in s.flights && SameContext(s, s') && s'.flights == s.flights[id := f] && s'.fs == s.fs
    requires IsRemoval(f) ==>
      && Announced(s, f.job.filename) && f.outcome == None
      && f.job.filename in s.fs && f.job.filename !in gone && !RemovalInFlight(s, f.job.filename)
    ensures LogOk(w, s', gone, {}) && DiskOk(w, s', gone, {})
  {
    var p := f.job.filename;
    assert forall q :: RemovalInFlight(s', q) <==> RemovalInFlight(s, q) || (IsRemoval(f) && q == p) by {
      assert IsRemoval(f) ==> s'.flights[id] == f;
      forall q | RemovalInFlight(s, q) ensures RemovalInFlight(s', q) {
        var k :| k in s.flights && IsRemoval(s.flights[k]) && s.flights[k].job.filename == q;
        assert k in s'.flights && s'.flights[k] == s.flights[k];
      }
    }
    forall q | !IsRemoval(f) || q != p
      ensures RemovalDone(s', q) <==> RemovalDone(s, q)
    {
      if RemovalDone(s, q) {
        var k :| k in s.flights && IsRemoval(s.flights[k]) && s.flights[k].job.filename == q
          && s.flights[k].outcome.Some?;
        assert k in s'.flights && s'.flights[k] == s.flights[k];
      }
    }
    if IsRemoval(f) {
      assert !RemovalDone(s', p);
    }
    hide RemovalInFlight, RemovalDone;
  }

  /** A taken-out job, or its follow-up call, goes into flight. */
  lemma LaunchKeeps(w: World, s: Sys, s': Sys, gone: set<Path>, id: nat, f: Flight)
    requires f.call != Tick && id !in s.flights && s.processing < CONCURRENCY
    requires Core(w, s, gone, None, if IsRemoval(f) then {f.job.filename} else {}, {f.job.filename})
    requires FlightOk(w, s, gone, f) && NotOnHold(s, f.job.filename) && !Pending(s, f.job.filename)
    requires IsRemoval(f) ==>
      && Announced(s, f.job.filename) && f.outcome == None
      && f.job.filename in s.fs && f.job.filename !in gone && !RemovalInFlight(s, f.job.filename)
    requires s.nextId <= s'.nextId && id < s'.nextId
    requires s' == s.(flights := s.flights[id := f], processing := s.processing + 1,
                      nextId := s'.nextId, scheduled := s'.scheduled)
    ensures Core(w, s', gone, None, {}, {})
  {
    hide QueueOk, FlightsOk, Unique, LogOk, DiskOk, GoneOk, TokensOk, Covered, Pending, FlightOk,
         NotOnHold, Announced, RemovalInFlight, IsRemoval;
    var p := f.job.filename;
    FlightNewPending(s, s', id, f);
    MorePending(w, s, s', gone, p, {p});
    assert {p} - {p} == {};
    FlightsGrow(w, s, s', gone, id, f);
    LaunchLogDisk(w, s, s', gone, id, f);
    RetireQueueGone(w, s, s', gone);
  }

  /** A job that has nothing left to do waits for its callback. */
  lemma LaunchTick(w: World, s: Sys, s': Sys, gone: set<Path>, id: nat, f: Flight)
    requires f.call == Tick && id !in s.flights && s.processing < CONCURRENCY
    requires Core(w, s, gone, None, {}, {})
    requires s.nextId <= s'.nextId && id < s'.nextId
    requires s' == s.(flights := s.flights[id := f], processing := s.processing + 1, nextId := s'.nextId)
    ensures Core(w, s', gone, None, {}, {})
  {
    hide QueueOk, FlightsOk, Unique, LogOk, DiskOk, GoneOk, TokensOk, Covered, Pending;
    FlightNewPending(s, s', id, f);
    FewerPending(w, s, s', gone, {});
    FlightsGrow(w, s, s', gone, id, f);
    LaunchLogDisk(w, s, s', gone, id, f);
    RetireQueueGone(w, s, s', gone);
  }

  lemma SameFlightsLogDisk(w: World, s: Sys, s': Sys, gone: set<Path>)
    requires FlightsOk(w, s, gone) && LogOk(w, s, gone, {}) && DiskOk(w, s, gone, {})
    requires SameContext(s, s') && s'.flights == s.flights && s'.fs == s.fs
    requires s'.processing == s.processing && s'.nextId == s.nextId
    ensures FlightsOk(w, s', gone) && LogOk(w, s', gone, {}) && DiskOk(w, s', gone, {})
  {
    SameReady(w, s, s', gone);
    assert forall q :: RemovalInFlight(s', q) <==> RemovalInFlight(s, q);
    assert forall q :: RemovalDone(s', q) <==> RemovalDone(s, q);
    hide RemovalInFlight, RemovalDone, FlightOk;
  }

  lemma QueuePushed(w: World, s: Sys, s': Sys, gone: set<Path>, job: Job)
    requires QueueOk(w, s, gone) && GoneOk(w, s, gone) && SameContext(s, s')
    requires s'.queue == s.queue + [job] && Ready(w, s, gone, job) && !Announced(s, job.filename)
    ensures QueueOk(w, s', gone) && GoneOk(w, s', gone)
  {
    SameReady(w, s, s', gone);
    hide Ready, Removable, HasToken, Announced;
  }

  /** Pushing the follow-up job of a path under way. */
  lemma PushKeeps(w: World, s: Sys, s': Sys, gone: set<Path>, job: Job, open: set<Path>)
    requires Core(w, s, gone, None, {}, open)
    requires Ready(w, s, gone, job) && !Announced(s, job.filename)
    requires NotOnHold(s, job.filename) && !Pending(s, job.filename)
    requires s' == s.(queue := s.queue + [job], scheduled := s'.scheduled)
    ensures Core(w, s', gone, None, {}, open - {job.filename})
    ensures forall q :: Pending(s', q) <==> Pending(s, q) || q == job.filename
  {
    hide QueueOk, FlightsOk, Unique, LogOk, DiskOk, GoneOk, TokensOk, Covered, Pending, Ready, NotOnHold, Announced;
    QueueNewPending(s, s', job);
    MorePending(w, s, s', gone, job.filename, open);
    SameFlightsLogDisk(w, s, s', gone);
    QueuePushed(w, s, s', gone, job);
  }

  /** A path under way that turns out to stay needs no further job. */
  lemma CloseKept(w: World, s: Sys, gone: set<Path>, p: Path)
    requires Core(w, s, gone, None, {}, {p}) && (w.c.keep(p) || !Visited(w, p) || OnHold(s, p))
    ensures Core(w, s, gone, None, {}, {})
  {
    hide QueueOk, FlightsOk, Unique, LogOk, DiskOk, GoneOk, TokensOk, Pending, HasToken, OnHold, Visited;
  }

  // ---------- the log ----------

  /** Notes other than removals leave everything else alone. */
  lemma NotesKeep(w: World, s: Sys, s': Sys, gone: set<Path>, notes: seq<Note>, open: set<Path>)
    requires Core(w, s, gone, None, {}, open) && s' == s.(log := s.log + notes)
    requires forall n :: n in notes ==> !n.WillBeRemoved?
    ensures Core(w, s', gone, None, {}, open)
  {
    assert forall p :: Announced(s', p) <==> Announced(s, p);
    assert forall a, p :: PendingAt(s', a, p) <==> PendingAt(s, a, p);
    assert forall p :: Pending(s', p) <==> Pending(s, p);
    assert Unique(s');
    NotesKeepRest(w, s, s', gone, notes);
    hide QueueOk, FlightsOk, Unique, LogOk, DiskOk, GoneOk, Pending, Announced;
    SameReady(w, s, s', gone);
    hide TokensOk, Covered, ParentOk, HasToken, Visited, Removable, OnHold;
    assert TokensOk(w, s', gone, None) by {
      NotesKeepTokens(w, s, s', gone);
    }
    assert Covered(w, s', gone, open) by {
      NotesKeepCover(w, s, s', gone, open);
    }
  }

  lemma NotesKeepTokens(w: World, s: Sys, s': Sys, gone: set<Path>)
    requires TokensOk(w, s, gone, None) && s'.tokens == s.tokens
    requires forall p :: Announced(s', p) <==> Announced(s, p)
    requires forall p :: Pending(s', p) <==> Pending(s, p)
    ensures TokensOk(w, s', gone, None)
  {
    SameReady(w, s, s', gone);
    hide ParentOk, Visited, Removable, Announced, Pending;
    forall t | 0 <= t < |s'.tokens| ensures TokenOk(w, s', gone, None, t) {
      assert TokenOk(w, s, gone, None, t);
    }
  }

  lemma NotesKeepCover(w: World, s: Sys, s': Sys, gone: set<Path>, open: set<Path>)
    requires Covered(w, s, gone, open) && s'.tokens == s.tokens
    requires forall p :: Pending(s', p) <==> Pending(s, p)
    ensures Covered(w, s', gone, open)
  {
    assert forall p :: HasToken(s', p) <==> HasToken(s, p);
    assert forall p :: OnHold(s', p) <==> OnHold(s, p);
    hide Pending, HasToken, OnHold, Visited;
  }

  lemma NotesKeepRest(w: World, s: Sys, s': Sys, gone: set<Path>, notes: seq<Note>)
    requires QueueOk(w, s, gone) && FlightsOk(w, s, gone) && GoneOk(w, s, gone)
    requires LogOk(w, s, gone, {}) && DiskOk(w, s, gone, {})
    requires s' == s.(log := s.log + notes)
    requires forall n :: n in notes ==> !n.WillBeRemoved?
    ensures QueueOk(w, s', gone) && FlightsOk(w, s', gone) && GoneOk(w, s', gone)
    ensures LogOk(w, s', gone, {}) && DiskOk(w, s', gone, {})
  {
    assert forall p :: Announced(s', p) <==> Announced(s, p);
    assert LogOk(w, s', gone, {}) && DiskOk(w, s', gone, {}) by {
      NotesKeepLog(w, s, s', gone, notes);
    }
    SameReady(w, s, s', gone);
    hide LogOk, DiskOk, Announced, FlightOk, Ready, HasToken, Removable;
  }

  lemma NotesKeepLog(w: World, s: Sys, s': Sys, gone: set<Path>, notes: seq<Note>)
    requires LogOk(w, s, gone, {}) && DiskOk(w, s, gone, {})
    requires s' == s.(log := s.log + notes)
    requires forall n :: n in notes ==> !n.WillBeRemoved?
    ensures LogOk(w, s', gone, {}) && DiskOk(w, s', gone, {})
  {
    assert forall p :: Announced(s', p) <==> Announced(s, p);
    assert forall q :: RemovalInFlight(s', q) <==> RemovalInFlight(s, q);
    assert forall q :: RemovalDone(s', q) <==> RemovalDone(s, q);
    assert forall i :: |s.log| <= i < |s'.log| ==> s'.log[i] in notes;
    hide Announced, RemovalInFlight, RemovalDone;
  }

  /** "will be removed" is logged for the path under way. */
  lemma AnnounceKeeps(w: World, s: Sys, s': Sys, gone: set<Path>, p: Path)
    requires Core(w, s, gone, None, {}, {p})
    requires !Announced(s, p) && !Pending(s, p) && NotOnHold(s, p)
    requires s' == s.(log := s.log + [WillBeRemoved(p)])
    ensures Core(w, s', gone, None, {p}, {p}) && Announced(s', p) && !Pending(s', p)
    ensures forall q :: HasToken(s', q) <==> HasToken(s, q)
  {
    assert forall q :: Announced(s', q) <==> Announced(s, q) || q == p;
    assert forall a, q :: PendingAt(s', a, q) <==> PendingAt(s, a, q);
    assert forall q :: Pending(s', q) <==> Pending(s, q);
    assert Unique(s');
    assert forall q :: HasToken(s', q) <==> HasToken(s, q);
    AnnounceKeepsJobs(w, s, s', gone, p);
    AnnounceKeepsRest(w, s, s', gone, p);
    hide QueueOk, FlightsOk, Unique, LogOk, DiskOk, GoneOk, TokensOk, Pending, Announced;
    NotesKeepCover(w, s, s', gone, {p});
    assert TokensOk(w, s', gone, None) by {
      AnnounceKeepsTokens(w, s, s', gone, p);
    }
  }

  lemma AnnounceKeepsTokens(w: World, s: Sys, s': Sys, gone: set<Path>, p: Path)
    requires TokensOk(w, s, gone, None) && s'.tokens == s.tokens && NotOnHold(s, p)
    requires forall q :: Announced(s', q) <==> Announced(s, q) || q == p
    requires forall q :: Pending(s', q) <==> Pending(s, q)
    ensures TokensOk(w, s', gone, None)
  {
    assert forall job :: ParentOk(w, s', job) <==> ParentOk(w, s, job);
    hide ParentOk, Visited, Removable, Announced, Pending;
    forall t | 0 <= t < |s'.tokens| ensures TokenOk(w, s', gone, None, t) {
      assert TokenOk(w, s, gone, None, t);
    }
  }

  lemma AnnounceKeepsJobs(w: World, s: Sys, s': Sys, gone: set<Path>, p: Path)
    requires QueueOk(w, s, gone) && FlightsOk(w, s, gone) && GoneOk(w, s, gone)
    requires !Pending(s, p) && s' == s.(log := s.log + [WillBeRemoved(p)])
    ensures QueueOk(w, s', gone) && FlightsOk(w, s', gone) && GoneOk(w, s', gone)
  {
    assert forall q :: Announced(s', q) <==> Announced(s, q) || q == p;
    assert forall q :: HasToken(s', q) <==> HasToken(s, q);
    assert forall job :: ParentOk(w, s', job) <==> ParentOk(w, s, job);
    PendingSlots(s);
    hide Pending, Announced, HasToken, ParentOk, Visited, Removable, OutcomeOk;
    forall id | id in s.flights ensures FlightOk(w, s', gone, s.flights[id]) {
      assert FlightOk(w, s, gone, s.flights[id]);
    }
    forall i | 0 <= i < |s.queue| ensures Ready(w, s', gone, s.queue[i]) {
      assert Ready(w, s, gone, s.queue[i]);
    }
  }

  lemma AnnounceKeepsRest(w: World, s: Sys, s': Sys, gone: set<Path>, p: Path)
    requires LogOk(w, s, gone, {}) && DiskOk(w, s, gone, {}) && !Announced(s, p)
    requires s' == s.(log := s.log + [WillBeRemoved(p)])
    ensures LogOk(w, s', gone, {p}) && DiskOk(w, s', gone, {p})
  {
    assert forall q :: Announced(s', q) <==> Announced(s, q) || q == p;
    assert forall q :: RemovalInFlight(s', q) <==> RemovalInFlight(s, q);
    assert forall q :: RemovalDone(s', q) <==> RemovalDone(s, q);
    hide RemovalInFlight, RemovalDone;
  }

  // ---------- reporting a removal ----------

  lemma LeftWithout(w: World, gone: set<Path>, p: Path, d: Path)
    ensures Left(w, gone + {p}, d) == Left(w, gone, d) - {p}
    ensures |Left(w, gone + {p}, d)| ==
              |Left(w, gone, d)| - (if p in w.fs0 && p !in gone && p != [] && Parent(p) == d then 1 else 0)
  {
    assert p in Left(w, gone, d) <==> p in w.fs0 && p !in gone && p != [] && Parent(p) == d;
  }

  lemma ReportTokens(w: World, s: Sys, gone: set<Path>, job: Job)
    requires WorldOk(w) && TokensOk(w, s, gone, None) && ParentOk(w, s, job)
    requires job.filename in w.fs0 && job.filename !in gone && NotOnHold(s, job.filename)
    ensures TokensOk(w, s, gone + {job.filename}, job.parent)
  {
    var p := job.filename;
    forall t | 0 <= t < |s.tokens| ensures TokenOk(w, s, gone + {p}, job.parent, t) {
      assert TokenOk(w, s, gone, None, t);
      var d := s.tokens[t].job.filename;
      LeftWithout(w, gone, p, d);
      if p != [] && Parent(p) == d && job.parent.None? {
        VisitedChildIsNoRoot(w, d, p);
      }
      hide Left, Pending, Visited, Announced;
    }
  }

  lemma ReportReady(w: World, s: Sys, gone: set<Path>, p: Path, job: Job)
    requires Ready(w, s, gone, job) && job.filename != p
    ensures Ready(w, s, gone + {p}, job)
  {
    hide ParentOk, Visited, HasToken;
  }

  lemma ReportFlight(w: World, s: Sys, gone: set<Path>, p: Path, f: Flight)
    requires FlightOk(w, s, gone, f) && (f.call == Tick || f.job.filename != p)
    ensures FlightOk(w, s, gone + {p}, f)
  {
    if f.call != Tick {
      ReportReady(w, s, gone, p, f.job);
    }
    hide Ready, OutcomeOk, Visited, Announced;
  }

  lemma PendingSlots(s: Sys)
    ensures forall i :: 0 <= i < |s.queue| ==> Pending(s, s.queue[i].filename)
    ensures forall id :: id in s.flights && s.flights[id].call != Tick ==> Pending(s, s.flights[id].job.filename)
  {
    forall i | 0 <= i < |s.queue| ensures Pending(s, s.queue[i].filename) {
      assert PendingAt(s, Waiting(i), s.queue[i].filename);
    }
    forall id | id in s.flights && s.flights[id].call != Tick ensures Pending(s, s.flights[id].job.filename) {
      assert PendingAt(s, Flying(id), s.flights[id].job.filename);
    }
  }

  lemma ReportJobs(w: World, s: Sys, gone: set<Path>, p: Path)
    requires QueueOk(w, s, gone) && FlightsOk(w, s, gone) && !Pending(s, p)
    ensures QueueOk(w, s, gone + {p}) && FlightsOk(w, s, gone + {p})
  {
    PendingSlots(s);
    hide Ready, FlightOk, Pending, Announced;
    forall id | id in s.flights ensures FlightOk(w, s, gone + {p}, s.flights[id]) {
      ReportFlight(w, s, gone, p, s.flights[id]);
    }
    forall i | 0 <= i < |s.queue| ensures Ready(w, s, gone + {p}, s.queue[i]) {
      ReportReady(w, s, gone, p, s.queue[i]);
    }
  }

  lemma ReportGone(w: World, s: Sys, gone: set<Path>, p: Path)
    requires GoneOk(w, s, gone) && Removable(w, p) && Left(w, gone, p) == {}
    requires p in w.roots || HasToken(s, Parent(p))
    ensures GoneOk(w, s, gone + {p})
  {
    assert forall d :: Left(w, gone + {p}, d) <= Left(w, gone, d);
    hide Left, Removable, HasToken;
  }

  lemma ReportLogDisk(w: World, s: Sys, gone: set<Path>, p: Path)
    requires LogOk(w, s, gone, {p}) && DiskOk(w, s, gone, {p}) && Covered(w, s, gone, {p})
    requires Announced(s, p) && p in w.fs0 && (p in s.fs <==> w.c.dry)
    ensures LogOk(w, s, gone + {p}, {}) && DiskOk(w, s, gone + {p}, {}) && Covered(w, s, gone + {p}, {})
  {
    hide Announced, RemovalInFlight, RemovalDone, Visited, Pending, OnHold, HasToken;
  }

  /** The removal of the path under way counts from now on; its directory's counter is in debt. */
  lemma ReportKeeps(w: World, s: Sys, gone: set<Path>, job: Job)
    requires WorldOk(w) && Core(w, s, gone, None, {job.filename}, {job.filename})
    requires ParentOk(w, s, job) && Removable(w, job.filename) && Left(w, gone, job.filename) == {}
    requires job.filename !in gone && !Pending(s, job.filename) && NotOnHold(s, job.filename)
    requires Announced(s, job.filename) && (job.filename in s.fs <==> w.c.dry)
    ensures Core(w, s, gone + {job.filename}, job.parent, {}, {})
  {
    var p := job.filename;
    assert p in w.fs0 && (p in w.roots || HasToken(s, Parent(p))) by {
      hide QueueOk, FlightsOk, Unique, GoneOk, TokensOk, Covered, LogOk, DiskOk, WorldOk;
    }
    hide QueueOk, FlightsOk, Unique, GoneOk, TokensOk, Covered, LogOk, DiskOk, WorldOk, Pending, HasToken, ParentOk,
         Removable, NotOnHold, Left, Announced;
    ReportTokens(w, s, gone, job);
    ReportJobs(w, s, gone, p);
    ReportGone(w, s, gone, p);
    ReportLogDisk(w, s, gone, p);
  }
}
