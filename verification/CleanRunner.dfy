/** The job runner in its own imperative form: queue, counters and flags updated in place,
    each method proved against the functions of CleanJobs. */
module CleanRunner {
  import opened Common
  import opened FileTree
  import opened CleanJobs
  import opened CleanInvariant
  import opened CleanEvents
  import opened CleanWeight
  import opened CleanRuns

  class JobRunner {
    const keep: Path -> bool
    const dry: bool
    var fs: Disk
    var queue: seq<Job>
    var processing: int
    var flights: map<nat, Flight>
    var nextId: nat
    var tokens: seq<Token>
    var scheduled: bool
    var status: Status
    var log: seq<Note>

    ghost function Snapshot(): Sys
      reads this
    {
      Sys(fs, queue, processing, flights, nextId, tokens, scheduled, status, log)
    }

    ghost function Options(): Config {
      Config(keep, dry)
    }

    constructor (keep: Path -> bool, dry: bool, fs: Disk)
      ensures this.keep == keep && this.dry == dry && this.fs == fs
    {
      this.keep, this.dry, this.fs := keep, dry, fs;
      queue, processing, flights, nextId, tokens := [], 0, map[], 0, [];
      scheduled, status, log := false, Succeeded, [];
    }

    method PushJob(job: Job)
      modifies this
      ensures Snapshot() == Push(old(Snapshot()), job)
    {
      queue := queue + [job];
      if !scheduled && processing < CONCURRENCY {
        scheduled := true;
      }
    }

    method SettleParent(parent: Option<nat>)
      modifies this
      ensures Snapshot() == HandleParent(old(Snapshot()), parent)
    {
      if parent.Some? && parent.value < |tokens| {
        var token := tokens[parent.value];
        token := token.(remaining := token.remaining - 1);
        tokens := tokens[parent.value := token];
        if token.remaining == 0 {
          PushJob(token.job);
        }
      }
    }

    method ProcessorCallback()
      modifies this
      ensures Snapshot() == Callback(old(Snapshot()))
    {
      processing := processing - 1;
      if !scheduled {
        scheduled := true;
      }
    }

    method ProcessorCallbackError(code: Code)
      modifies this
      ensures Snapshot() == CallbackError(old(Snapshot()), code)
    {
      processing := processing - 1;
      if status == Working {
        status := Failed(code);
        return;
      }
      if !scheduled {
        scheduled := true;
      }
    }

    method LaunchFlight(flight: Flight)
      modifies this
      ensures Snapshot() == Launch(old(Snapshot()), flight)
    {
      flights := flights[nextId := flight];
      nextId := nextId + 1;
    }

    method BeginJob(job: Job)
      modifies this
      ensures Snapshot() == Begin(Options(), old(Snapshot()), job)
    {
      match job.kind {
        case Check =>
          if keep(job.filename) {
            log := log + [WillBeKept(job.filename)];
            LaunchFlight(Flight(job, Tick, None));
          } else {
            LaunchFlight(Flight(job, LStat, None));
          }
        case _ =>
          log := log + [WillBeRemoved(job.filename)];
          if dry {
            SettleParent(job.parent);
            LaunchFlight(Flight(job, Tick, None));
          } else {
            LaunchFlight(Flight(job, if job.kind == Unlink then UnlinkCall else RmDirCall, None));
          }
      }
    }

    method PopJob()
      requires queue != []
      modifies this
      ensures Snapshot() == PopAndBegin(Options(), old(Snapshot()))
    {
      processing := processing + 1;
      var job := queue[|queue| - 1];
      queue := queue[..|queue| - 1];
      hide Begin;
      BeginJob(job);
    }

    method ProcessQueue()
      modifies this
      ensures Snapshot() == Drain(Options(), old(Snapshot()))
    {
      ghost var start := Snapshot();
      while processing < CONCURRENCY && queue != []
        invariant DrainLoop(Options(), Snapshot()) == DrainLoop(Options(), start)
        decreases CONCURRENCY - processing
      {
        PopFrame(Options(), Snapshot());
        hide PopAndBegin;
        PopJob();
      }
      hide PopAndBegin;
      assert Snapshot() == DrainLoop(Options(), start);
      hide DrainLoop;
      scheduled := false;
      if queue == [] && processing == 0 && status == Working {
        status := Succeeded;
      }
    }

    /** The call of flight id takes effect on the disk. */
    method PerformOne(id: nat, listing: seq<Name>)
      requires id in flights
      modifies this
      ensures Snapshot() == Perform(old(Snapshot()), id, listing)
    {
      var f := flights[id];
      var answer := Answer(fs, f.call, f.job.filename, listing);
      if answer.Done? && f.call != Tick {
        fs := fs - {f.job.filename};
      }
      flights := flights[id := f.(outcome := Some(answer))];
    }

    method HandleErrorOf(job: Job, code: Code)
      modifies this
      ensures Snapshot() == HandleError(old(Snapshot()), job, code)
    {
      if code == ENOENT {
        log := log + [Vanished(job.filename)];
        SettleParent(job.parent);
        ProcessorCallback();
      } else {
        ProcessorCallbackError(code);
      }
    }

    method PushEntries(job: Job, names: seq<Name>)
      modifies this
      ensures Snapshot() == Expand(old(Snapshot()), job, names)
    {
      var deleteJob := job.(kind := RmDir);
      if names == [] {
        PushJob(deleteJob);
      } else {
        var token := |tokens|;
        tokens := tokens + [Token(|names|, deleteJob)];
        ghost var s := Snapshot();
        for i := 0 to |names|
          invariant Snapshot() == Pushed(s, job.filename, token, names[..i])
        {
          Extend(s, job.filename, token, names, i);
          var entry := job.filename + [names[i]];
          if DotEntry(entry) {
            log := log + [DotFilesKept(job.filename)];
          } else {
            PushJob(Job(Check, entry, Some(token)));
          }
        }
        assert names[..|names|] == names;
      }
    }

    /** The call of flight id reports back. */
    method DeliverOne(id: nat)
      requires id in flights && (flights[id].outcome.Some? || flights[id].call == Tick)
      modifies this
      ensures Snapshot() == Deliver(old(Snapshot()), id)
    {
      var f := flights[id];
      if f.call != Tick && f.outcome.value.Stats? && f.outcome.value.isDirectory {
        flights := flights[id := Flight(f.job, ReadDir, None)];
        return;
      }
      flights := flights - {id};
      if f.call == Tick {
        ProcessorCallback();
      } else {
        match f.outcome.value {
          case Error(code) =>
            HandleErrorOf(f.job, code);
          case Stats(isDirectory) =>
            PushJob(f.job.(kind := Unlink));
            ProcessorCallback();
          case Entries(names) =>
            PushEntries(f.job, names);
            ProcessorCallback();
          case Done =>
            SettleParent(f.job.parent);
            ProcessorCallback();
        }
      }
    }

    /** One flight makes progress, whichever it is. */
    method AdvanceFlight(ghost w: World, ghost gone: set<Path>) returns (ghost gone': set<Path>)
      requires WorldOk(w) && Inv(w, Snapshot(), gone) && flights != map[]
      modifies this
      ensures Inv(w, Snapshot(), gone') && Weight(w, Snapshot()) < old(Weight(w, Snapshot()))
    {
      ghost var s := Snapshot();
      hide Inv, WorldOk, Weight, Perform, Deliver;
      assert flights.Keys != {};
      var id :| id in flights;
      if flights[id].outcome.Some? || flights[id].call == Tick {
        assert Enabled(s, DeliverCall(id));
        DeliverOne(id);
        DeliverWeight(w, s, gone, id);
        gone' := DeliverKeeps(w, s, gone, id);
      } else {
        var listing := ListDirectory(fs, flights[id].job.filename);
        assert Enabled(s, PerformCall(id, listing));
        PerformOne(id, listing);
        PerformWeight(w, s, gone, id, listing);
        PerformKeeps(w, s, gone, id, listing);
        gone' := gone;
      }
    }

    method DrainTask(ghost w: World, ghost gone: set<Path>) returns (ghost gone': set<Path>)
      requires WorldOk(w) && Inv(w, Snapshot(), gone) && scheduled && status == Working && w.c == Options()
      modifies this
      ensures Inv(w, Snapshot(), gone') && Weight(w, Snapshot()) < old(Weight(w, Snapshot()))
    {
      ghost var s := Snapshot();
      assert Enabled(s, DrainTick);
      hide Inv, WorldOk, Weight, Drain;
      ProcessQueue();
      DrainWeight(w, s, gone);
      gone' := DrainKeeps(w, s, gone);
    }

    method Start(diff: seq<Path>)
      modifies this
      ensures Snapshot() == Initial(old(fs), diff)
    {
      queue := seq(|diff|, i requires 0 <= i < |diff| => Job(Check, diff[i], None));
      processing, flights, nextId, tokens, log := 0, map[], 0, [], [];
      scheduled := diff != [];
      status := if diff == [] then Succeeded else Working;
    }

    /** Runs until the callback is called; which event comes next is left open. */
    method ApplyDiff(diff: seq<Path>, ghost w: World)
      requires WorldOk(w) && DiffOf(w, diff) && w.c == Options() && w.fs0 == fs
      modifies this
      ensures Cleaned(w, Snapshot()) || (status.Failed? && !Safe(w) && PartlyCleaned(w, Snapshot()))
    {
      hide Inv, WorldOk, DiffOf, Initial, Weight, Cleaned, Safe, PartlyCleaned;
      Start(diff);
      ghost var gone := {};
      InitialKeeps(w, diff);
      while status == Working
        invariant Inv(w, Snapshot(), gone)
        decreases Weight(w, Snapshot())
      {
        SomeFlight(w, Snapshot(), gone);
        var drain: bool := *;
        if scheduled && (drain || flights == map[]) {
          gone := DrainTask(w, gone);
        } else {
          gone := AdvanceFlight(w, gone);
        }
      }
      if status == Succeeded {
        IdleMeansCleaned(w, Snapshot(), gone);
      } else {
        FailedMeansHazard(w, Snapshot(), gone);
        InvIsPartlyCleaned(w, Snapshot(), gone);
      }
    }
  }

  lemma SomeFlight(w: World, s: Sys, gone: set<Path>)
    requires Inv(w, s, gone) && s.status == Working
    ensures s.scheduled || s.flights != map[]
  {
    hide Core;
  }

  /** Reads a directory in some order. */
  method ListDirectory(fs: Disk, d: Path) returns (names: seq<Name>)
    ensures Lists(fs, d, names)
  {
    names := [];
    var todo := Children(fs, d);
    while todo != {}
      invariant forall k :: k in todo ==> k in fs && k != [] && Parent(k) == d
      invariant forall n :: d + [n] in fs <==> n in names || d + [n] in todo
      invariant forall n :: n in names ==> d + [n] !in todo
      invariant NoDup(names)
      decreases todo
    {
      var k :| k in todo;
      ChildNamed(k);
      var n := k[|k| - 1];
      forall m | d + [m] == k ensures m == n {
        assert (d + [m])[|d|] == m;
      }
      names := names + [n];
      todo := todo - {k};
    }
  }

  /** The state after the entries names of d have been gone through. */
  ghost function Pushed(s: Sys, d: Path, token: nat, names: seq<Name>): Sys {
    var checks := ChecksFor(d, token, names);
    s.(queue := s.queue + checks,
       scheduled := s.scheduled || (checks != [] && s.processing < CONCURRENCY),
       log := s.log + NotesFor(d, names))
  }

  lemma {:induction false} ChecksSnoc(d: Path, token: nat, names: seq<Name>, n: Name)
    ensures ChecksFor(d, token, names + [n]) ==
              ChecksFor(d, token, names) + (if DotEntry(d + [n]) then [] else [Job(Check, d + [n], Some(token))])
    ensures NotesFor(d, names + [n]) == NotesFor(d, names) + (if DotEntry(d + [n]) then [DotFilesKept(d)] else [])
    decreases |names|
  {
    if names != [] {
      ChecksSnoc(d, token, names[1..], n);
      assert (names + [n])[1..] == names[1..] + [n];
    } else {
      assert names + [n] == [n];
    }
  }

  lemma Extend(s: Sys, d: Path, token: nat, names: seq<Name>, i: nat)
    requires i < |names|
    ensures Pushed(s, d, token, names[..i + 1]) ==
              (if DotEntry(d + [names[i]]) then Log(Pushed(s, d, token, names[..i]), DotFilesKept(d))
               else Push(Pushed(s, d, token, names[..i]), Job(Check, d + [names[i]], Some(token))))
  {
    ChecksSnoc(d, token, names[..i], names[i]);
    assert names[..i + 1] == names[..i] + [names[i]];
  }
}
