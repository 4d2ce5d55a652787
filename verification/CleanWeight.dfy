/** A natural number that every event lowers, so no schedule goes on for ever. */
module CleanWeight {
  import opened Common
  import opened FileTree
  import opened CleanJobs
  import opened CleanInvariant
  import opened CleanPrimitives
  import opened CleanSteps
  import opened CleanEvents

  function JobWeight(job: Job): nat {
    if job.kind == Check then 9 else 4
  }

  function FlightWeight(f: Flight): nat {
    match f.call
    case LStat => if f.outcome == None then 8 else 7
    case ReadDir => if f.outcome == None then 6 else 5
    case UnlinkCall => if f.outcome == None then 3 else 2
    case RmDirCall => if f.outcome == None then 3 else 2
    case Tick => 1
  }

  function TokenWeight(t: Token): nat {
    if t.remaining > 0 then 5 else 0
  }

  function QueueWeight(q: seq<Job>): nat {
    if q == [] then 0 else QueueWeight(q[..|q| - 1]) + JobWeight(q[|q| - 1])
  }

  function TokensWeight(ts: seq<Token>): nat {
    if ts == [] then 0 else TokensWeight(ts[..|ts| - 1]) + TokenWeight(ts[|ts| - 1])
  }

  function FlightsWeight(fs: map<nat, Flight>, n: nat): nat {
    if n == 0 then 0 else FlightsWeight(fs, n - 1) + (if n - 1 in fs then FlightWeight(fs[n - 1]) else 0)
  }

  /** Paths of the starting disk that no job has been created for yet. */
  ghost function Unknown(w: World, s: Sys): set<Path> {
    set p | p in w.fs0 && p !in w.roots && !HasToken(s, Parent(p))
  }

  ghost function Work(w: World, s: Sys): nat {
    20 * |Unknown(w, s)| + QueueWeight(s.queue) + FlightsWeight(s.flights, s.nextId) + TokensWeight(s.tokens)
  }

  ghost function Weight(w: World, s: Sys): nat {
    2 * Work(w, s) + (if s.scheduled then 1 else 0)
  }

  // ---------- sums ----------

  lemma QueuePush(q: seq<Job>, job: Job)
    ensures QueueWeight(q + [job]) == QueueWeight(q) + JobWeight(job)
  {
    assert (q + [job])[..|q|] == q;
  }

  lemma {:induction false} QueueAppend(a: seq<Job>, b: seq<Job>)
    ensures QueueWeight(a + b) == QueueWeight(a) + QueueWeight(b)
    decreases |b|
  {
    if b == [] {
      assert a + b == a;
    } else {
      var n := |b| - 1;
      assert (a + b)[..|a + b| - 1] == a + b[..n];
      QueueAppend(a, b[..n]);
    }
  }

  lemma {:induction false} ChecksWeight(d: Path, t: nat, names: seq<Name>)
    ensures QueueWeight(ChecksFor(d, t, names)) <= 9 * |names|
    decreases |names|
  {
    if names != [] {
      var first := if DotEntry(d + [names[0]]) then [] else [Job(Check, d + [names[0]], Some(t))];
      ChecksWeight(d, t, names[1..]);
      QueueAppend(first, ChecksFor(d, t, names[1..]));
      assert QueueWeight(first) <= 9 by {
        QueuePush([], Job(Check, d + [names[0]], Some(t)));
      }
    }
  }

  lemma {:induction false} TokensUpdate(ts: seq<Token>, t: nat, token: Token)
    requires t < |ts|
    ensures TokensWeight(ts[t := token]) == TokensWeight(ts) - TokenWeight(ts[t]) + TokenWeight(token)
    decreases |ts|
  {
    var n := |ts| - 1;
    if t == n {
      assert ts[t := token][..n] == ts[..n];
    } else {
      TokensUpdate(ts[..n], t, token);
      assert ts[t := token][..n] == ts[..n][t := token];
    }
  }

  lemma {:induction false} FlightsChange(a: map<nat, Flight>, b: map<nat, Flight>, id: nat, n: nat)
    requires forall k: nat :: k != id ==> (k in a <==> k in b)
    requires forall k: nat :: k != id && k in a ==> a[k] == b[k]
    ensures FlightsWeight(b, n) + (if id < n && id in a then FlightWeight(a[id]) else 0) ==
            FlightsWeight(a, n) + (if id < n && id in b then FlightWeight(b[id]) else 0)
    decreases n
  {
    if n > 0 {
      FlightsChange(a, b, id, n - 1);
    }
  }

  // ---------- the parts of an event ----------

  lemma SameUnknown(w: World, s: Sys, s': Sys)
    requires SameTokenJobs(s, s')
    ensures Unknown(w, s') == Unknown(w, s)
  {
    SameTokens(s, s');
  }

  lemma SettledTokensWeight(s: Sys, t: nat)
    requires t < |s.tokens| && s.tokens[t].job.kind == RmDir
    ensures var s' := HandleParent(s, Some(t));
            QueueWeight(s'.queue) + TokensWeight(s'.tokens) <= QueueWeight(s.queue) + TokensWeight(s.tokens)
  {
    var s' := HandleParent(s, Some(t));
    var token := s.tokens[t].(remaining := s.tokens[t].remaining - 1);
    assert s'.tokens == s.tokens[t := token];
    TokensUpdate(s.tokens, t, token);
    QueuePush(s.queue, s.tokens[t].job);
    hide QueueWeight, TokensWeight;
  }

  lemma HandleParentWork(w: World, s: Sys, parent: Option<nat>)
    requires forall t :: 0 <= t < |s.tokens| ==> s.tokens[t].job.kind == RmDir
    ensures Work(w, HandleParent(s, parent)) <= Work(w, s)
  {
    if parent.Some? && parent.value < |s.tokens| {
      var t := parent.value;
      var s' := HandleParent(s, parent);
      assert SameTokenJobs(s, s') && s'.flights == s.flights && s'.nextId == s.nextId;
      SettledTokensWeight(s, t);
      SameUnknown(w, s, s');
      hide Unknown, QueueWeight, TokensWeight, FlightsWeight, HandleParent;
    }
  }

  ghost predicate TokensAreRmDir(s: Sys) {
    forall t :: 0 <= t < |s.tokens| ==> s.tokens[t].job.kind == RmDir
  }

  lemma TokenKinds(w: World, s: Sys, gone: set<Path>, debt: Option<nat>)
    requires TokensOk(w, s, gone, debt)
    ensures TokensAreRmDir(s)
  {
    forall t | 0 <= t < |s.tokens| ensures s.tokens[t].job.kind == RmDir {
      assert TokenOk(w, s, gone, debt, t);
    }
  }

  lemma NewFlight(w: World, s: Sys, s': Sys, f: Flight)
    requires s.nextId !in s.flights
    requires s'.flights == s.flights[s.nextId := f] && s'.nextId == s.nextId + 1
    requires s'.tokens == s.tokens && s'.queue == s.queue
    ensures Work(w, s') == Work(w, s) + FlightWeight(f)
  {
    FlightsChange(s.flights, s'.flights, s.nextId, s.nextId);
    SameUnknown(w, s, s');
  }

  lemma ChangedFlight(w: World, s: Sys, s': Sys, id: nat)
    requires id in s.flights && id < s.nextId && s'.nextId == s.nextId
    requires forall k: nat :: k != id ==> (k in s'.flights <==> k in s.flights)
    requires forall k: nat :: k != id && k in s.flights ==> s'.flights[k] == s.flights[k]
    requires s'.tokens == s.tokens && s'.queue == s.queue
    ensures Work(w, s') + FlightWeight(s.flights[id]) ==
              Work(w, s) + (if id in s'.flights then FlightWeight(s'.flights[id]) else 0)
  {
    FlightsChange(s.flights, s'.flights, id, s.nextId);
    SameUnknown(w, s, s');
  }

  lemma PopWork(w: World, s: Sys, s1: Sys)
    requires s.queue != [] && s1.queue == s.queue[..|s.queue| - 1]
    requires s1.tokens == s.tokens && s1.flights == s.flights && s1.nextId == s.nextId
    ensures Work(w, s1) + JobWeight(s.queue[|s.queue| - 1]) == Work(w, s)
  {
    SameUnknown(w, s, s1);
  }

  lemma LaunchWork(w: World, s: Sys, note: Note, f: Flight, p: int)
    requires s.nextId !in s.flights
    ensures Work(w, Launch(Log(s, note), f).(processing := p)) == Work(w, s) + FlightWeight(f)
    ensures Work(w, Launch(s, f).(processing := p)) == Work(w, s) + FlightWeight(f)
  {
    NewFlight(w, s, Launch(Log(s, note), f).(processing := p), f);
    NewFlight(w, s, Launch(s, f).(processing := p), f);
  }

  lemma DryWork(w: World, s: Sys, note: Note, parent: Option<nat>, f: Flight, p: int)
    requires s.nextId !in s.flights && TokensAreRmDir(s)
    ensures Work(w, Launch(HandleParent(Log(s, note), parent), f).(processing := p)) <= Work(w, s) + FlightWeight(f)
  {
    var s2 := Log(s, note);
    assert Work(w, s2) == Work(w, s) by {
      SameUnknown(w, s, s2);
    }
    HandleParentWork(w, s2, parent);
    HandleParentFrame(s2, parent);
    hide Work, HandleParent;
    LaunchWork(w, HandleParent(s2, parent), note, f, p);
  }

  lemma BeginJobWork(w: World, s: Sys, s1: Sys, job: Job)
    requires s.queue != [] && job == s.queue[|s.queue| - 1] && s1 == s.(queue := s.queue[..|s.queue| - 1])
    requires s1.nextId !in s1.flights && TokensAreRmDir(s1) && s.scheduled
    ensures Work(w, PopAndBegin(w.c, s)) < Work(w, s1) + JobWeight(job)
  {
    hide HandleParent, PopAndBegin, Launch, Log, Work, TokensAreRmDir;
    if job.kind == Check {
      PopCheckShape(w.c, s, s1, job);
      LaunchWork(w, s1, WillBeKept(job.filename), Flight(job, if w.c.keep(job.filename) then Tick else LStat, None),
                 s1.processing + 1);
    } else if w.c.dry {
      PopDryShape(w.c, s, s1, job);
      DryWork(w, s1, WillBeRemoved(job.filename), job.parent, Flight(job, Tick, None), s1.processing + 1);
    } else {
      PopRemovalShape(w.c, s, s1, job);
      LaunchWork(w, s1, WillBeRemoved(job.filename),
                 Flight(job, if job.kind == Unlink then UnlinkCall else RmDirCall, None), s1.processing + 1);
    }
  }

  lemma BeginWork(w: World, s: Sys, gone: set<Path>)
    requires Core(w, s, gone, None, {}, {}) && s.queue != [] && s.processing < CONCURRENCY && s.scheduled
    ensures Work(w, PopAndBegin(w.c, s)) < Work(w, s)
  {
    var job := s.queue[|s.queue| - 1];
    var s1 := s.(queue := s.queue[..|s.queue| - 1]);
    TokenKinds(w, s, gone, None);
    hide Core, PopAndBegin, Work, Ready;
    QueueFacts(w, s, gone);
    PopWork(w, s, s1);
    BeginJobWork(w, s, s1, job);
  }

  lemma {:induction false} DrainLoopWork(w: World, s: Sys, gone: set<Path>)
    requires WorldOk(w) && Core(w, s, gone, None, {}, {}) && s.scheduled
    ensures Work(w, DrainLoop(w.c, s)) <= Work(w, s)
    decreases CONCURRENCY - s.processing
  {
    hide Core, WorldOk, Work;
    if s.processing < CONCURRENCY && s.queue != [] {
      BeginWork(w, s, gone);
      var gone1 := BeginKeeps(w, s, gone);
      PopFrame(w.c, s);
      hide PopAndBegin;
      DrainLoopWork(w, PopAndBegin(w.c, s), gone1);
    }
  }

  lemma WorkOnly(w: World, s: Sys, s': Sys)
    requires s'.tokens == s.tokens && s'.queue == s.queue && s'.flights == s.flights && s'.nextId == s.nextId
    ensures Work(w, s') == Work(w, s)
  {
    SameUnknown(w, s, s');
  }

  lemma DrainWeight(w: World, s: Sys, gone: set<Path>)
    requires WorldOk(w) && Inv(w, s, gone) && Enabled(s, DrainTick)
    ensures Weight(w, Drain(w.c, s)) < Weight(w, s)
  {
    hide Core, WorldOk, Work, DrainLoop;
    DrainLoopWork(w, s, gone);
    WorkOnly(w, DrainLoop(w.c, s), Drain(w.c, s));
  }

  lemma PerformWeight(w: World, s: Sys, gone: set<Path>, id: nat, listing: seq<Name>)
    requires Inv(w, s, gone) && Enabled(s, PerformCall(id, listing))
    ensures Weight(w, Perform(s, id, listing)) < Weight(w, s)
  {
    var s' := Perform(s, id, listing);
    FlightFacts(w, s, gone, id);
    hide Core, Work, FlightOk;
    ChangedFlight(w, s, s', id);
  }

  // ---------- deliveries ----------

  lemma PushWork(w: World, s: Sys, s': Sys, job: Job)
    requires s'.queue == s.queue + [job]
    requires s'.tokens == s.tokens && s'.flights == s.flights && s'.nextId == s.nextId
    ensures Work(w, s') == Work(w, s) + JobWeight(job)
  {
    QueuePush(s.queue, job);
    SameUnknown(w, s, s');
  }

  /** Listing a directory turns its children from unknown into known. */
  lemma ExpandUnknown(w: World, s: Sys, s': Sys, d: Path, token: Token)
    requires s'.tokens == s.tokens + [token] && token.job.filename == d
    requires forall q :: q in w.fs0 && q != [] && Parent(q) == d ==> q !in w.roots && !HasToken(s, d)
    ensures |Unknown(w, s')| + |Children(w.fs0, d)| <= |Unknown(w, s)|
  {
    NewToken(s, s', token);
    hide HasToken;
    var kids := Children(w.fs0, d);
    assert kids <= Unknown(w, s);
    assert Unknown(w, s') <= Unknown(w, s) - kids;
    SubsetSize(Unknown(w, s'), Unknown(w, s) - kids);
  }

  lemma ListedWork(w: World, s: Sys, s': Sys, d: Path, token: Token, names: seq<Name>)
    requires Lists(w.fs0, d, names) && names != [] && token.job.filename == d
    requires forall q :: q in w.fs0 && q != [] && Parent(q) == d ==> q !in w.roots && !HasToken(s, d)
    requires s'.tokens == s.tokens + [token] && s'.queue == s.queue + ChecksFor(d, |s.tokens|, names)
    requires s'.flights == s.flights && s'.nextId == s.nextId
    ensures Work(w, s') <= Work(w, s)
  {
    ExpandUnknown(w, s, s', d, token);
    ListingSize(d, names, Children(w.fs0, d));
    ChecksWeight(d, |s.tokens|, names);
    QueueAppend(s.queue, ChecksFor(d, |s.tokens|, names));
    assert s'.tokens[..|s.tokens|] == s.tokens;
    hide Unknown, Children, ChecksFor, Lists, HasToken;
  }

  lemma ExpandWork(w: World, s: Sys, s': Sys, gone: set<Path>, f: Flight, names: seq<Name>)
    requires WorldOk(w) && Stated(w, s, gone, f)
    requires Removable(w, f.job.filename) && Lists(w.fs0, f.job.filename, names)
    requires s' == Expand(s, f.job, names).(scheduled := s'.scheduled)
    ensures Work(w, s') <= Work(w, s) + 4
  {
    var d := f.job.filename;
    assert Visited(w, d) && !HasToken(s, d) by {
      hide Core, WorldOk, Lists;
    }
    hide Core, WorldOk, Visited, HasToken, Announced, Pending, NotOnHold, Ready, Work, Lists;
    if names == [] {
      PushWork(w, s, s', f.job.(kind := RmDir));
    } else {
      forall q | q in w.fs0 && q != [] && Parent(q) == d ensures q !in w.roots {
        VisitedChildIsNoRoot(w, d, q);
      }
      ListedWork(w, s, s', d, Token(|names|, f.job.(kind := RmDir)), names);
    }
  }

  lemma TakenWork(w: World, s: Sys, gone: set<Path>, id: nat)
    requires Core(w, s, gone, None, {}, {}) && id in s.flights
    ensures Work(w, Callback(s.(flights := s.flights - {id}))) + FlightWeight(s.flights[id]) == Work(w, s)
  {
    assert id < s.nextId;
    hide Core, Work;
    ChangedFlight(w, s, Callback(s.(flights := s.flights - {id})), id);
  }

  lemma DeliverWork(w: World, s: Sys, gone: set<Path>, id: nat)
    requires WorldOk(w) && Core(w, s, gone, None, {}, {}) && Enabled(s, DeliverCall(id))
    ensures Work(w, Deliver(s, id)) < Work(w, s)
  {
    var f := s.flights[id];
    var s1 := Callback(s.(flights := s.flights - {id}));
    TakenWork(w, s, gone, id);
    assert TokensAreRmDir(s1) by {
      TokenKinds(w, s, gone, None);
    }
    hide Core, WorldOk, Work, Callback;
    if f.call == Tick {
      TickShape(s, id);
    } else if IsRemoval(f) {
      hide Deliver, HandleParent;
      DoneFacts(w, s, s1, gone, id);
      DoneShape(s, id);
      HandleParentWork(w, s1, f.job.parent);
    } else {
      hide Deliver;
      CheckDelivered(w, s, gone, id);
    }
  }

  lemma TickShape(s: Sys, id: nat)
    requires id in s.flights && s.flights[id].call == Tick
    ensures Deliver(s, id) == Callback(s.(flights := s.flights - {id}))
  {
  }

  lemma CheckDelivered(w: World, s: Sys, gone: set<Path>, id: nat)
    requires WorldOk(w) && Core(w, s, gone, None, {}, {}) && Enabled(s, DeliverCall(id))
    requires s.flights[id].call == LStat || s.flights[id].call == ReadDir
    ensures Work(w, Deliver(s, id)) < Work(w, Callback(s.(flights := s.flights - {id}))) + FlightWeight(s.flights[id])
  {
    var s1 := Callback(s.(flights := s.flights - {id}));
    hide Core, WorldOk, Work, Callback;
    TakeCheck(w, s, s1, gone, id);
    DeliverShape(s, id);
    assert s.flights[id].outcome.value.Entries? ==> Removable(w, s.flights[id].job.filename) by {
      ListedIsRemovable(w, s, gone, id);
    }
    hide Deliver, Stated, OutcomeOk, Removable;
    DeliverCheckWork(w, s1, Deliver(s, id), gone, id, s.flights[id]);
  }

  lemma ListedIsRemovable(w: World, s: Sys, gone: set<Path>, id: nat)
    requires Core(w, s, gone, None, {}, {}) && id in s.flights
    requires s.flights[id].call == LStat || s.flights[id].call == ReadDir
    requires s.flights[id].outcome.Some?
    ensures s.flights[id].outcome.value.Entries? ==> Removable(w, s.flights[id].job.filename)
  {
    hide Core;
    FlightFacts(w, s, gone, id);
  }

  lemma DeliverCheckWork(w: World, s1: Sys, s': Sys, gone: set<Path>, id: nat, f: Flight)
    requires WorldOk(w) && Stated(w, s1, gone, f) && OutcomeOk(w, f) && id !in s1.flights && id < s1.nextId
    requires (f.call == LStat || f.call == ReadDir) && f.outcome.Some?
    requires match f.outcome.value
             case Error(code) =>
               && (code == ENOENT && f.job.parent == None ==> s' == Log(s1, Vanished(f.job.filename)))
               && (code != ENOENT ==> s' == s1.(scheduled := s'.scheduled, status := s'.status))
             case Stats(isDirectory) =>
               if isDirectory then
                 s' == s1.(flights := s1.flights[id := Flight(f.job, ReadDir, None)], processing := s1.processing + 1,
                           scheduled := s'.scheduled)
               else
                 s' == s1.(queue := s1.queue + [f.job.(kind := Unlink)], scheduled := s'.scheduled)
             case Entries(names) => s' == Expand(s1, f.job, names).(scheduled := s'.scheduled)
             case Done => true
    requires f.outcome.value.Entries? ==> Removable(w, f.job.filename)
    ensures Work(w, s') < Work(w, s1) + FlightWeight(f)
  {
    hide Core, WorldOk, Work, Stated, Removable, Lists, Expand;
    match f.outcome.value
    case Error(code) =>
      StatMissing(w, s1, gone, f);
      WorkOnly(w, s1, s');
    case Stats(isDirectory) =>
      if isDirectory {
        ChangedFlight(w, s', s1, id);
      } else {
        PushWork(w, s1, s', f.job.(kind := Unlink));
      }
    case Entries(names) =>
      ExpandWork(w, s1, s', gone, f, names);
  }

  lemma DeliverWeight(w: World, s: Sys, gone: set<Path>, id: nat)
    requires WorldOk(w) && Inv(w, s, gone) && Enabled(s, DeliverCall(id))
    ensures Weight(w, Deliver(s, id)) < Weight(w, s)
  {
    hide Core, WorldOk, Work, Deliver;
    DeliverWork(w, s, gone, id);
  }
}
