/** What every reachable state of the job system keeps. The ghost set `gone` holds the paths
    whose removal has been reported to their directory's counter. */
module CleanInvariant {
  import opened Common
  import opened FileTree
  import opened CleanJobs

  /** A cleaning task: options, the disk it starts from, and the diff roots. */
  datatype World = World(c: Config, fs0: Disk, roots: set<Path>)

  /** No diff root on disk lies below another diff root. */
  ghost predicate Antichain(fs: Disk, roots: set<Path>) {
    forall a, b :: a in roots && b in roots && b in fs && a <= b ==> a == b
  }

  ghost predicate WorldOk(w: World) {
    WellFormed(w.fs0) && Antichain(w.fs0, w.roots)
  }

  /** Looking the root r up answers ENOTDIR as long as the file above it is there. */
  ghost predicate Hazard(w: World, r: Path) {
    r in w.roots && r !in w.fs0 && !w.c.keep(r) && BehindFile(w.fs0, r)
  }

  ghost predicate Safe(w: World) {
    forall r :: !Hazard(w, r)
  }

  /** The paths a check job is created for. */
  ghost predicate Visited(w: World, x: Path)
    decreases |x|
  {
    && x in w.fs0
    && (x in w.roots || (x != [] && Visited(w, Parent(x)) && !w.c.keep(Parent(x)) && !DotEntry(x)))
  }

  function Left(w: World, gone: set<Path>, d: Path): set<Path> {
    Children(w.fs0, d) - gone
  }

  predicate IsRemoval(f: Flight) {
    f.call == UnlinkCall || f.call == RmDirCall
  }

  ghost predicate HasToken(s: Sys, d: Path) {
    exists t :: 0 <= t < |s.tokens| && s.tokens[t].job.filename == d
  }

  ghost predicate Announced(s: Sys, p: Path) {
    WillBeRemoved(p) in s.log
  }

  // ---------- pending jobs: queued, or in flight with work left ----------

  datatype Slot = Waiting(i: nat) | Flying(id: nat)

  ghost predicate Holds(s: Sys, a: Slot) {
    match a
    case Waiting(i) => i < |s.queue|
    case Flying(id) => id in s.flights && s.flights[id].call != Tick
  }

  ghost function At(s: Sys, a: Slot): Job
    requires Holds(s, a)
  {
    match a
    case Waiting(i) => s.queue[i]
    case Flying(id) => s.flights[id].job
  }

  ghost predicate PendingAt(s: Sys, a: Slot, p: Path) {
    Holds(s, a) && At(s, a).filename == p
  }

  ghost predicate Pending(s: Sys, p: Path) {
    exists a :: PendingAt(s, a, p)
  }

  ghost predicate Unique(s: Sys) {
    forall a, b, p :: PendingAt(s, a, p) && PendingAt(s, b, p) ==> a == b
  }

  // ---------- the clauses ----------

  ghost predicate ParentOk(w: World, s: Sys, job: Job) {
    match job.parent
    case None => job.filename in w.roots
    case Some(t) =>
      t < |s.tokens| && job.filename in w.fs0 && job.filename != [] && s.tokens[t].job.filename == Parent(job.filename)
  }

  ghost predicate Removable(w: World, p: Path) {
    Visited(w, p) && !w.c.keep(p)
  }

  ghost predicate Ready(w: World, s: Sys, gone: set<Path>, job: Job) {
    && ParentOk(w, s, job)
    && job.filename !in gone
    && match job.kind
       case Check => (Visited(w, job.filename) || (job.filename in w.roots && job.filename !in w.fs0))
                     && !HasToken(s, job.filename)
       case Unlink => Removable(w, job.filename) && w.fs0[job.filename] == File
       case RmDir => Removable(w, job.filename) && w.fs0[job.filename] == Dir
                     && Left(w, gone, job.filename) == {}
  }

  ghost predicate QueueOk(w: World, s: Sys, gone: set<Path>) {
    forall i :: 0 <= i < |s.queue| ==> Ready(w, s, gone, s.queue[i]) && !Announced(s, s.queue[i].filename)
  }

  /** A recorded outcome is the one the starting disk gives; for a missing path, also ENOENT once the
      file above it has gone. */
  ghost predicate OutcomeOk(w: World, f: Flight) {
    f.outcome.Some? ==>
      match f.call
      case LStat =>
        if f.job.filename in w.fs0 then f.outcome.value == Stats(w.fs0[f.job.filename] == Dir)
        else
          || f.outcome.value == Error(ENOENT)
          || (f.outcome.value == Error(ENOTDIR) && BehindFile(w.fs0, f.job.filename))
      case ReadDir => f.outcome.value.Entries? && Lists(w.fs0, f.job.filename, f.outcome.value.names)
      case _ => f.outcome.value == Done
  }

  ghost predicate FlightOk(w: World, s: Sys, gone: set<Path>, f: Flight) {
    f.call != Tick ==>
      && Ready(w, s, gone, f.job)
      && OutcomeOk(w, f)
      && !w.c.keep(f.job.filename)
      && match f.job.kind
         case Check => !Announced(s, f.job.filename)
                       && (|| f.call == LStat
                           || (f.call == ReadDir && Visited(w, f.job.filename) && w.fs0[f.job.filename] == Dir))
         case Unlink => f.call == UnlinkCall && !w.c.dry
         case RmDir => f.call == RmDirCall && !w.c.dry
  }

  ghost predicate FlightsOk(w: World, s: Sys, gone: set<Path>) {
    && s.processing == |s.flights| <= CONCURRENCY
    && (forall id :: id in s.flights ==> id < s.nextId && FlightOk(w, s, gone, s.flights[id]))
  }

  ghost predicate RemovalInFlight(s: Sys, p: Path) {
    exists id :: id in s.flights && IsRemoval(s.flights[id]) && s.flights[id].job.filename == p
  }

  ghost predicate RemovalDone(s: Sys, p: Path) {
    exists id :: id in s.flights && IsRemoval(s.flights[id]) && s.flights[id].job.filename == p
                 && s.flights[id].outcome.Some?
  }

  /** Outside ex: the announced removals are exactly those reported or in flight. */
  ghost predicate LogOk(w: World, s: Sys, gone: set<Path>, ex: set<Path>) {
    && (forall p :: p !in ex ==> (Announced(s, p) <==> (p in gone || RemovalInFlight(s, p))))
    && (forall i, j :: 0 <= i < j < |s.log| && s.log[i].WillBeRemoved? ==> s.log[i] != s.log[j])
  }

  /** Outside ex: the disk is the starting disk without what a real run has removed. */
  ghost predicate DiskOk(w: World, s: Sys, gone: set<Path>, ex: set<Path>) {
    && (forall p :: p !in ex ==> (p in s.fs <==> p in w.fs0 && (w.c.dry || (p !in gone && !RemovalDone(s, p)))))
    && (forall p :: p in s.fs ==> p in w.fs0 && s.fs[p] == w.fs0[p])
  }

  ghost predicate GoneOk(w: World, s: Sys, gone: set<Path>) {
    forall p :: p in gone ==>
      && Removable(w, p)
      && Left(w, gone, p) == {}
      && (p in w.roots || HasToken(s, Parent(p)))
  }

  /** The counter of token t, which may still be one too high while a report is outstanding. */
  ghost predicate TokenOk(w: World, s: Sys, gone: set<Path>, debt: Option<nat>, t: nat)
    requires t < |s.tokens|
  {
    var token := s.tokens[t];
    var d := token.job.filename;
    && token.job.kind == RmDir && ParentOk(w, s, token.job)
    && Removable(w, d) && w.fs0[d] == Dir
    && token.remaining == |Left(w, gone, d)| + (if debt == Some(t) then 1 else 0)
    && (token.remaining > 0 ==> !Pending(s, d) && !Announced(s, d) && d !in gone)
  }

  ghost predicate TokensOk(w: World, s: Sys, gone: set<Path>, debt: Option<nat>) {
    && (forall t :: 0 <= t < |s.tokens| ==> TokenOk(w, s, gone, debt, t))
    && (forall t, u :: 0 <= t < u < |s.tokens| ==> s.tokens[t].job.filename != s.tokens[u].job.filename)
  }

  ghost predicate OnHold(s: Sys, d: Path) {
    exists t :: 0 <= t < |s.tokens| && s.tokens[t].job.filename == d && s.tokens[t].remaining > 0
  }

  /** Outside ex: every entry found so far is pending, waiting for its content, gone, or kept. */
  ghost predicate Covered(w: World, s: Sys, gone: set<Path>, ex: set<Path>) {
    forall p :: p !in ex && Visited(w, p) && (p in w.roots || HasToken(s, Parent(p))) ==>
      Pending(s, p) || OnHold(s, p) || p in gone || w.c.keep(p)
  }

  ghost predicate StatusOk(w: World, s: Sys) {
    && (s.status.Failed? ==> s.status == Failed(ENOTDIR) && exists r :: Hazard(w, r))
    && (s.status == Succeeded ==> s.queue == [] && s.flights == map[])
    && (s.status == Working && !s.scheduled ==> s.flights != map[])
    && (s.status == Working && !s.scheduled && s.queue != [] ==> s.processing >= CONCURRENCY)
  }

  /** The invariant with the paths in ex (log and disk) and open (coverage) under way. */
  ghost predicate Core(w: World, s: Sys, gone: set<Path>, debt: Option<nat>, ex: set<Path>, open: set<Path>) {
    && QueueOk(w, s, gone)
    && FlightsOk(w, s, gone)
    && Unique(s)
    && LogOk(w, s, gone, ex)
    && DiskOk(w, s, gone, ex)
    && GoneOk(w, s, gone)
    && TokensOk(w, s, gone, debt)
    && Covered(w, s, gone, open)
  }

  ghost predicate Inv(w: World, s: Sys, gone: set<Path>) {
    Core(w, s, gone, None, {}, {}) && StatusOk(w, s)
  }

  // ---------- facts about visited paths ----------

  lemma {:induction false} VisitedBelowRoot(w: World, x: Path)
    requires Visited(w, x)
    ensures exists r :: r in w.roots && r <= x
    decreases |x|
  {
    if x !in w.roots {
      VisitedBelowRoot(w, Parent(x));
      var r :| r in w.roots && r <= Parent(x);
      assert r <= x;
    } else {
      assert x <= x;
    }
  }

  /** Nothing found while descending is itself a diff root. */
  lemma VisitedChildIsNoRoot(w: World, d: Path, x: Path)
    requires WorldOk(w) && Visited(w, d) && x in w.fs0 && x != [] && Parent(x) == d
    ensures x !in w.roots
  {
    VisitedBelowRoot(w, d);
    var r :| r in w.roots && r <= d;
    assert r <= x && r != x;
  }
}
