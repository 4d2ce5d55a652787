/** applyDiff of the clean plugin, run by processAsyncTree: check, unlink and rmdir jobs
    over a shared queue, at most ten in flight, with counters deciding when a directory may go.
    Every asynchronous call takes effect at one moment (Perform) and reports back at a later
    one (Deliver); in between any other job may move. */
module CleanJobs {
  import opened Common
  import opened FileTree

  const CONCURRENCY := 10

  datatype JobType = Check | Unlink | RmDir

  /** parent names the shared token of the directory the entry was found in. */
  datatype Job = Job(kind: JobType, filename: Path, parent: Option<nat>)

  datatype Token = Token(remaining: int, job: Job)

  datatype Call = LStat | ReadDir | UnlinkCall | RmDirCall | Tick

  datatype Outcome =
    | Stats(isDirectory: bool)
    | Entries(names: seq<Name>)
    | Done
    | Error(code: Code)

  /** A job whose processor has started; outcome is set once the call has taken effect. */
  datatype Flight = Flight(job: Job, call: Call, outcome: Option<Outcome>)

  datatype Note =
    | WillBeKept(path: Path)
    | DotFilesKept(path: Path)
    | WillBeRemoved(path: Path)
    | Vanished(path: Path)

  datatype Status = Working | Succeeded | Failed(code: Code)

  datatype Sys = Sys(
    fs: Disk,
    queue: seq<Job>,
    processing: int,
    flights: map<nat, Flight>,
    nextId: nat,
    tokens: seq<Token>,
    scheduled: bool,
    status: Status,
    log: seq<Note>)

  datatype Config = Config(keep: Path -> bool, dry: bool)

  // ---------- processAsyncTree and the processor, as functions on the whole state ----------

  function Initial(fs: Disk, diff: seq<Path>): Sys {
    Sys(fs, seq(|diff|, i requires 0 <= i < |diff| => Job(Check, diff[i], None)),
        0, map[], 0, [], diff != [], if diff == [] then Succeeded else Working, [])
  }

  function Push(s: Sys, job: Job): Sys {
    s.(queue := s.queue + [job], scheduled := s.scheduled || s.processing < CONCURRENCY)
  }

  function Log(s: Sys, note: Note): Sys {
    s.(log := s.log + [note])
  }

  /** A reference to a token always resolves, so the bound on t only makes the function total. */
  function HandleParent(s: Sys, parent: Option<nat>): Sys {
    match parent
    case None => s
    case Some(t) =>
      if t >= |s.tokens| then s else
      var token := s.tokens[t].(remaining := s.tokens[t].remaining - 1);
      var s1 := s.(tokens := s.tokens[t := token]);
      if token.remaining == 0 then Push(s1, token.job) else s1
  }

  function Launch(s: Sys, flight: Flight): Sys {
    s.(flights := s.flights[s.nextId := flight], nextId := s.nextId + 1)
  }

  /** The part of the processor that runs before its first asynchronous call. */
  function Begin(c: Config, s: Sys, job: Job): Sys {
    match job.kind
    case Check =>
      if c.keep(job.filename) then
        Launch(Log(s, WillBeKept(job.filename)), Flight(job, Tick, None))
      else
        Launch(s, Flight(job, LStat, None))
    case _ =>
      var s1 := Log(s, WillBeRemoved(job.filename));
      if c.dry then
        Launch(HandleParent(s1, job.parent), Flight(job, Tick, None))
      else
        Launch(s1, Flight(job, if job.kind == Unlink then UnlinkCall else RmDirCall, None))
  }

  function PopAndBegin(c: Config, s: Sys): Sys
    requires s.queue != []
  {
    var n := |s.queue| - 1;
    Begin(c, s.(processing := s.processing + 1, queue := s.queue[..n]), s.queue[n])
  }

  function DrainLoop(c: Config, s: Sys): Sys
    decreases CONCURRENCY - s.processing
  {
    if s.processing < CONCURRENCY && s.queue != [] then DrainLoop(c, PopAndBegin(c, s)) else s
  }

  /** processQueue */
  function Drain(c: Config, s: Sys): Sys {
    var s1 := DrainLoop(c, s).(scheduled := false);
    if s1.queue == [] && s1.processing == 0 && s1.status == Working then s1.(status := Succeeded) else s1
  }

  function Callback(s: Sys): Sys {
    s.(processing := s.processing - 1, scheduled := true)
  }

  function CallbackError(s: Sys, code: Code): Sys {
    if s.status == Working then s.(processing := s.processing - 1, status := Failed(code)) else Callback(s)
  }

  function HandleError(s: Sys, job: Job, code: Code): Sys {
    if code == ENOENT then
      Callback(HandleParent(Log(s, Vanished(job.filename)), job.parent))
    else
      CallbackError(s, code)
  }

  /** What the operating system answers, given the listing order it would use. */
  function Answer(fs: Disk, call: Call, p: Path, listing: seq<Name>): Outcome {
    if p !in fs then Error(Missing(fs, p)) else
    match call
    case LStat => Stats(fs[p] == Dir)
    case ReadDir => if fs[p] == File then Error(ENOTDIR) else Entries(listing)
    case UnlinkCall => if fs[p] == Dir then Error(EISDIR) else Done
    case RmDirCall =>
      if fs[p] == File then Error(ENOTDIR) else if Children(fs, p) != {} then Error(ENOTEMPTY) else Done
    case Tick => Done
  }

  function Perform(s: Sys, id: nat, listing: seq<Name>): Sys
    requires id in s.flights
  {
    var f := s.flights[id];
    var answer := Answer(s.fs, f.call, f.job.filename, listing);
    s.(fs := if answer.Done? && f.call != Tick then s.fs - {f.job.filename} else s.fs,
       flights := s.flights[id := f.(outcome := Some(answer))])
  }

  /** The check jobs pushed for the entries of d, dot entries skipped. */
  function ChecksFor(d: Path, token: nat, names: seq<Name>): seq<Job> {
    if names == [] then [] else
    (if DotEntry(d + [names[0]]) then [] else [Job(Check, d + [names[0]], Some(token))])
    + ChecksFor(d, token, names[1..])
  }

  function NotesFor(d: Path, names: seq<Name>): seq<Note> {
    if names == [] then [] else
    (if DotEntry(d + [names[0]]) then [DotFilesKept(d)] else []) + NotesFor(d, names[1..])
  }

  function Expand(s: Sys, job: Job, names: seq<Name>): Sys {
    var deleteJob := job.(kind := RmDir);
    if names == [] then Push(s, deleteJob) else
    var checks := ChecksFor(job.filename, |s.tokens|, names);
    s.(tokens := s.tokens + [Token(|names|, deleteJob)],
       queue := s.queue + checks,
       scheduled := s.scheduled || (checks != [] && s.processing < CONCURRENCY),
       log := s.log + NotesFor(job.filename, names))
  }

  function Deliver(s: Sys, id: nat): Sys
    requires id in s.flights && (s.flights[id].outcome.Some? || s.flights[id].call == Tick)
  {
    var f := s.flights[id];
    var s1 := s.(flights := s.flights - {id});
    if f.call == Tick then Callback(s1) else
    match f.outcome.value
    case Error(code) => HandleError(s1, f.job, code)
    case Stats(isDirectory) =>
      if isDirectory then s.(flights := s.flights[id := Flight(f.job, ReadDir, None)])
      else Callback(Push(s1, f.job.(kind := Unlink)))
    case Entries(names) => Callback(Expand(s1, f.job, names))
    case Done => Callback(HandleParent(s1, f.job.parent))
  }

  // ---------- events ----------

  datatype Event = DrainTick | PerformCall(id: nat, listing: seq<Name>) | DeliverCall(id: nat)

  ghost predicate Enabled(s: Sys, e: Event) {
    match e
    case DrainTick => s.scheduled && s.status == Working
    case PerformCall(id, listing) =>
      && id in s.flights && s.flights[id].call != Tick && s.flights[id].outcome == None
      && Lists(s.fs, s.flights[id].job.filename, listing)
    case DeliverCall(id) =>
      id in s.flights && (s.flights[id].outcome.Some? || s.flights[id].call == Tick)
  }

  ghost function After(c: Config, s: Sys, e: Event): Sys
    requires Enabled(s, e)
  {
    match e
    case DrainTick => Drain(c, s)
    case PerformCall(id, listing) => Perform(s, id, listing)
    case DeliverCall(id) => Deliver(s, id)
  }
}
