/** The numbers, names and codes that the clean plugin's jobs turn on, each in plain terms. */
module CleanRules {
  import opened Common
  import opened FileTree
  import opened CleanJobs
  import opened CleanInvariant
  import opened CleanRuns

  /** At no point of any schedule are more than ten calls under way, and while jobs wait without a pass over the
      queue being scheduled, there are ten. */
  lemma TenAtMost(w: World, diff: seq<Path>, run: seq<Sys>, i: nat)
    requires WorldOk(w) && DiffOf(w, diff) && IsRun(w, diff, run) && i < |run|
    ensures |run[i].flights| <= 10
    ensures run[i].status == Working && !run[i].scheduled && run[i].queue != [] ==> |run[i].flights| == 10
  {
    var gone := RunKeeps(w, diff, run, i);
    hide WorldOk, DiffOf, IsRun, Core, StatusOk;
    TenInvariant(w, run[i], gone);
  }

  lemma TenInvariant(w: World, s: Sys, gone: set<Path>)
    requires Inv(w, s, gone)
    ensures |s.flights| <= 10 && (s.status == Working && !s.scheduled && s.queue != [] ==> |s.flights| == 10)
  {
    hide QueueOk, Unique, LogOk, DiskOk, GoneOk, TokensOk, Covered;
  }

  /** A pass over waiting checks takes the last ones, as many as there is room for. */
  lemma {:induction false} LastOnesFirst(c: Config, s: Sys)
    requires 0 <= s.processing <= 10 && forall i :: 0 <= i < |s.queue| ==> s.queue[i].kind == Check
    ensures var n := if |s.queue| < 10 - s.processing then |s.queue| else 10 - s.processing;
      && DrainLoop(c, s).queue == s.queue[..|s.queue| - n]
      && DrainLoop(c, s).processing == s.processing + n
    decreases 10 - s.processing
  {
    if s.processing < 10 && s.queue != [] {
      var s' := PopAndBegin(c, s);
      assert s'.queue == s.queue[..|s.queue| - 1] && s'.processing == s.processing + 1;
      LastOnesFirst(c, s');
      var k := |DrainLoop(c, s').queue|;
      assert s'.queue[..k] == s.queue[..k];
    }
  }

  lemma StartsWithDot(d: Path, n: Name)
    ensures DotEntry(d + [n]) <==> "." <= n
  {
  }

  /** Each entry of a listing is either checked, with the token of its directory, or reported as a dot file. */
  lemma {:induction false} CheckedOrDot(d: Path, token: nat, names: seq<Name>)
    ensures forall job :: job in ChecksFor(d, token, names) <==>
      exists n :: n in names && !("." <= n) && job == Job(Check, d + [n], Some(token))
    ensures forall note :: note in NotesFor(d, names) ==> note == DotFilesKept(d)
    ensures |ChecksFor(d, token, names)| + |NotesFor(d, names)| == |names|
  {
    if names != [] {
      var n, rest := names[0], names[1..];
      CheckedOrDot(d, token, rest);
      StartsWithDot(d, n);
      hide DotEntry;
      assert names == [n] + rest;
    }
  }

  /** A kept entry is reported and nothing is done about it; its directory is not told. */
  lemma KeptIsReported(c: Config, s: Sys, job: Job)
    requires job.kind == Check && c.keep(job.filename)
    ensures var s' := Begin(c, s, job);
      && s'.log == s.log + [WillBeKept(job.filename)]
      && s'.fs == s.fs && s'.queue == s.queue && s'.tokens == s.tokens && s'.status == s.status
      && s'.flights[s.nextId].call == Tick
  {
  }

  /** An answer ENOENT is reported, settles the entry and is no failure; any other error ends the task, and
      nothing but an error does. */
  lemma OnlyOtherErrorsFail(s: Sys, id: nat)
    requires id in s.flights && s.flights[id].call != Tick && s.flights[id].outcome.Some? && s.status == Working
    ensures var s', f := Deliver(s, id), s.flights[id];
      match f.outcome.value
      case Error(code) =>
        if code == ENOENT then
          && s'.status == Working && s'.log == s.log + [Vanished(f.job.filename)]
          && (f.job.parent == None ==> s'.queue == s.queue && s'.tokens == s.tokens)
          && (f.job.parent.Some? && f.job.parent.value < |s.tokens| ==>
                s'.tokens[f.job.parent.value].remaining == s.tokens[f.job.parent.value].remaining - 1)
        else s'.status == Failed(code) && s'.log == s.log && s'.queue == s.queue && s'.tokens == s.tokens
      case _ => s'.status == Working
  {
  }
}
