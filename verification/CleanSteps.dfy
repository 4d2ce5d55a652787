/** Each event of the job system keeps the invariant. */
module CleanSteps {
  import opened Common
  import opened FileTree
  import opened CleanJobs
  import opened CleanInvariant
  import opened CleanPrimitives

  // ---------- settling a report ----------

  ghost predicate SameTokenJobs(s: Sys, s': Sys) {
    && |s.tokens| == |s'.tokens|
    && forall u :: 0 <= u < |s.tokens| ==> s'.tokens[u].job == s.tokens[u].job
  }

  lemma SameTokens(s: Sys, s': Sys)
    requires SameTokenJobs(s, s')
    ensures forall p :: HasToken(s', p) <==> HasToken(s, p)
    ensures forall w, gone, job {:trigger Ready(w, s', gone, job)} ::
      Ready(w, s', gone, job) <==> Ready(w, s, gone, job)
  {
    forall p ensures HasToken(s', p) <==> HasToken(s, p) {
      if HasToken(s, p) {
        var t :| 0 <= t < |s.tokens| && s.tokens[t].job.filename == p;
        assert s'.tokens[t].job.filename == p;
      }
      if HasToken(s', p) {
        var t :| 0 <= t < |s'.tokens| && s'.tokens[t].job.filename == p;
        assert s.tokens[t].job.filename == p;
      }
    }
  }

  /** Pushing one job at the end of the queue adds one pending slot. */
  lemma PushPending(s: Sys, s': Sys, job: Job)
    requires s'.queue == s.queue + [job] && s'.flights == s.flights
    ensures forall a, p :: PendingAt(s', a, p) <==> PendingAt(s, a, p) || (a == Waiting(|s.queue|) && p == job.filename)
    ensures forall p :: Pending(s', p) <==> Pending(s, p) || p == job.filename
  {
    forall a, p
      ensures PendingAt(s', a, p) <==> PendingAt(s, a, p) || (a == Waiting(|s.queue|) && p == job.filename)
    {
    }
    assert PendingAt(s', Waiting(|s.queue|), job.filename);
    forall p ensures Pending(s', p) <==> Pending(s, p) || p == job.filename {
      if Pending(s, p) {
        var a :| PendingAt(s, a, p);
        assert PendingAt(s', a, p);
      }
    }
  }

  /** How HandleParent changes the pending jobs. */
  lemma SettledPending(s: Sys, t: nat)
    requires t < |s.tokens|
    ensures var s' := HandleParent(s, Some(t));
            && SameTokenJobs(s, s')
            && s'.tokens == s.tokens[t := s'.tokens[t]] && s'.tokens[t].remaining == s.tokens[t].remaining - 1
            && s'.log == s.log && s'.fs == s.fs && s'.flights == s.flights
            && s'.processing == s.processing && s'.nextId == s.nextId
            && (forall p :: Pending(s', p) <==>
                  Pending(s, p) || (p == s.tokens[t].job.filename && s'.tokens[t].remaining == 0))
            && (forall p :: HasToken(s', p) <==> HasToken(s, p))
  {
    var s' := HandleParent(s, Some(t));
    SameTokens(s, s');
    if s'.queue != s.queue {
      PushPending(s, s', s.tokens[t].job);
    } else {
      assert forall a, p :: PendingAt(s', a, p) <==> PendingAt(s, a, p);
    }
  }

  lemma SettledToken(w: World, s: Sys, gone: set<Path>, t: nat, u: nat)
    requires t < |s.tokens| && u < |s.tokens|
    requires TokensOk(w, s, gone, Some(t))
    ensures TokenOk(w, HandleParent(s, Some(t)), gone, None, u)
  {
    assert TokenOk(w, s, gone, Some(t), u);
    SettledPending(s, t);
    hide TokensOk, Ready, Visited, Removable, Left, Pending, HandleParent, HasToken;
  }

  lemma SettledCover(w: World, s: Sys, gone: set<Path>, t: nat, open: set<Path>)
    requires t < |s.tokens| && Covered(w, s, gone, open)
    requires forall u :: 0 <= u < |s.tokens| && u != t ==> s.tokens[u].job.filename != s.tokens[t].job.filename
    requires s.tokens[t].remaining > 0
    ensures Covered(w, HandleParent(s, Some(t)), gone, open)
  {
    SettledPending(s, t);
    var s' := HandleParent(s, Some(t));
    hide Ready, Visited, HandleParent, Pending, HasToken;
    forall p | OnHold(s, p) && p != s.tokens[t].job.filename
      ensures OnHold(s', p)
    {
      var u :| 0 <= u < |s.tokens| && s.tokens[u].job.filename == p && s.tokens[u].remaining > 0;
      assert s'.tokens[u].job.filename == p;
    }
    if s'.tokens[t].remaining > 0 {
      assert OnHold(s', s.tokens[t].job.filename);
    }
  }

  lemma SettledQueue(w: World, s: Sys, gone: set<Path>, t: nat)
    requires t < |s.tokens| && QueueOk(w, s, gone) && TokenOk(w, s, gone, Some(t), t)
    ensures QueueOk(w, HandleParent(s, Some(t)), gone)
  {
    var s' := HandleParent(s, Some(t));
    SettledPending(s, t);
    SameTokens(s, s');
    hide Ready, ParentOk, HasToken, Removable, Pending, Visited;
    var job := s.tokens[t].job;
    assert s'.tokens[t].remaining == 0 ==> Ready(w, s, gone, job) by {
      TokenReady(w, s, gone, t);
    }
  }

  lemma TokenReady(w: World, s: Sys, gone: set<Path>, t: nat)
    requires t < |s.tokens| && TokenOk(w, s, gone, Some(t), t)
    ensures s.tokens[t].remaining == 1 ==> Ready(w, s, gone, s.tokens[t].job)
  {
  }


  /** A slot of the state after HandleParent is an old one or the last of the queue. */
  lemma SettledUnique(s: Sys, t: nat)
    requires t < |s.tokens| && Unique(s) && !Pending(s, s.tokens[t].job.filename)
    ensures Unique(HandleParent(s, Some(t)))
  {
    var s' := HandleParent(s, Some(t));
    var d := s.tokens[t].job.filename;
    if s'.queue != s.queue {
      PushPending(s, s', s.tokens[t].job);
      hide HandleParent, Holds, At;
    } else {
      assert forall a, p :: PendingAt(s', a, p) <==> PendingAt(s, a, p);
      hide HandleParent, PendingAt;
    }
  }

  lemma SettledRest(w: World, s: Sys, gone: set<Path>, t: nat)
    requires t < |s.tokens|
    requires FlightsOk(w, s, gone) && GoneOk(w, s, gone) && LogOk(w, s, gone, {}) && DiskOk(w, s, gone, {})
    ensures var s' := HandleParent(s, Some(t));
            FlightsOk(w, s', gone) && GoneOk(w, s', gone) && LogOk(w, s', gone, {}) && DiskOk(w, s', gone, {})
  {
    var s' := HandleParent(s, Some(t));
    SettledPending(s, t);
    SameTokens(s, s');
    hide HandleParent, Pending, HasToken, Ready, Visited, Removable, OutcomeOk;
    assert forall p :: RemovalInFlight(s', p) <==> RemovalInFlight(s, p);
    assert forall p :: RemovalDone(s', p) <==> RemovalDone(s, p);
  }

  /** Settling the outstanding report, pushing the directory's own job when it was the last one. */
  lemma HandleParentKeeps(w: World, s: Sys, gone: set<Path>, parent: Option<nat>)
    requires Core(w, s, gone, parent, {}, {})
    requires parent.Some? ==> parent.value < |s.tokens|
    ensures Core(w, HandleParent(s, parent), gone, None, {}, {})
  {
    if parent.Some? {
      var t := parent.value;
      var s' := HandleParent(s, parent);
      assert TokenOk(w, s, gone, parent, t);
      assert TokensOk(w, s', gone, None) by {
        hide QueueOk, FlightsOk, Unique, LogOk, DiskOk, GoneOk, Covered;
        SettledPending(s, t);
        forall u | 0 <= u < |s.tokens| ensures TokenOk(w, s', gone, None, u) {
          SettledToken(w, s, gone, t, u);
        }
        hide TokenOk, HandleParent;
      }
      hide QueueOk, FlightsOk, LogOk, DiskOk, GoneOk, Covered;
      SettledCover(w, s, gone, t, {});
      SettledQueue(w, s, gone, t);
      SettledUnique(s, t);
      SettledRest(w, s, gone, t);
    }
  }

  // ---------- listing a directory ----------

  /** The check jobs for names, by path: the entries of d that are not dot entries. */
  ghost function Kids(d: Path, names: seq<Name>): set<Path> {
    set n | n in names && !DotEntry(d + [n]) :: d + [n]
  }

  lemma KidsOfNames(d: Path, names: seq<Name>)
    requires names != []
    ensures Kids(d, names) ==
              (if DotEntry(d + [names[0]]) then {} else {d + [names[0]]}) + Kids(d, names[1..])
  {
    assert forall n :: n in names <==> n == names[0] || n in names[1..];
  }

  lemma {:induction false} NotesForDirectory(d: Path, names: seq<Name>)
    ensures forall n :: n in NotesFor(d, names) ==> n == DotFilesKept(d)
  {
    if names != [] {
      NotesForDirectory(d, names[1..]);
    }
  }

  /** The entries of a listed directory number as many as its children on the starting disk. */
  lemma {:induction false} ListingSize(d: Path, names: seq<Name>, kids: set<Path>)
    requires forall n :: n in names <==> d + [n] in kids
    requires forall k :: k in kids ==> k != [] && Parent(k) == d
    requires forall i, j :: 0 <= i < j < |names| ==> names[i] != names[j]
    ensures |names| == |kids|
    decreases |names|
  {
    if names == [] {
      if kids != {} {
        var k :| k in kids;
        ChildNamed(k);
      }
    } else {
      var rest := names[1..];
      var k := d + [names[0]];
      forall n ensures n in rest <==> d + [n] in kids - {k} {
        assert n in names <==> n == names[0] || n in rest;
        assert d + [n] == k ==> n == names[0] by {
          assert (d + [n])[|d|] == n && k[|d|] == names[0];
        }
      }
      ListingSize(d, rest, kids - {k});
      assert k in kids;
    }
  }

  lemma ParentFound(w: World, s: Sys, job: Job)
    requires ParentOk(w, s, job)
    ensures job.filename in w.roots || HasToken(s, Parent(job.filename))
  {
  }

  lemma PendingFound(w: World, s: Sys, gone: set<Path>, q: Path)
    requires QueueOk(w, s, gone) && FlightsOk(w, s, gone) && Pending(s, q)
    ensures q in w.roots || HasToken(s, Parent(q))
  {
    var a :| PendingAt(s, a, q);
    assert ParentOk(w, s, At(s, a)) by {
      hide Announced, ParentOk, HasToken, Removable, OutcomeOk, Left, Visited;
    }
    ParentFound(w, s, At(s, a));
  }

  lemma TokenFound(w: World, s: Sys, gone: set<Path>, debt: Option<nat>, q: Path)
    requires TokensOk(w, s, gone, debt) && HasToken(s, q)
    ensures q in w.roots || HasToken(s, Parent(q))
  {
    var t :| 0 <= t < |s.tokens| && s.tokens[t].job.filename == q;
    assert TokenOk(w, s, gone, debt, t);
    hide TokensOk, Removable, Left, Pending, Announced;
    ParentFound(w, s, s.tokens[t].job);
  }

  lemma RemovalIsPending(s: Sys, q: Path)
    requires RemovalInFlight(s, q)
    ensures Pending(s, q)
  {
    var id :| id in s.flights && IsRemoval(s.flights[id]) && s.flights[id].job.filename == q;
    assert PendingAt(s, Flying(id), q);
  }

  /** While d has no token, none of its entries has been touched. */
  lemma UntouchedChild(w: World, s: Sys, gone: set<Path>, open: set<Path>, d: Path, q: Path)
    requires WorldOk(w) && Core(w, s, gone, None, {}, open)
    requires Visited(w, d) && !HasToken(s, d) && q in w.fs0 && q != [] && Parent(q) == d
    ensures q !in gone && q !in w.roots && !Pending(s, q) && !Announced(s, q) && !HasToken(s, q)
      && !RemovalInFlight(s, q)
  {
    VisitedChildIsNoRoot(w, d, q);
    assert q !in gone && LogOk(w, s, gone, {}) by {
      hide WorldOk, QueueOk, FlightsOk, Unique, Covered, TokensOk, Visited, Removable, HasToken, LogOk, DiskOk;
    }
    hide QueueOk, FlightsOk, Unique, Covered, TokensOk, Visited, HasToken, WorldOk, DiskOk, GoneOk, Announced,
         RemovalInFlight, Pending;
    if Pending(s, q) {
      PendingFound(w, s, gone, q);
    }
    if HasToken(s, q) {
      TokenFound(w, s, gone, None, q);
    }
    if RemovalInFlight(s, q) {
      RemovalIsPending(s, q);
    }
  }

  // the new token

  lemma NewToken(s: Sys, s': Sys, token: Token)
    requires s'.tokens == s.tokens + [token]
    ensures forall p :: HasToken(s', p) <==> HasToken(s, p) || p == token.job.filename
    ensures forall p :: OnHold(s, p) ==> OnHold(s', p)
    ensures token.remaining > 0 ==> OnHold(s', token.job.filename)
  {
    assert s'.tokens[|s.tokens|] == token;
    assert HasToken(s', token.job.filename);
    forall p | HasToken(s, p) ensures HasToken(s', p) {
      var t :| 0 <= t < |s.tokens| && s.tokens[t].job.filename == p;
      assert s'.tokens[t].job.filename == p;
    }
    forall p | OnHold(s, p) ensures OnHold(s', p) {
      var t :| 0 <= t < |s.tokens| && s.tokens[t].job.filename == p && s.tokens[t].remaining > 0;
      assert s'.tokens[t].job.filename == p;
    }
  }

  lemma NewTokenReady(w: World, s: Sys, s': Sys, gone: set<Path>, token: Token, job: Job)
    requires Ready(w, s, gone, job) && s'.tokens == s.tokens + [token] && job.filename != token.job.filename
    ensures Ready(w, s', gone, job)
  {
    NewToken(s, s', token);
    hide Visited, Removable, Left, HasToken, OnHold;
  }

  lemma NewTokenJobs(w: World, s: Sys, s': Sys, gone: set<Path>, token: Token)
    requires QueueOk(w, s, gone) && FlightsOk(w, s, gone) && GoneOk(w, s, gone)
    requires !Pending(s, token.job.filename) && s' == s.(tokens := s.tokens + [token])
    ensures QueueOk(w, s', gone) && FlightsOk(w, s', gone) && GoneOk(w, s', gone)
  {
    PendingSlots(s);
    NewToken(s, s', token);
    assert forall p :: Announced(s', p) <==> Announced(s, p);
    hide Ready, Pending, Announced, HasToken, Removable, OutcomeOk, OnHold, Left, Visited;
    forall id | id in s.flights ensures FlightOk(w, s', gone, s.flights[id]) {
      assert FlightOk(w, s, gone, s.flights[id]);
      if s.flights[id].call != Tick {
        NewTokenReady(w, s, s', gone, token, s.flights[id].job);
      }
    }
    hide FlightOk;
    forall i | 0 <= i < |s.queue| ensures Ready(w, s', gone, s.queue[i]) {
      NewTokenReady(w, s, s', gone, token, s.queue[i]);
    }
  }

  lemma NewTokenTokens(w: World, s: Sys, s': Sys, gone: set<Path>, token: Token)
    requires TokensOk(w, s, gone, None) && s' == s.(tokens := s.tokens + [token])
    requires !HasToken(s, token.job.filename) && !Pending(s, token.job.filename) && !Announced(s, token.job.filename)
    requires token.job.kind == RmDir && ParentOk(w, s, token.job) && token.job.filename !in gone
    requires Removable(w, token.job.filename) && w.fs0[token.job.filename] == Dir
    requires token.remaining == |Left(w, gone, token.job.filename)|
    ensures TokensOk(w, s', gone, None)
  {
    assert forall a, p :: PendingAt(s', a, p) <==> PendingAt(s, a, p);
    assert forall p :: Pending(s', p) <==> Pending(s, p);
    assert forall p :: Announced(s', p) <==> Announced(s, p);
    hide Pending, Announced, Removable, Left;
    forall t | 0 <= t < |s'.tokens| ensures TokenOk(w, s', gone, None, t) {
      if t < |s.tokens| {
        assert TokenOk(w, s, gone, None, t);
      }
    }
  }

  lemma NewTokenRest(w: World, s: Sys, s': Sys, gone: set<Path>, token: Token)
    requires LogOk(w, s, gone, {}) && DiskOk(w, s, gone, {}) && Unique(s)
    requires s' == s.(tokens := s.tokens + [token])
    ensures LogOk(w, s', gone, {}) && DiskOk(w, s', gone, {}) && Unique(s')
  {
    assert forall a, p :: PendingAt(s', a, p) <==> PendingAt(s, a, p);
    assert forall p :: Announced(s', p) <==> Announced(s, p);
    assert forall q :: RemovalInFlight(s', q) <==> RemovalInFlight(s, q);
    assert forall q :: RemovalDone(s', q) <==> RemovalDone(s, q);
    hide Announced, RemovalInFlight, RemovalDone, PendingAt;
  }

  lemma NewTokenCover(w: World, s: Sys, s': Sys, gone: set<Path>, token: Token, names: seq<Name>)
    requires Covered(w, s, gone, {token.job.filename}) && s' == s.(tokens := s.tokens + [token])
    requires token.remaining > 0 && Lists(w.fs0, token.job.filename, names)
    requires forall q :: q in w.roots && q in w.fs0 ==> q == [] || Parent(q) != token.job.filename
    ensures Covered(w, s', gone, Kids(token.job.filename, names))
  {
    var d := token.job.filename;
    NewToken(s, s', token);
    assert forall a, p :: PendingAt(s', a, p) <==> PendingAt(s, a, p);
    assert forall p :: Pending(s', p) <==> Pending(s, p);
    hide Pending, PendingAt, HasToken, OnHold;
    forall p | p !in Kids(d, names) && Visited(w, p) && (p in w.roots || HasToken(s', Parent(p)))
      ensures Pending(s', p) || OnHold(s', p) || p in gone || w.c.keep(p)
    {
      if p != [] && Parent(p) == d && p != d {
        ChildNamed(p);
        assert false;
      }
      hide Visited, Lists, Kids;
    }
  }

  /** No entry of a directory without a token has been reported. */
  lemma NothingTaken(w: World, s: Sys, gone: set<Path>, d: Path, open: set<Path>)
    requires WorldOk(w) && Core(w, s, gone, None, {}, open) && Visited(w, d) && !HasToken(s, d)
    ensures Left(w, gone, d) == Children(w.fs0, d)
  {
    hide WorldOk, Core, Visited, HasToken;
    forall q | q in Children(w.fs0, d) ensures q !in gone {
      UntouchedChild(w, s, gone, open, d, q);
    }
  }

  lemma ListingSizeOf(fs: Disk, d: Path, names: seq<Name>)
    requires Lists(fs, d, names)
    ensures |names| == |Children(fs, d)|
  {
    ListingSize(d, names, Children(fs, d));
  }

  lemma NoRootInside(w: World, d: Path)
    requires WorldOk(w) && Visited(w, d)
    ensures forall q :: q in w.roots && q in w.fs0 ==> q == [] || Parent(q) != d
  {
    hide WorldOk, Visited;
    forall q | q in w.roots && q in w.fs0 && q != [] && Parent(q) == d ensures false {
      VisitedChildIsNoRoot(w, d, q);
    }
  }

  /** Setting up the counter of a listed, non-empty directory. */
  lemma AddToken(w: World, s: Sys, s': Sys, gone: set<Path>, token: Token, names: seq<Name>)
    requires WorldOk(w) && Core(w, s, gone, None, {}, {token.job.filename})
    requires !HasToken(s, token.job.filename) && !Pending(s, token.job.filename) && !Announced(s, token.job.filename)
    requires token.job.kind == RmDir && ParentOk(w, s, token.job) && token.job.filename !in gone
    requires Removable(w, token.job.filename) && w.fs0[token.job.filename] == Dir
    requires Lists(w.fs0, token.job.filename, names) && token.remaining == |names| > 0
    requires s' == s.(tokens := s.tokens + [token])
    ensures Core(w, s', gone, None, {}, Kids(token.job.filename, names))
  {
    var d := token.job.filename;
    assert Visited(w, d);
    hide *;
    NothingTaken(w, s, gone, d, {d});
    ListingSizeOf(w.fs0, d, names);
    NoRootInside(w, d);
    AddTokenCore(w, s, s', gone, token, names);
  }

  lemma AddTokenCore(w: World, s: Sys, s': Sys, gone: set<Path>, token: Token, names: seq<Name>)
    requires Core(w, s, gone, None, {}, {token.job.filename})
    requires !HasToken(s, token.job.filename) && !Pending(s, token.job.filename) && !Announced(s, token.job.filename)
    requires token.job.kind == RmDir && ParentOk(w, s, token.job) && token.job.filename !in gone
    requires Removable(w, token.job.filename) && w.fs0[token.job.filename] == Dir
    requires Lists(w.fs0, token.job.filename, names) && token.remaining == |Left(w, gone, token.job.filename)| > 0
    requires forall q :: q in w.roots && q in w.fs0 ==> q == [] || Parent(q) != token.job.filename
    requires s' == s.(tokens := s.tokens + [token])
    ensures Core(w, s', gone, None, {}, Kids(token.job.filename, names))
  {
    hide QueueOk, FlightsOk, Unique, Covered, TokensOk, Visited, HasToken, DiskOk, LogOk, GoneOk, Announced, Pending,
         Lists, Left, Removable, ParentOk, Kids;
    NewTokenJobs(w, s, s', gone, token);
    NewTokenTokens(w, s, s', gone, token);
    NewTokenRest(w, s, s', gone, token);
    NewTokenCover(w, s, s', gone, token, names);
  }

  ghost predicate Fresh(s: Sys, gone: set<Path>, q: Path) {
    !HasToken(s, q) && !Pending(s, q) && !Announced(s, q) && q !in gone
  }

  lemma PushOneCheck(w: World, s: Sys, s1: Sys, gone: set<Path>, d: Path, t: nat, n: Name, open: set<Path>)
    requires Core(w, s, gone, None, {}, open)
    requires s1 == s.(queue := s.queue + [Job(Check, d + [n], Some(t))])
    requires t < |s.tokens| && s.tokens[t].job.filename == d && Visited(w, d) && !w.c.keep(d)
    requires d + [n] in w.fs0 && !DotEntry(d + [n]) && Fresh(s, gone, d + [n])
    ensures Core(w, s1, gone, None, {}, open - {d + [n]})
    ensures forall p :: Fresh(s1, gone, p) <==> Fresh(s, gone, p) && p != d + [n]
  {
    var q := d + [n];
    var job := Job(Check, q, Some(t));
    ChildOf(d, n);
    assert Ready(w, s, gone, job) by {
      hide Core, Pending, Announced;
    }
    assert NotOnHold(s, q) && !Announced(s, q) && !Pending(s, q);
    assert forall p :: HasToken(s1, p) <==> HasToken(s, p);
    assert forall p :: Announced(s1, p) <==> Announced(s, p);
    hide Core, Pending, HasToken, Announced, Ready, Visited, NotOnHold;
    PushKeeps(w, s, s1, gone, job, open);
  }

  lemma KidsWithoutFirst(d: Path, names: seq<Name>)
    requires names != [] && NoDup(names)
    ensures NoDup(names[1..]) && names[0] !in names[1..]
    ensures forall n :: n in names[1..] ==> d + [n] != d + [names[0]]
    ensures Kids(d, names) - {d + [names[0]]} == Kids(d, names[1..])
    ensures DotEntry(d + [names[0]]) ==> Kids(d, names) == Kids(d, names[1..])
  {
    var q := d + [names[0]];
    forall n | d + [n] == q ensures n == names[0] {
      assert (d + [n])[|d|] == n && q[|d|] == names[0];
    }
    KidsOfNames(d, names);
  }

  /** Every child of d that is no dot entry gets its check job. */
  lemma {:induction false} PushChecks(w: World, s: Sys, s': Sys, gone: set<Path>, d: Path, t: nat, names: seq<Name>)
    requires Core(w, s, gone, None, {}, Kids(d, names))
    requires s' == s.(queue := s.queue + ChecksFor(d, t, names), scheduled := s'.scheduled)
    requires t < |s.tokens| && s.tokens[t].job.filename == d && Visited(w, d) && !w.c.keep(d)
    requires forall n :: n in names ==> d + [n] in w.fs0 && Fresh(s, gone, d + [n])
    requires NoDup(names)
    ensures Core(w, s', gone, None, {}, {})
    decreases |names|
  {
    hide Core, Visited, Fresh;
    if names == [] {
      assert Kids(d, names) == {};
      assert s'.queue == s.queue;
      NoChange(w, s, s', gone);
    } else {
      KidsWithoutFirst(d, names);
      hide Kids, NoDup;
      var rest := names[1..];
      if DotEntry(d + [names[0]]) {
        assert s'.queue == s.queue + ChecksFor(d, t, rest);
        PushChecks(w, s, s', gone, d, t, rest);
      } else {
        var s1 := s.(queue := s.queue + [Job(Check, d + [names[0]], Some(t))]);
        assert s'.queue == s1.queue + ChecksFor(d, t, rest);
        PushOneCheck(w, s, s1, gone, d, t, names[0], Kids(d, names));
        PushChecks(w, s1, s', gone, d, t, rest);
      }
    }
  }

  lemma NoChange(w: World, s: Sys, s': Sys, gone: set<Path>)
    requires Core(w, s, gone, None, {}, {}) && s' == s.(scheduled := s'.scheduled)
    ensures Core(w, s', gone, None, {}, {})
  {
    assert SameContext(s, s');
    assert forall a, p :: PendingAt(s', a, p) <==> PendingAt(s, a, p);
    assert forall p :: Pending(s', p) <==> Pending(s, p);
    assert Unique(s');
    hide QueueOk, FlightsOk, Unique, LogOk, DiskOk, GoneOk, TokensOk, Covered, Pending, SameContext;
    FewerPending(w, s, s', gone, {});
    SameFlightsLogDisk(w, s, s', gone);
    RetireQueueGone(w, s, s', gone);
  }

  lemma ExpandKeeps(w: World, s: Sys, s': Sys, gone: set<Path>, job: Job, names: seq<Name>)
    requires WorldOk(w) && Core(w, s, gone, None, {}, {job.filename})
    requires Ready(w, s, gone, job) && job.kind == Check && !Announced(s, job.filename) && !Pending(s, job.filename)
    requires Removable(w, job.filename) && w.fs0[job.filename] == Dir && Lists(w.fs0, job.filename, names)
    requires s' == Expand(s, job, names).(scheduled := s'.scheduled)
    ensures Core(w, s', gone, None, {}, {})
  {
    var d := job.filename;
    var deleteJob := job.(kind := RmDir);
    assert ParentOk(w, s, deleteJob) && !HasToken(s, d) && NotOnHold(s, d);
    if names == [] {
      assert Left(w, gone, d) == {} by {
        forall q | q in Left(w, gone, d) ensures false {
          ChildNamed(q);
        }
      }
      assert Ready(w, s, gone, deleteJob);
      hide Core, Ready, Announced, Pending, NotOnHold, HasToken, ParentOk, Removable;
      PushKeeps(w, s, s', gone, deleteJob, {d});
      assert {d} - {d} == {};
    } else {
      ExpandListed(w, s, s', gone, job, names);
    }
  }

  lemma ExpandListed(w: World, s: Sys, s': Sys, gone: set<Path>, job: Job, names: seq<Name>)
    requires WorldOk(w) && Core(w, s, gone, None, {}, {job.filename}) && names != []
    requires ParentOk(w, s, job) && job.filename !in gone && !HasToken(s, job.filename)
    requires job.kind == Check && !Announced(s, job.filename) && !Pending(s, job.filename)
    requires Removable(w, job.filename) && w.fs0[job.filename] == Dir && Lists(w.fs0, job.filename, names)
    requires s' == Expand(s, job, names).(scheduled := s'.scheduled)
    ensures Core(w, s', gone, None, {}, {})
  {
    var d := job.filename;
    var token := Token(|names|, job.(kind := RmDir));
    var s1 := s.(tokens := s.tokens + [token]);
    var s2 := s1.(log := s.log + NotesFor(d, names));
    assert ParentOk(w, s, token.job);
    assert s' == s2.(queue := s2.queue + ChecksFor(d, |s.tokens|, names), scheduled := s'.scheduled);
    assert Visited(w, d) && !w.c.keep(d);
    hide Core, Visited, HasToken, Pending, Announced, Expand, WorldOk, ParentOk, OnHold, Fresh;
    assert forall n :: n in names ==> d + [n] in w.fs0 && Fresh(s2, gone, d + [n]) by {
      EntriesFresh(w, s, s2, gone, token, names);
    }
    AddToken(w, s, s1, gone, token, names);
    hide Removable;
    NotesForDirectory(d, names);
    NotesKeep(w, s1, s2, gone, NotesFor(d, names), Kids(d, names));
    hide NotesFor, ChecksFor;
    PushChecks(w, s2, s', gone, d, |s.tokens|, names);
  }

  lemma EntriesFresh(w: World, s: Sys, s2: Sys, gone: set<Path>, token: Token, names: seq<Name>)
    requires WorldOk(w) && Core(w, s, gone, None, {}, {token.job.filename})
    requires Visited(w, token.job.filename) && !HasToken(s, token.job.filename)
    requires Lists(w.fs0, token.job.filename, names)
    requires s2 == s.(tokens := s.tokens + [token], log := s.log + NotesFor(token.job.filename, names))
    ensures forall n :: n in names ==> Fresh(s2, gone, token.job.filename + [n])
  {
    var d := token.job.filename;
    hide WorldOk, Core, Visited;
    NewToken(s, s2, token);
    assert forall a, p :: PendingAt(s2, a, p) <==> PendingAt(s, a, p);
    assert forall p :: Pending(s2, p) <==> Pending(s, p);
    NotesForDirectory(d, names);
    assert forall p :: Announced(s2, p) <==> Announced(s, p);
    hide Core, Visited, HasToken, Pending, Announced, WorldOk, OnHold, PendingAt;
    forall n | n in names ensures Fresh(s2, gone, d + [n]) {
      ChildOf(d, n);
      UntouchedChild(w, s, gone, {d}, d, d + [n]);
      assert |d + [n]| == |d| + 1;
    }
  }
}
