/** The reference counts that keep lazily compiled modules alive, as a state machine over calls of
    keepAlive, of the disposers it returns, and timer firings. */
module LazyKeys {
  import opened Common

  /** A stored count; taking one from a missing or unusable count leaves NaN. */
  datatype Count = Number(n: int) | NaN

  /** A connection to the server and the keys in its address. */
  datatype Source = Source(keys: seq<string>, open: bool)

  /** One call of keepAlive: how many of its release timers are running, and how many have fired. */
  datatype Handle = Handle(data: string, onError: nat, pending: nat, fired: nat)

  /** order lists the keys of counts in the order of the Map. */
  datatype State = State(counts: map<string, Count>, order: seq<string>, errorHandlers: set<nat>,
                         sources: seq<Source>, active: Option<nat>, handles: seq<Handle>)

  datatype Event = KeepAlive(data: string, onError: nat) | Dispose(handle: nat) | Fire(handle: nat)

  function Initial(): State {
    State(map[], [], {}, [], None, [])
  }

  // ---------- the steps ----------

  predicate HasActive(s: State) {
    s.active.Some? ==> s.active.value < |s.sources|
  }

  /** updateEventSource */
  function UpdateSource(s: State): State
    requires HasActive(s)
  {
    var sources :=
      if s.active.Some? then s.sources[s.active.value := s.sources[s.active.value].(open := false)] else s.sources;
    if |s.counts| > 0 then s.(sources := sources + [Source(s.order, true)], active := Some(|sources|))
    else s.(sources := sources, active := None)
  }

  /** activeKeys.get(data) || 0 */
  function CountOf(s: State, data: string): int {
    if data in s.counts && s.counts[data].Number? then s.counts[data].n else 0
  }

  /** activeKeys.set */
  function SetCount(s: State, data: string, c: Count): State {
    s.(counts := s.counts[data := c], order := if data in s.counts then s.order else s.order + [data])
  }

  /** activeKeys.delete */
  function DeleteKey(s: State, data: string): State {
    s.(counts := s.counts - {data}, order := Without(s.order, data))
  }

  function Counting(s: State, data: string, onError: nat): State {
    SetCount(s.(errorHandlers := s.errorHandlers + {onError}, handles := s.handles + [Handle(data, onError, 0, 0)]),
             data, Number(CountOf(s, data) + 1))
  }

  function Keep(s: State, data: string, onError: nat): State
    requires HasActive(s)
  {
    if CountOf(s, data) == 0 then UpdateSource(Counting(s, data, onError)) else Counting(s, data, onError)
  }

  function DisposeHandle(s: State, h: nat): State
    requires h < |s.handles|
  {
    s.(errorHandlers := s.errorHandlers - {s.handles[h].onError},
       handles := s.handles[h := s.handles[h].(pending := s.handles[h].pending + 1)])
  }

  function Fired(x: Handle): Handle
    requires x.pending > 0
  {
    x.(pending := x.pending - 1, fired := x.fired + 1)
  }

  function FireTimer(s: State, h: nat): State
    requires HasActive(s) && h < |s.handles| && s.handles[h].pending > 0
  {
    var data := s.handles[h].data;
    var s1 := s.(handles := s.handles[h := Fired(s.handles[h])]);
    if data in s.counts && s.counts[data] == Number(1) then UpdateSource(DeleteKey(s1, data))
    else if data in s.counts && s.counts[data].Number? then SetCount(s1, data, Number(s.counts[data].n - 1))
    else SetCount(s1, data, NaN)
  }

  predicate Enabled(s: State, e: Event) {
    && HasActive(s)
    && match e
       case KeepAlive(_, _) => true
       case Dispose(h) => h < |s.handles|
       case Fire(h) => h < |s.handles| && s.handles[h].pending > 0
  }

  function After(s: State, e: Event): State
    requires Enabled(s, e)
  {
    match e
    case KeepAlive(data, onError) => Keep(s, data, onError)
    case Dispose(h) => DisposeHandle(s, h)
    case Fire(h) => FireTimer(s, h)
  }

  // ---------- what is kept ----------

  /** keepAlives of a key less the release timers that have fired for it. */
  function Balance(hs: seq<Handle>, data: string): int {
    if hs == [] then 0 else Balance(hs[..|hs| - 1], data) + Share(hs[|hs| - 1], data)
  }

  function Share(h: Handle, data: string): int {
    if h.data == data then 1 - h.fired else 0
  }

  /** keepAlives of a key none of whose release timers has fired. */
  function Unreleased(hs: seq<Handle>, data: string): nat {
    if hs == [] then 0
    else Unreleased(hs[..|hs| - 1], data) + if hs[|hs| - 1].data == data && hs[|hs| - 1].fired == 0 then 1 else 0
  }

  /** The count of every key is its balance, and the key is present when that is positive. */
  ghost predicate Counted(s: State) {
    CountedBy(s.counts, s.handles)
  }

  ghost predicate CountedBy(counts: map<string, Count>, hs: seq<Handle>) {
    forall k :: CountRight(counts, hs, k)
  }

  ghost predicate CountRight(counts: map<string, Count>, hs: seq<Handle>, k: string) {
    && Balance(hs, k) >= 0
    && (k in counts <==> Balance(hs, k) > 0)
    && (k in counts ==> counts[k] == Number(Balance(hs, k)))
  }

  ghost predicate Listed(s: State) {
    && (forall k :: k in s.order <==> k in s.counts)
    && forall i, j :: 0 <= i < j < |s.order| ==> s.order[i] != s.order[j]
  }

  /** At most one connection is open: the active one, on exactly the present keys; none without keys. */
  ghost predicate Connected(s: State) {
    && (forall j :: 0 <= j < |s.sources| ==> (s.sources[j].open <==> s.active == Some(j)))
    && (s.active.Some? <==> s.counts != map[])
    && (s.active.Some? ==> s.active.value < |s.sources| && s.sources[s.active.value].keys == s.order)
  }

  ghost predicate Good(s: State) {
    Counted(s) && Listed(s) && Connected(s)
  }

  /** At most one release timer of each handle has fired. */
  ghost predicate FiredOnce(hs: seq<Handle>) {
    forall h :: 0 <= h < |hs| ==> hs[h].fired <= 1
  }

  /** A key's count is the number of its keepAlives none of whose timers has fired, the key is present
      exactly when there are any, and the one open connection, if there are keys, is on exactly the
      present keys. */
  ghost predicate Right(s: State) {
    && (forall k :: k in s.counts <==> Unreleased(s.handles, k) > 0)
    && (forall k :: k in s.counts ==> s.counts[k] == Number(Unreleased(s.handles, k)))
    && (forall j :: 0 <= j < |s.sources| && s.sources[j].open ==>
          s.active == Some(j) && forall k :: k in s.sources[j].keys <==> k in s.counts)
    && (s.counts != map[] <==> exists j :: 0 <= j < |s.sources| && s.sources[j].open)
  }

  // ---------- balances ----------

  lemma {:induction false} BalanceChange(hs: seq<Handle>, h: nat, x: Handle, data: string)
    requires h < |hs|
    ensures Balance(hs[h := x], data) == Balance(hs, data) - Share(hs[h], data) + Share(x, data)
    decreases |hs|
  {
    var hs' := hs[h := x];
    if h < |hs| - 1 {
      BalanceChange(hs[..|hs| - 1], h, x, data);
      assert hs'[..|hs| - 1] == hs[..|hs| - 1][h := x];
    } else {
      assert hs'[..|hs| - 1] == hs[..|hs| - 1];
    }
  }

  lemma BalanceMore(hs: seq<Handle>, x: Handle, data: string)
    ensures Balance(hs + [x], data) == Balance(hs, data) + Share(x, data)
  {
    assert (hs + [x])[..|hs|] == hs;
  }

  /** The balance never exceeds the unreleased handles, and meets them exactly when no timer of a handle
      of the key has fired twice. */
  lemma {:induction false} BalanceIsUnreleased(hs: seq<Handle>, data: string)
    ensures Balance(hs, data) <= Unreleased(hs, data)
    ensures Balance(hs, data) == Unreleased(hs, data) <==>
      forall h :: 0 <= h < |hs| && hs[h].data == data ==> hs[h].fired <= 1
    decreases |hs|
  {
    if hs != [] {
      var init := hs[..|hs| - 1];
      BalanceIsUnreleased(init, data);
      assert forall h :: 0 <= h < |init| ==> init[h] == hs[h];
    }
  }

  lemma {:induction false} UnreleasedAt(hs: seq<Handle>, h: nat)
    requires h < |hs| && hs[h].fired == 0
    ensures Unreleased(hs, hs[h].data) > 0
    decreases |hs|
  {
    if h < |hs| - 1 {
      UnreleasedAt(hs[..|hs| - 1], h);
    }
  }

  // ---------- the steps keep the invariant ----------

  lemma {:induction false} WithoutHas(order: seq<string>, data: string)
    requires forall i, j :: 0 <= i < j < |order| ==> order[i] != order[j]
    ensures var r := Without(order, data);
      && (forall k :: k in r <==> k in order && k != data)
      && forall i, j :: 0 <= i < j < |r| ==> r[i] != r[j]
  {
    if order != [] {
      var rest := Without(order[1..], data);
      WithoutHas(order[1..], data);
      assert order == [order[0]] + order[1..];
      assert order[0] !in order[1..];
      assert forall i :: 0 <= i < |rest| ==> rest[i] in rest;
    }
  }

  /** A new connection puts everything right when the counts are. */
  lemma Reconnected(s: State)
    requires HasActive(s)
    requires forall j :: 0 <= j < |s.sources| ==> (s.sources[j].open <==> s.active == Some(j))
    ensures var s' := UpdateSource(s);
      && Connected(s') && s'.counts == s.counts && s'.order == s.order && s'.handles == s.handles
      && s'.errorHandlers == s.errorHandlers
  {
  }

  /** When keepAlive opens a connection: exactly when the key has no count other than 0 yet. Then the new one
      is on the keys there are now, in their order. */
  lemma KeepConnectsIff(s: State, data: string, onError: nat)
    requires HasActive(s)
    ensures var s' := Keep(s, data, onError);
      if data in s.counts && s.counts[data].Number? && s.counts[data].n != 0 then
        s'.sources == s.sources && s'.active == s.active && s'.order == s.order
      else
        && |s'.sources| == |s.sources| + 1 && s'.active == Some(|s.sources|)
        && s'.sources[|s.sources|] == Source(if data in s.counts then s.order else s.order + [data], true)
  {
  }

  /** When a release timer touches the connection: exactly when it takes the last count of a key. A disposer
      never does. */
  lemma FireConnectsIff(s: State, h: nat)
    requires HasActive(s) && h < |s.handles|
    ensures var s' := DisposeHandle(s, h);
      s'.sources == s.sources && s'.active == s.active && s'.counts == s.counts
    ensures s.handles[h].pending > 0 ==>
      var s', data := FireTimer(s, h), s.handles[h].data;
      if data in s.counts && s.counts[data] == Number(1) then
        && data !in s'.counts
        && (if s.counts.Keys == {data} then s'.active == None && |s'.sources| == |s.sources|
            else s'.active == Some(|s.sources|) && |s'.sources| == |s.sources| + 1)
      else s'.sources == s.sources && s'.active == s.active && data in s'.counts
  {
    if s.handles[h].pending > 0 {
      var data := s.handles[h].data;
      if data in s.counts && s.counts[data] == Number(1) {
        var rest := s.counts - {data};
        assert rest.Keys == s.counts.Keys - {data} && |rest| == |rest.Keys|;
        if rest.Keys == {} {
          assert s.counts.Keys == {data};
        }
      }
    }
  }

  lemma KeepCounted(s: State, data: string, onError: nat)
    requires Counted(s)
    ensures Counted(Counting(s, data, onError))
    ensures CountOf(s, data) == 0 <==> data !in s.counts
  {
    assert CountRight(s.counts, s.handles, data);
    forall k ensures CountRight(Counting(s, data, onError).counts, Counting(s, data, onError).handles, k) {
      BalanceMore(s.handles, Handle(data, onError, 0, 0), k);
      assert CountRight(s.counts, s.handles, k);
    }
  }

  lemma KeepListed(s: State, data: string, onError: nat)
    requires Listed(s) && Connected(s)
    ensures var s1 := Counting(s, data, onError);
      && Listed(s1) && HasActive(s1) && s1.sources == s.sources && s1.active == s.active
      && (data in s.counts ==> Connected(s1))
  {
  }

  lemma KeepGood(s: State, data: string, onError: nat)
    requires Good(s)
    ensures HasActive(s) && Good(Keep(s, data, onError))
  {
    KeepCounted(s, data, onError);
    KeepListed(s, data, onError);
    var s1 := Counting(s, data, onError);
    assert forall j :: 0 <= j < |s.sources| ==> (s.sources[j].open <==> s.active == Some(j));
    hide Counting, CountRight;
    if CountOf(s, data) == 0 {
      Reconnected(s1);
    }
  }

  lemma DisposeGood(s: State, h: nat)
    requires Good(s) && h < |s.handles|
    ensures Good(DisposeHandle(s, h))
  {
    var s' := DisposeHandle(s, h);
    forall k ensures CountRight(s'.counts, s'.handles, k) {
      BalanceChange(s.handles, h, s.handles[h].(pending := s.handles[h].pending + 1), k);
      assert CountRight(s.counts, s.handles, k);
    }
  }

  /** A timer keeps everything right, if and only if it fires while the key of its handle is in balance. */
  lemma FireGoodIff(s: State, h: nat)
    requires Good(s) && h < |s.handles| && s.handles[h].pending > 0
    ensures HasActive(s) && (Good(FireTimer(s, h)) <==> Balance(s.handles, s.handles[h].data) > 0)
  {
    var data, hs := s.handles[h].data, s.handles[h := Fired(s.handles[h])];
    assert CountRight(s.counts, s.handles, data);
    if Balance(s.handles, data) > 0 {
      forall k ensures Balance(hs, k) == Balance(s.handles, k) - if k == data then 1 else 0 {
        BalanceChange(s.handles, h, Fired(s.handles[h]), k);
      }
      if s.counts[data] == Number(1) {
        FireLast(s, h, hs);
      } else {
        FireCount(s, h, hs);
      }
    } else {
      assert !CountRight(FireTimer(s, h).counts, FireTimer(s, h).handles, data);
    }
  }

  lemma FireLast(s: State, h: nat, hs: seq<Handle>)
    requires Good(s) && h < |s.handles| && s.handles[h].pending > 0
    requires hs == s.handles[h := Fired(s.handles[h])]
    requires s.handles[h].data in s.counts && s.counts[s.handles[h].data] == Number(1)
    requires forall k :: Balance(hs, k) == Balance(s.handles, k) - if k == s.handles[h].data then 1 else 0
    ensures HasActive(s) && Good(FireTimer(s, h))
  {
    var data := s.handles[h].data;
    var s2 := DeleteKey(s.(handles := hs), data);
    assert FireTimer(s, h) == UpdateSource(s2);
    hide *;
    Deleted(s, hs, data);
    Reconnected(s2);
    GoodMade(s2, UpdateSource(s2));
  }

  lemma Deleted(s: State, hs: seq<Handle>, data: string)
    requires Good(s) && data in s.counts && s.counts[data] == Number(1)
    requires forall k :: Balance(hs, k) == Balance(s.handles, k) - if k == data then 1 else 0
    ensures var s2 := DeleteKey(s.(handles := hs), data);
      && CountedBy(s2.counts, s2.handles) && Listed(s2) && HasActive(s2)
      && forall j :: 0 <= j < |s2.sources| ==> (s2.sources[j].open <==> s2.active == Some(j))
  {
    WithoutHas(s.order, data);
    LastCounted(s.counts, s.handles, hs, data);
    hide CountedBy, Without;
  }

  lemma GoodMade(s: State, s': State)
    requires CountedBy(s.counts, s.handles) && Listed(s) && Connected(s')
    requires s'.counts == s.counts && s'.order == s.order && s'.handles == s.handles
    ensures Good(s')
  {
  }

  lemma FireCount(s: State, h: nat, hs: seq<Handle>)
    requires Good(s) && h < |s.handles| && s.handles[h].pending > 0
    requires hs == s.handles[h := Fired(s.handles[h])]
    requires Balance(s.handles, s.handles[h].data) > 0
    requires s.handles[h].data in s.counts && s.counts[s.handles[h].data] != Number(1)
    requires forall k :: Balance(hs, k) == Balance(s.handles, k) - if k == s.handles[h].data then 1 else 0
    ensures HasActive(s) && Good(FireTimer(s, h))
  {
    LessCounted(s.counts, s.handles, hs, s.handles[h].data);
    hide CountedBy;
  }

  lemma LastCounted(counts: map<string, Count>, hs0: seq<Handle>, hs: seq<Handle>, data: string)
    requires CountedBy(counts, hs0) && data in counts && counts[data] == Number(1)
    requires forall k :: Balance(hs, k) == Balance(hs0, k) - if k == data then 1 else 0
    ensures CountedBy(counts - {data}, hs)
  {
    forall k ensures CountRight(counts - {data}, hs, k) {
      assert CountRight(counts, hs0, k);
    }
  }

  lemma LessCounted(counts: map<string, Count>, hs0: seq<Handle>, hs: seq<Handle>, data: string)
    requires CountedBy(counts, hs0) && data in counts && counts[data] != Number(1)
    requires forall k :: Balance(hs, k) == Balance(hs0, k) - if k == data then 1 else 0
    ensures counts[data].Number? && CountedBy(counts[data := Number(counts[data].n - 1)], hs)
  {
    assert CountRight(counts, hs0, data);
    var counts' := counts[data := Number(counts[data].n - 1)];
    forall k ensures CountRight(counts', hs, k) {
      assert CountRight(counts, hs0, k);
    }
  }

  lemma InitialGood()
    ensures Good(Initial()) && FiredOnce(Initial().handles)
  {
  }

  // ---------- events and handles ----------

  function HandlesAfter(hs: seq<Handle>, e: Event): seq<Handle>
    requires match e
             case KeepAlive(_, _) => true
             case Dispose(h) => h < |hs|
             case Fire(h) => h < |hs| && hs[h].pending > 0
  {
    match e
    case KeepAlive(data, onError) => hs + [Handle(data, onError, 0, 0)]
    case Dispose(h) => hs[h := hs[h].(pending := hs[h].pending + 1)]
    case Fire(h) => hs[h := Fired(hs[h])]
  }

  /** Any interleaving of calls and timers. */
  ghost predicate IsRun(s: State, events: seq<Event>, s': State)
    decreases |events|
  {
    if events == [] then s' == s
    else Enabled(s, events[0]) && IsRun(After(s, events[0]), events[1..], s')
  }

  lemma AfterHandles(s: State, e: Event)
    requires Enabled(s, e)
    ensures After(s, e).handles == HandlesAfter(s.handles, e)
  {
  }

  lemma StillOnce(hs: seq<Handle>, e: Event)
    requires match e
             case KeepAlive(_, _) => true
             case Dispose(h) => h < |hs|
             case Fire(h) => h < |hs| && hs[h].pending > 0
    requires FiredOnce(HandlesAfter(hs, e))
    ensures FiredOnce(hs)
  {
    var hs' := HandlesAfter(hs, e);
    forall h | 0 <= h < |hs| ensures hs[h].fired <= 1 {
      assert hs'[h].fired <= 1;
    }
  }

  lemma {:induction false} RunOnce(s: State, events: seq<Event>, s': State)
    requires IsRun(s, events, s') && FiredOnce(s'.handles)
    ensures FiredOnce(s.handles)
    decreases |events|
  {
    if events != [] {
      RunOnce(After(s, events[0]), events[1..], s');
      AfterHandles(s, events[0]);
      StillOnce(s.handles, events[0]);
    }
  }

  /** The second timer of a handle. */
  ghost predicate FiresAgain(s: State, e: Event) {
    e.Fire? && e.handle < |s.handles| && s.handles[e.handle].fired > 0
  }

  lemma StepGood(s: State, e: Event)
    requires Good(s) && Enabled(s, e) && FiredOnce(s.handles) && !FiresAgain(s, e)
    ensures Good(After(s, e)) && FiredOnce(After(s, e).handles)
  {
    AfterHandles(s, e);
    match e {
      case KeepAlive(data, onError) => KeepGood(s, data, onError);
      case Dispose(h) => DisposeGood(s, h);
      case Fire(h) =>
        UnreleasedAt(s.handles, h);
        BalanceIsUnreleased(s.handles, s.handles[h].data);
        FireGoodIff(s, h);
    }
  }

  lemma GoodIsRight(s: State)
    requires Good(s) && FiredOnce(s.handles)
    ensures Right(s)
  {
    forall k ensures CountRight(s.counts, s.handles, k) && Balance(s.handles, k) == Unreleased(s.handles, k) {
      BalanceIsUnreleased(s.handles, k);
    }
    if s.counts != map[] {
      assert s.sources[s.active.value].open;
    }
  }

  lemma {:induction false} SameReleased(hs: seq<Handle>, h: nat, x: Handle, data: string)
    requires h < |hs| && x.data == hs[h].data && hs[h].fired > 0 && x.fired > 0
    ensures Unreleased(hs[h := x], data) == Unreleased(hs, data)
    decreases |hs|
  {
    var hs' := hs[h := x];
    if h < |hs| - 1 {
      SameReleased(hs[..|hs| - 1], h, x, data);
      assert hs'[..|hs| - 1] == hs[..|hs| - 1][h := x];
    } else {
      assert hs'[..|hs| - 1] == hs[..|hs| - 1];
    }
  }

  /** The second timer of a handle takes a count that is not its own: of another keepAlive of the key, or
      of none, which leaves NaN. */
  lemma FiringAgainIsWrong(s: State, e: Event)
    requires Good(s) && Enabled(s, e) && FiredOnce(s.handles) && FiresAgain(s, e)
    ensures !Right(After(s, e)) && !FiredOnce(After(s, e).handles)
  {
    var h := e.handle;
    var data, s' := s.handles[h].data, FireTimer(s, h);
    AfterHandles(s, e);
    assert s'.handles[h].fired == 2;
    SameReleased(s.handles, h, Fired(s.handles[h]), data);
    BalanceIsUnreleased(s.handles, data);
    assert CountRight(s.counts, s.handles, data);
    if Balance(s.handles, data) > 0 {
      FireGoodIff(s, h);
      BalanceChange(s.handles, h, Fired(s.handles[h]), data);
      assert CountRight(s'.counts, s'.handles, data);
    } else {
      assert s'.counts[data] == NaN;
    }
  }

  // ---------- runs ----------

  /** Everything is right in every state that the events lead through. */
  ghost predicate RightThroughout(s: State, events: seq<Event>)
    decreases |events|
  {
    Right(s) && (events == [] || (Enabled(s, events[0]) && RightThroughout(After(s, events[0]), events[1..])))
  }

  lemma {:induction false} RightFromIff(s: State, events: seq<Event>, s': State)
    requires Good(s) && FiredOnce(s.handles) && IsRun(s, events, s')
    ensures RightThroughout(s, events) <==> FiredOnce(s'.handles)
    ensures FiredOnce(s'.handles) ==> Good(s')
    decreases |events|
  {
    GoodIsRight(s);
    if events != [] {
      var e, s1 := events[0], After(s, events[0]);
      hide Good, Right, FiresAgain, FiredOnce, Enabled;
      if FiresAgain(s, e) {
        FiringAgainIsWrong(s, e);
        WrongAtOnce(s1, events[1..]);
        if FiredOnce(s'.handles) {
          RunOnce(s1, events[1..], s');
        }
      } else {
        StepGood(s, e);
        RightFromIff(s1, events[1..], s');
      }
    }
  }

  lemma WrongAtOnce(s: State, events: seq<Event>)
    requires !Right(s)
    ensures !RightThroughout(s, events)
  {
  }

  /** For every interleaving of calls and timers: counts, keys and connection are right all along, if and
      only if no two release timers of one handle have fired. */
  lemma RightThroughoutIff(events: seq<Event>, s: State)
    requires IsRun(Initial(), events, s)
    ensures RightThroughout(Initial(), events) <==> FiredOnce(s.handles)
  {
    InitialGood();
    hide Good, IsRun, RightThroughout, FiredOnce, Initial;
    RightFromIff(Initial(), events, s);
  }

  /** So they are at the end of every such interleaving. */
  lemma EveryInterleaving(events: seq<Event>, s: State)
    requires IsRun(Initial(), events, s) && FiredOnce(s.handles)
    ensures Right(s)
  {
    InitialGood();
    hide Good, IsRun, RightThroughout, FiredOnce, Initial, Right;
    RightFromIff(Initial(), events, s);
    GoodIsRight(s);
  }

  // ---------- what a caller controls ----------

  /** How often the disposer of h is called. */
  function Disposals(events: seq<Event>, h: nat): nat {
    if events == [] then 0 else (if events[0] == Dispose(h) then 1 else 0) + Disposals(events[1..], h)
  }

  /** The release timers a handle has, running or fired. */
  function Timers(hs: seq<Handle>, h: nat): nat {
    if h < |hs| then hs[h].pending + hs[h].fired else 0
  }

  lemma {:induction false} TimersStarted(s: State, events: seq<Event>, s': State, h: nat)
    requires IsRun(s, events, s')
    ensures Timers(s'.handles, h) == Timers(s.handles, h) + Disposals(events, h)
    decreases |events|
  {
    if events != [] {
      AfterHandles(s, events[0]);
      hide After;
      TimersStarted(After(s, events[0]), events[1..], s', h);
    }
  }

  predicate OnlyTimers(events: seq<Event>) {
    forall i :: 0 <= i < |events| ==> events[i].Fire?
  }

  /** Calls and timers have been right, and stay so whichever timers fire next. */
  ghost predicate StaysRight(events: seq<Event>) {
    forall more, s :: OnlyTimers(more) && IsRun(Initial(), events + more, s) ==>
      RightThroughout(Initial(), events + more)
  }

  lemma {:induction false} NoDisposals(more: seq<Event>, h: nat)
    requires OnlyTimers(more)
    ensures Disposals(more, h) == 0
  {
    if more != [] {
      assert more[0].Fire?;
      NoDisposals(more[1..], h);
    }
  }

  lemma {:induction false} DisposalsOf(events: seq<Event>, more: seq<Event>, h: nat)
    ensures Disposals(events + more, h) == Disposals(events, h) + Disposals(more, h)
  {
    if events == [] {
      assert events + more == more;
    } else {
      DisposalsOf(events[1..], more, h);
      assert (events + more)[1..] == events[1..] + more;
    }
  }

  lemma {:induction false} RunFurther(s: State, events: seq<Event>, s1: State, more: seq<Event>, s2: State)
    requires IsRun(s, events, s1) && IsRun(s1, more, s2)
    ensures IsRun(s, events + more, s2)
    decreases |events|
  {
    hide *;
    FirstEvent(s, events, s1);
    if events == [] {
      assert events + more == more;
    } else {
      var e, rest := events[0], events[1..];
      assert events + more == [e] + (rest + more);
      RunFurther(After(s, e), rest, s1, more, s2);
      Chain(s, e, rest + more, s2);
    }
  }

  lemma FirstEvent(s: State, events: seq<Event>, s': State)
    requires IsRun(s, events, s')
    ensures if events == [] then s' == s else Enabled(s, events[0]) && IsRun(After(s, events[0]), events[1..], s')
  {
  }

  /** A caller that calls no disposer twice is safe, whatever the interleaving. */
  lemma DisposedOnceIsRight(events: seq<Event>, s: State)
    requires IsRun(Initial(), events, s) && forall h :: Disposals(events, h) <= 1
    ensures RightThroughout(Initial(), events)
  {
    forall h | 0 <= h < |s.handles| ensures s.handles[h].fired <= 1 {
      TimersStarted(Initial(), events, s, h);
      assert Disposals(events, h) <= 1;
    }
    hide *;
    assert FiredOnce(s.handles) by {
      TheseOnce(s.handles);
    }
    RightThroughoutIff(events, s);
  }

  lemma TheseOnce(hs: seq<Handle>)
    requires forall h :: 0 <= h < |hs| ==> hs[h].fired <= 1
    ensures FiredOnce(hs)
  {
  }

  /** Two timers of one handle can both fire, and then something is wrong. */
  lemma TwoTimersFire(events: seq<Event>, s: State, h: nat) returns (more: seq<Event>, s': State)
    requires IsRun(Initial(), events, s) && Timers(s.handles, h) >= 2
    ensures OnlyTimers(more) && IsRun(Initial(), events + more, s') && !FiredOnce(s'.handles)
  {
    if !FiredOnce(s.handles) {
      assert events + [] == events;
      return [], s;
    }
    InitialGood();
    RightFromIff(Initial(), events, s);
    var e := Fire(h);
    StillRunning(s, h);
    if s.handles[h].fired == 1 {
      FiringAgainIsWrong(s, e);
      more, s' := [e], After(s, e);
      TimerFires(s, e);
      hide *;
      RunFurther(Initial(), events, s, more, s');
    } else {
      AfterHandles(s, e);
      StepGood(s, e);
      var s1 := After(s, e);
      StillRunning(s1, h);
      FiringAgainIsWrong(s1, e);
      more, s' := [e, e], After(s1, e);
      TimersFire(s, e);
      hide *;
      RunFurther(Initial(), events, s, more, s');
    }
  }

  lemma StillRunning(s: State, h: nat)
    requires Good(s) && FiredOnce(s.handles) && Timers(s.handles, h) >= 2
    ensures h < |s.handles| && s.handles[h].pending > 0 && Enabled(s, Fire(h))
  {
  }

  lemma TimerFires(s: State, e: Event)
    requires Enabled(s, e) && e.Fire?
    ensures IsRun(s, [e], After(s, e)) && OnlyTimers([e])
  {
  }

  lemma TimersFire(s: State, e: Event)
    requires Enabled(s, e) && e.Fire? && Enabled(After(s, e), e)
    ensures IsRun(s, [e, e], After(After(s, e), e)) && OnlyTimers([e, e])
  {
    TimerFires(After(s, e), e);
    assert [e, e][1..] == [e];
  }

  /** In terms of the calls alone: a run is right and stays so whichever of its timers fire, if and only if
      no disposer in it is called twice. */
  lemma DisposedOnceIff(events: seq<Event>, s: State)
    requires IsRun(Initial(), events, s)
    ensures StaysRight(events) <==> forall h :: Disposals(events, h) <= 1
  {
    if forall h :: Disposals(events, h) <= 1 {
      forall more, s' | OnlyTimers(more) && IsRun(Initial(), events + more, s')
        ensures RightThroughout(Initial(), events + more)
      {
        forall h ensures Disposals(events + more, h) <= 1 {
          NoDisposals(more, h);
          DisposalsOf(events, more, h);
        }
        hide *;
        DisposedOnceIsRight(events + more, s');
      }
    } else {
      var h :| Disposals(events, h) > 1;
      TimersStarted(Initial(), events, s, h);
      var more, s' := TwoTimersFire(events, s, h);
      RightThroughoutIff(events + more, s');
    }
  }

  // ---------- error handlers ----------

  /** No two calls pass the same error handler. */
  ghost predicate OwnHandlers(hs: seq<Handle>) {
    forall i, j :: 0 <= i < j < |hs| ==> hs[i].onError != hs[j].onError
  }

  /** Registered are exactly the error handlers of the calls not disposed of. */
  ghost predicate Registered(s: State) {
    && (forall f :: f in s.errorHandlers ==> exists h :: 0 <= h < |s.handles| && s.handles[h].onError == f)
    && forall h :: 0 <= h < |s.handles| ==>
         (s.handles[h].onError in s.errorHandlers <==> s.handles[h].pending + s.handles[h].fired == 0)
  }

  lemma StepRegistered(s: State, e: Event)
    requires Registered(s) && Enabled(s, e) && OwnHandlers(After(s, e).handles)
    ensures Registered(After(s, e))
  {
    var s' := After(s, e);
    AfterHandles(s, e);
    AfterHandlers(s, e);
    hide After;
    assert |s.handles| <= |s'.handles| && forall h :: 0 <= h < |s.handles| ==>
      s'.handles[h].onError == s.handles[h].onError;
    forall f | f in s'.errorHandlers ensures exists h :: 0 <= h < |s'.handles| && s'.handles[h].onError == f {
      if f in s.errorHandlers {
        var h :| 0 <= h < |s.handles| && s.handles[h].onError == f;
        assert s'.handles[h].onError == f;
      } else {
        assert s'.handles[|s.handles|].onError == f;
      }
    }
    forall h | 0 <= h < |s'.handles|
      ensures s'.handles[h].onError in s'.errorHandlers <==> s'.handles[h].pending + s'.handles[h].fired == 0
    {
      if h < |s.handles| {
        assert s.handles[h].onError in s.errorHandlers <==> s.handles[h].pending + s.handles[h].fired == 0;
        assert e.KeepAlive? ==> s'.handles[|s.handles|].onError != s'.handles[h].onError;
        assert e.Dispose? && h != e.handle ==> s'.handles[e.handle].onError != s'.handles[h].onError;
      }
    }
  }

  lemma AfterHandlers(s: State, e: Event)
    requires Enabled(s, e)
    ensures After(s, e).errorHandlers ==
      match e
      case KeepAlive(_, f) => s.errorHandlers + {f}
      case Dispose(h) => s.errorHandlers - {s.handles[h].onError}
      case Fire(_) => s.errorHandlers
  {
  }

  lemma {:induction false} RunRegistered(s: State, events: seq<Event>, s': State)
    requires IsRun(s, events, s') && OwnHandlers(s'.handles)
    ensures OwnHandlers(s.handles)
    ensures Registered(s) ==> Registered(s')
    decreases |events|
  {
    if events != [] {
      hide Registered;
      RunRegistered(After(s, events[0]), events[1..], s');
      EarlierOwn(s, events[0]);
      if Registered(s) {
        StepRegistered(s, events[0]);
      }
    }
  }

  lemma EarlierOwn(s: State, e: Event)
    requires Enabled(s, e) && OwnHandlers(After(s, e).handles)
    ensures OwnHandlers(s.handles)
  {
    AfterHandles(s, e);
    var hs' := HandlesAfter(s.handles, e);
    assert forall h :: 0 <= h < |s.handles| ==> hs'[h].onError == s.handles[h].onError;
  }

  // ---------- a disposer called twice ----------

  /** One key kept alive by two handles, the first with timers running and fired. */
  function Shared(key: string, count: int, errorHandlers: set<nat>, pending: nat, fired: nat): State {
    State(map[key := Number(count)], [key], errorHandlers, [Source([key], true)], Some(0),
          [Handle(key, 0, pending, fired), Handle(key, 1, 0, 0)])
  }

  function Gone(key: string): State {
    State(map[], [], {1}, [Source([key], false)], None, [Handle(key, 0, 0, 2), Handle(key, 1, 0, 0)])
  }

  /** Two modules keep one key alive; the first is disposed twice: the key goes while the second still
      needs it, and the connection with it. */
  lemma DisposedTwice(key: string)
    ensures var events := [KeepAlive(key, 0), KeepAlive(key, 1), Dispose(0), Dispose(0), Fire(0), Fire(0)];
      IsRun(Initial(), events, Gone(key))
    ensures Gone(key).counts == map[] && Gone(key).active == None && Unreleased(Gone(key).handles, key) == 1
  {
    hide *;
    GoneWhileNeeded(key);
    FirstKeep(key);
    SecondKeep(key);
    BothTimers(key);
    var timers := [Dispose(0), Dispose(0), Fire(0), Fire(0)];
    assert [KeepAlive(key, 1)] + timers == [KeepAlive(key, 1), Dispose(0), Dispose(0), Fire(0), Fire(0)];
    assert [KeepAlive(key, 0)] + [KeepAlive(key, 1), Dispose(0), Dispose(0), Fire(0), Fire(0)]
      == [KeepAlive(key, 0), KeepAlive(key, 1), Dispose(0), Dispose(0), Fire(0), Fire(0)];
    Chain(Once(key), KeepAlive(key, 1), timers, Gone(key));
    Chain(Initial(), KeepAlive(key, 0), [KeepAlive(key, 1), Dispose(0), Dispose(0), Fire(0), Fire(0)], Gone(key));
  }

  lemma GoneWhileNeeded(key: string)
    ensures Gone(key).counts == map[] && Gone(key).active == None && Unreleased(Gone(key).handles, key) == 1
  {
    var first := [Handle(key, 0, 0, 2)];
    assert Gone(key).handles[..1] == first && first[..0] == [];
    assert Unreleased(first, key) == 0;
  }

  lemma BothTimers(key: string)
    ensures IsRun(Shared(key, 2, {0, 1}, 0, 0), [Dispose(0), Dispose(0), Fire(0), Fire(0)], Gone(key))
  {
    hide *;
    assert {0, 1} - {0} == {1} && {1} - {0} == {1};
    DisposeShared(key, {0, 1}, 0);
    DisposeShared(key, {1}, 1);
    BothFire(key);
    assert [Dispose(0)] + [Fire(0), Fire(0)] == [Dispose(0), Fire(0), Fire(0)];
    assert [Dispose(0)] + [Dispose(0), Fire(0), Fire(0)] == [Dispose(0), Dispose(0), Fire(0), Fire(0)];
    Chain(Shared(key, 2, {1}, 1, 0), Dispose(0), [Fire(0), Fire(0)], Gone(key));
    Chain(Shared(key, 2, {0, 1}, 0, 0), Dispose(0), [Dispose(0), Fire(0), Fire(0)], Gone(key));
  }

  lemma BothFire(key: string)
    ensures IsRun(Shared(key, 2, {1}, 2, 0), [Fire(0), Fire(0)], Gone(key))
  {
    hide *;
    FireShared(key);
    LastFire(key);
    Chain(Shared(key, 1, {1}, 1, 1), Fire(0), [], Gone(key));
    assert [Fire(0)] + [] == [Fire(0)] && [Fire(0)] + [Fire(0)] == [Fire(0), Fire(0)];
    Chain(Shared(key, 2, {1}, 2, 0), Fire(0), [Fire(0)], Gone(key));
  }

  function Once(key: string): State {
    State(map[key := Number(1)], [key], {0}, [Source([key], true)], Some(0), [Handle(key, 0, 0, 0)])
  }

  lemma FirstKeep(key: string)
    ensures Enabled(Initial(), KeepAlive(key, 0)) && After(Initial(), KeepAlive(key, 0)) == Once(key)
  {
    var s, s1 := Initial(), Counting(Initial(), key, 0);
    assert s1.counts == map[key := Number(1)] && s1.order == [key] && s1.errorHandlers == {0};
    assert s1.handles == [Handle(key, 0, 0, 0)] && |s1.counts| > 0;
    assert UpdateSource(s1).sources == [Source([key], true)];
  }

  lemma SecondKeep(key: string)
    ensures Enabled(Once(key), KeepAlive(key, 1)) && After(Once(key), KeepAlive(key, 1)) == Shared(key, 2, {0, 1}, 0, 0)
  {
    var s1 := Counting(Once(key), key, 1);
    assert s1.counts == map[key := Number(2)] && s1.errorHandlers == {0, 1};
    assert s1.handles == [Handle(key, 0, 0, 0), Handle(key, 1, 0, 0)];
  }

  lemma DisposeShared(key: string, e: set<nat>, pending: nat)
    ensures var s := Shared(key, 2, e, pending, 0);
      Enabled(s, Dispose(0)) && After(s, Dispose(0)) == Shared(key, 2, e - {0}, pending + 1, 0)
  {
  }

  lemma FireShared(key: string)
    ensures var s := Shared(key, 2, {1}, 2, 0);
      Enabled(s, Fire(0)) && After(s, Fire(0)) == Shared(key, 1, {1}, 1, 1)
  {
    assert map[key := Number(2)][key := Number(1)] == map[key := Number(1)];
  }

  lemma LastFire(key: string)
    ensures var s := Shared(key, 1, {1}, 1, 1);
      Enabled(s, Fire(0)) && After(s, Fire(0)) == Gone(key) && IsRun(Gone(key), [], Gone(key))
  {
    assert Without([key], key) == [];
    assert map[key := Number(1)] - {key} == map[];
  }

  lemma Chain(s: State, e: Event, rest: seq<Event>, s': State)
    requires Enabled(s, e) && IsRun(After(s, e), rest, s')
    ensures IsRun(s, [e] + rest, s')
  {
    assert ([e] + rest)[1..] == rest;
  }
}
