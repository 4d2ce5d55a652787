/** The client that keeps lazily compiled modules alive, updating its maps and its connection in place. */
module LazyClient {
  import opened Common
  import opened LazyKeys

  class EventSource {
    const keys: seq<string>
    var open: bool

    constructor (keys: seq<string>)
      ensures this.keys == keys && open
    {
      this.keys, open := keys, true;
    }

    method Close()
      modifies this
      ensures !open
    {
      open := false;
    }
  }

  /** The state that the module keeps, with the connection in use. */
  class Client {
    var activeKeys: map<string, Count>
    /** The keys of activeKeys in the order of the Map. */
    var order: seq<string>
    var errorHandlers: set<nat>
    var activeEventSource: EventSource?
    /** What the disposers returned so far remember, with their timers. */
    var handles: seq<Handle>
    /** Every connection ever opened. */
    ghost var made: seq<EventSource>
    ghost var current: Option<nat>

    ghost predicate Valid()
      reads this
    {
      && (forall i, j :: 0 <= i < j < |made| ==> made[i] != made[j])
      && (activeEventSource == null <==> current == None)
      && (current.Some? ==> current.value < |made| && made[current.value] == activeEventSource)
    }

    ghost function Connections(): (r: seq<Source>)
      reads this, made
      ensures |r| == |made| && forall i :: 0 <= i < |r| ==> r[i] == Source(made[i].keys, made[i].open)
    {
      seq(|made|, i requires 0 <= i < |made| reads this, made => Source(made[i].keys, made[i].open))
    }

    ghost function View(): State
      reads this, made
    {
      State(activeKeys, order, errorHandlers, Connections(), current, handles)
    }

    constructor ()
      ensures Valid() && View() == Initial()
    {
      activeKeys, order, errorHandlers, activeEventSource, handles := map[], [], {}, null, [];
      made, current := [], None;
    }

    method UpdateEventSource()
      requires Valid() && HasActive(View())
      modifies this`activeEventSource, this`made, this`current, made
      ensures Valid() && View() == UpdateSource(old(View())) && fresh(set e | e in made && e !in old(made))
    {
      if activeEventSource != null {
        activeEventSource.Close();
      }
      if |activeKeys| > 0 {
        activeEventSource := new EventSource(order);
        made := made + [activeEventSource];
        current := Some(|made| - 1);
      } else {
        activeEventSource, current := null, None;
      }
      assert Connections() == UpdateSource(old(View())).sources;
    }

    /** Returns the handle of its disposer. */
    method KeepAlive(data: string, onError: nat) returns (h: nat)
      requires Valid() && HasActive(View())
      modifies this, made
      ensures Valid() && View() == Keep(old(View()), data, onError) && h == |old(handles)|
      ensures fresh(set e | e in made && e !in old(made))
    {
      errorHandlers := errorHandlers + {onError};
      var value := if data in activeKeys && activeKeys[data].Number? then activeKeys[data].n else 0;
      order := if data in activeKeys then order else order + [data];
      activeKeys := activeKeys[data := Number(value + 1)];
      h := |handles|;
      handles := handles + [Handle(data, onError, 0, 0)];
      assert View() == Counting(old(View()), data, onError);
      if value == 0 {
        UpdateEventSource();
      }
    }

    /** The disposer of handle h: starts the release timer. */
    method Disposer(h: nat)
      requires Valid() && h < |handles|
      modifies this`errorHandlers, this`handles
      ensures Valid() && View() == DisposeHandle(old(View()), h)
    {
      errorHandlers := errorHandlers - {handles[h].onError};
      handles := handles[h := handles[h].(pending := handles[h].pending + 1)];
    }

    /** A release timer of handle h fires. */
    method Timeout(h: nat)
      requires Valid() && HasActive(View()) && h < |handles| && handles[h].pending > 0
      modifies this, made
      ensures Valid() && View() == FireTimer(old(View()), h) && fresh(set e | e in made && e !in old(made))
    {
      var data := handles[h].data;
      handles := handles[h := Fired(handles[h])];
      hide UpdateSource;
      if data in activeKeys && activeKeys[data] == Number(1) {
        activeKeys, order := activeKeys - {data}, Without(order, data);
        assert Connections() == old(Connections());
        UpdateEventSource();
      } else {
        var c := if data in activeKeys && activeKeys[data].Number? then Number(activeKeys[data].n - 1) else NaN;
        order := if data in activeKeys then order else order + [data];
        activeKeys := activeKeys[data := c];
        assert Connections() == old(Connections());
      }
    }
  }
}
