/**
 * The type-erased experiment (experiments/any/include/Profile.h): one fixed
 * array of N entries holding `std::any` values. `set` neither compares nor
 * checks types: it always stores and always notifies. `reset` always
 * notifies as well.
 */
module AnyExperiment {
  import opened Values
  import opened Registry

  class Profile {
    const container: array<Entry>
    var listeners: seq<Listener>
    /** Every `onProfile` call made so far, oldest first. */
    ghost var events: seq<Call<Listener, nat, Value>>

    ghost predicate Valid()
      reads this
    {
      NoDuplicates(listeners)
    }

    /** `Profile(container)`. */
    constructor (entries: seq<Entry>)
      ensures Valid()
      ensures container[..] == entries && fresh(container)
      ensures listeners == [] && events == []
    {
      container := new Entry[|entries|](i requires 0 <= i < |entries| => entries[i]);
      listeners := [];
      events := [];
    }

    /** `init(container)`: replaces all N entries. */
    method Init(entries: seq<Entry>)
      requires |entries| == container.Length
      modifies container
      ensures container[..] == entries
    {
      forall i | 0 <= i < container.Length {
        container[i] := entries[i];
      }
    }

    /** `get(e)`: the value held by entry `e`. */
    function Get(e: nat): (v: Value)
      requires e < container.Length
      reads container
      ensures v == container[e].value
    {
      container[e].value
    }

    /** `getName(e)`: the entry's fixed name. */
    function GetName(e: nat): (n: string)
      requires e < container.Length
      reads container
      ensures n == container[e].name
    {
      container[e].name
    }

    /**
     * `set(e, v)`: stores `v` in entry `e` and notifies every listener, even
     * when the entry already held `v`.
     */
    method Set(e: nat, v: Value)
      requires e < container.Length
      modifies container, this`events
      ensures container[..] == old(container[..])[e := old(container[e]).(value := v)]
      ensures Get(e) == v
      ensures events == old(events) + Fanout(listeners, e, v)
    {
      container[e] := container[e].(value := v);
      Notify(e, v);
    }

    /** `reset(e)`: stores the entry's default and notifies every listener, even if nothing changed. */
    method Reset(e: nat)
      requires e < container.Length
      modifies container, this`events
      ensures container[..] == old(container[..])[e := old(container[e]).(value := old(container[e]).defaultValue)]
      ensures Get(e) == container[e].defaultValue
      ensures events == old(events) + Fanout(listeners, e, container[e].defaultValue)
    {
      var entry := container[e];
      container[e] := entry.(value := entry.defaultValue);
      Notify(e, entry.defaultValue);
    }

    /** Every index with its current value, ascending. */
    ghost function Slots(): (r: seq<(nat, Value)>)
      reads container
      ensures |r| == container.Length
    {
      seq(container.Length, i requires 0 <= i < container.Length reads container => (i as nat, container[i].value))
    }

    /** `notifyAll()`: one `notify` per index `0..N-1`, ascending, with the current value; no entry changes. */
    method NotifyAll()
      modifies this`events
      ensures events == old(events) + FanoutEach(listeners, Slots())
    {
      ghost var start, slots := events, Slots();
      for i := 0 to container.Length
        invariant events == start + FanoutEach(listeners, slots[..i])
      {
        ghost var before := events;
        Notify(i, container[i].value);
        FanoutEachStep(start, before, events, listeners, slots, i);
      }
      assert slots[..container.Length] == slots;
    }

    /** `subscribe`: appends the listener; the debug build asserts it is not yet registered. */
    method Subscribe(l: Listener)
      requires Valid() && l !in listeners
      modifies this`listeners
      ensures Valid()
      ensures listeners == old(listeners) + [l]
    {
      AppendNoDuplicates(listeners, l);
      listeners := listeners + [l];
    }

    /** `unsubscribe`: erases the first entry equal to the listener, if any. */
    method Unsubscribe(l: Listener)
      requires Valid()
      modifies this`listeners
      ensures Valid()
      ensures listeners == RemoveFirst(old(listeners), l)
      ensures l !in listeners
    {
      RemoveFirstNoDuplicates(listeners, l);
      var i := Find(listeners, l);
      if i < |listeners| {
        RemoveFirstSplit(listeners, l, i);
        listeners := listeners[..i] + listeners[i + 1..];
      }
    }

    /** `notify(e, value)`: one `onProfile(e, value)` call on each listener, in registry order. */
    method Notify(e: nat, value: Value)
      modifies this`events
      ensures events == old(events) + Fanout(listeners, e, value)
    {
      var calls := Dispatch(listeners, e, value);
      events := events + calls;
    }
  }

  /** `Profile::Listener`: subscribes on construction and unsubscribes on destruction. */
  class Listener {
    const profile: Profile
    const name: string

    constructor (profile: Profile, name: string)
      requires profile.Valid()
      modifies profile`listeners
      ensures this.profile == profile && this.name == name
      ensures profile.Valid()
      ensures profile.listeners == old(profile.listeners) + [this]
    {
      this.profile := profile;
      this.name := name;
      new;
      profile.Subscribe(this);
    }

    /** The destructor: afterwards the listener is no longer registered. */
    method Destroy()
      requires profile.Valid()
      modifies profile`listeners
      ensures profile.Valid()
      ensures profile.listeners == RemoveFirst(old(profile.listeners), this)
      ensures this !in profile.listeners
    {
      profile.Unsubscribe(this);
    }
  }
}
