/**
 * The type-erased library (any/include/Profile.h): one fixed array of N
 * `EnumType` entries holding `std::any` values. `set` neither compares nor
 * checks types: it always stores and always notifies. `notifyAll` walks the
 * enumerators `0..Enum::Count-1`. The listener is a class template of its
 * own rather than a nested class, with the same lifecycle.
 */
module AnyProfile {
  import opened Values
  import opened Registry

  class Profile {
    const container: array<Entry>
    var listeners: seq<Listener>
    /** Every `onProfile` call made so far, oldest first. */
    ghost var events: seq<Call<Listener, nat, Value>>

    ghost predicate Valid()
      reads this
    {
      NoDuplicates(listeners)
    }

    /** `Profile(container)`: the only constructor. */
    constructor (entries: seq<Entry>)
      ensures Valid()
      ensures container[..] == entries && fresh(container)
      ensures listeners == [] && events == []
    {
      container := new Entry[|entries|](i requires 0 <= i < |entries| => entries[i]);
      listeners := [];
      events := [];
    }

    /** `get(e)`: the value held by entry `e`. */
    function Get(e: nat): (v: Value)
      requires e < container.Length
      reads container
      ensures v == container[e].value
    {
      container[e].value
    }

    /**
     * `set(e, v)`: stores `v` in entry `e` and notifies every listener, even
     * when the entry already held `v`.
     */
    method Set(e: nat, v: Value)
      requires e < container.Length
      modifies container, this`events
      ensures container[..] == old(container[..])[e := old(container[e]).(value := v)]
      ensures Get(e) == v
      ensures events == old(events) + Fanout(listeners, e, v)
    {
      container[e] := container[e].(value := v);
      Notify(e, v);
    }

    /** The enumerators `0..count-1` with their current values, ascending. */
    ghost function Slots(count: nat): (r: seq<(nat, Value)>)
      requires count <= container.Length
      reads container
      ensures |r| == count
    {
      seq(count, i requires 0 <= i < count <= container.Length reads container => (i as nat, container[i].value))
    }

    /**
     * `notifyAll()`: one `notify` per enumerator `0..Enum::Count-1`,
     * ascending, with the current value; no entry changes.
     */
    method NotifyAll(count: nat)
      requires count <= container.Length
      modifies this`events
      ensures events == old(events) + FanoutEach(listeners, Slots(count))
    {
      ghost var start, slots := events, Slots(count);
      for i := 0 to count
        invariant events == start + FanoutEach(listeners, slots[..i])
      {
        var value := Get(i);
        ghost var before := events;
        Notify(i, value);
        FanoutEachStep(start, before, events, listeners, slots, i);
      }
      assert slots[..count] == slots;
    }

    /** `subscribe`: appends the listener; the debug build asserts it is not yet registered. */
    method Subscribe(l: Listener)
      requires Valid() && l !in listeners
      modifies this`listeners
      ensures Valid()
      ensures listeners == old(listeners) + [l]
    {
      AppendNoDuplicates(listeners, l);
      listeners := listeners + [l];
    }

    /** `unsubscribe`: erases the first entry equal to the listener, if any. */
    method Unsubscribe(l: Listener)
      requires Valid()
      modifies this`listeners
      ensures Valid()
      ensures listeners == RemoveFirst(old(listeners), l)
      ensures l !in listeners
    {
      RemoveFirstNoDuplicates(listeners, l);
      var i := Find(listeners, l);
      if i < |listeners| {
        RemoveFirstSplit(listeners, l, i);
        listeners := listeners[..i] + listeners[i + 1..];
      }
    }

    /** `notify(e, value)`: one `onProfile(e, value)` call on each listener, in registry order. */
    method Notify(e: nat, value: Value)
      modifies this`events
      ensures events == old(events) + Fanout(listeners, e, value)
    {
      var calls := Dispatch(listeners, e, value);
      events := events + calls;
    }
  }

  /** `Listener<Enum, N>`: subscribes on construction and unsubscribes on destruction. */
  class Listener {
    const profile: Profile
    const name: string

    constructor (profile: Profile, name: string)
      requires profile.Valid()
      modifies profile`listeners
      ensures this.profile == profile && this.name == name
      ensures profile.Valid()
      ensures profile.listeners == old(profile.listeners) + [this]
    {
      this.profile := profile;
      this.name := name;
      new;
      profile.Subscribe(this);
    }

    /** The destructor: afterwards the listener is no longer registered. */
    method Destroy()
      requires profile.Valid()
      modifies profile`listeners
      ensures profile.Valid()
      ensures profile.listeners == RemoveFirst(old(profile.listeners), this)
      ensures this !in profile.listeners
    {
      profile.Unsubscribe(this);
    }
  }
}
