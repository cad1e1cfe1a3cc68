/**
 * The tagged-union experiment (experiments/variant/include/Profile.h): one
 * fixed array of N entries, each holding a `std::variant` value. `set<T>`
 * first checks that the entry currently holds alternative `T` and gives up
 * otherwise; a well-typed `set` is equality-gated. `reset` always notifies.
 */
module VariantProfile {
  import opened Values
  import opened Registry

  /** `Entry::operator!=`: compares the current values only. */
  predicate EntryDiffers(a: Entry, b: Entry): (r: bool)
    ensures r ==> a != b
  {
    a.value != b.value
  }

  /** `!=` ignores the names and the defaults: entries that hold the same value never differ. */
  lemma EntryDiffersIgnoresFixedParts(a: Entry, name: string, def: Value)
    ensures !EntryDiffers(a, a.(name := name, defaultValue := def))
    ensures EntryDiffers(a, a.(value := def)) <==> a.value != def
  {
  }

  /** The entry holds the alternative its default was built with. */
  predicate SameAlternative(e: Entry) {
    e.value.KindOf() == e.defaultValue.KindOf()
  }

  /** An entry built by the `Entry(name, def)` constructor holds its default's alternative. */
  lemma MakeEntrySameAlternative(name: string, def: Value)
    ensures SameAlternative(MakeEntry(name, def))
  {
  }

  class Profile {
    const container: array<Entry>
    var listeners: seq<Listener>
    /** Every `onProfile` call made so far, oldest first. */
    ghost var events: seq<Call<Listener, nat, Value>>

    /**
     * The registry has no duplicates, and no entry has changed alternative
     * since construction: `set` only stores a value of the alternative the
     * entry already holds, and `reset` stores the default.
     */
    ghost predicate Valid()
      reads this, container
    {
      && NoDuplicates(listeners)
      && forall i :: 0 <= i < container.Length ==> SameAlternative(container[i])
    }

    /** `Profile(container)`. */
    constructor (entries: seq<Entry>)
      requires forall i :: 0 <= i < |entries| ==> SameAlternative(entries[i])
      ensures Valid()
      ensures container[..] == entries && fresh(container)
      ensures listeners == [] && events == []
    {
      container := new Entry[|entries|](i requires 0 <= i < |entries| => entries[i]);
      listeners := [];
      events := [];
    }

    /** `init(container)`: replaces all N entries. */
    method Init(entries: seq<Entry>)
      requires Valid() && |entries| == container.Length
      requires forall i :: 0 <= i < |entries| ==> SameAlternative(entries[i])
      modifies container
      ensures Valid()
      ensures container[..] == entries
    {
      forall i | 0 <= i < container.Length {
        container[i] := entries[i];
      }
    }

    /** `get(e)`: the variant held by entry `e`. */
    function Get(e: nat): (v: Value)
      requires Valid() && e < container.Length
      reads this, container
      ensures v.KindOf() == container[e].defaultValue.KindOf()
    {
      container[e].value
    }

    /** `get<bool>(e)`: asserts that the entry holds a `bool` and returns it. */
    function GetBool(e: nat): (b: bool)
      requires e < container.Length && container[e].value.KindOf() == BoolKind
      reads container
      ensures container[e].value == B(b)
    {
      container[e].value.b
    }

    /** `get<uint32_t>(e)`: asserts that the entry holds a `uint32_t` and returns it. */
    function GetU32(e: nat): (u: u32)
      requires e < container.Length && container[e].value.KindOf() == U32Kind
      reads container
      ensures container[e].value == U(u)
    {
      container[e].value.u
    }

    /** `get<std::string>(e)`: asserts that the entry holds a string and returns it. */
    function GetStr(e: nat): (s: string)
      requires e < container.Length && container[e].value.KindOf() == StrKind
      reads container
      ensures container[e].value == S(s)
    {
      container[e].value.s
    }

    /** `getName(e)`: the entry's fixed name. */
    function GetName(e: nat): (n: string)
      requires e < container.Length
      reads container
      ensures n == container[e].name
    {
      container[e].name
    }

    /**
     * `set<T>(e, v)`. When entry `e` does not hold alternative `T` the call
     * reports a type mismatch and does nothing else. Otherwise an equal value
     * changes nothing, and a different one is stored and every listener is
     * notified once.
     */
    method Set(e: nat, v: Value) returns (mismatch: bool)
      requires Valid() && e < container.Length
      modifies container, this`events
      ensures Valid()
      ensures mismatch <==> old(container[e].value).KindOf() != v.KindOf()
      ensures mismatch || old(container[e].value) == v ==>
                container[..] == old(container[..]) && events == old(events)
      ensures !mismatch && old(container[e].value) != v ==>
                container[..] == old(container[..])[e := old(container[e]).(value := v)]
                && events == old(events) + Fanout(listeners, e, v)
    {
      var entry := container[e];
      if entry.value.KindOf() != v.KindOf() {
        return true;
      }
      mismatch := false;
      if entry.value != v {
        container[e] := entry.(value := v);
        Notify(e, v);
      }
    }

    /** `reset(e)`: stores the entry's default and notifies every listener, even if nothing changed. */
    method Reset(e: nat)
      requires Valid() && e < container.Length
      modifies container, this`events
      ensures Valid()
      ensures container[..] == old(container[..])[e := old(container[e]).(value := old(container[e]).defaultValue)]
      ensures container[e].value == container[e].defaultValue
      ensures events == old(events) + Fanout(listeners, e, container[e].defaultValue)
    {
      var entry := container[e];
      container[e] := entry.(value := entry.defaultValue);
      Notify(e, entry.defaultValue);
    }

    /** Every index with its current value, ascending. */
    ghost function Slots(): (r: seq<(nat, Value)>)
      reads container
      ensures |r| == container.Length
    {
      seq(container.Length, i requires 0 <= i < container.Length reads container => (i as nat, container[i].value))
    }

    /** `notifyAll()`: one `notify` per index `0..N-1`, ascending, with the current value; no entry changes. */
    method NotifyAll()
      modifies this`events
      ensures events == old(events) + FanoutEach(listeners, Slots())
    {
      ghost var start, slots := events, Slots();
      for i := 0 to container.Length
        invariant events == start + FanoutEach(listeners, slots[..i])
      {
        ghost var before := events;
        Notify(i, container[i].value);
        FanoutEachStep(start, before, events, listeners, slots, i);
      }
      assert slots[..container.Length] == slots;
    }

    /** `subscribe`: appends the listener; the debug build asserts it is not yet registered. */
    method Subscribe(l: Listener)
      requires Valid() && l !in listeners
      modifies this`listeners
      ensures Valid()
      ensures listeners == old(listeners) + [l]
    {
      AppendNoDuplicates(listeners, l);
      listeners := listeners + [l];
    }

    /** `unsubscribe`: erases the first entry equal to the listener, if any. */
    method Unsubscribe(l: Listener)
      requires Valid()
      modifies this`listeners
      ensures Valid()
      ensures listeners == RemoveFirst(old(listeners), l)
      ensures l !in listeners
    {
      RemoveFirstNoDuplicates(listeners, l);
      var i := Find(listeners, l);
      if i < |listeners| {
        RemoveFirstSplit(listeners, l, i);
        listeners := listeners[..i] + listeners[i + 1..];
      }
    }

    /** `notify(e, value)`: one `onProfile(e, value)` call on each listener, in registry order. */
    method Notify(e: nat, value: Value)
      modifies this`events
      ensures events == old(events) + Fanout(listeners, e, value)
    {
      var calls := Dispatch(listeners, e, value);
      events := events + calls;
    }
  }

  /** `Profile::Listener`: subscribes on construction and unsubscribes on destruction. */
  class Listener {
    const profile: Profile
    const name: string

    constructor (profile: Profile, name: string)
      requires profile.Valid()
      modifies profile`listeners
      ensures this.profile == profile && this.name == name
      ensures profile.Valid()
      ensures profile.listeners == old(profile.listeners) + [this]
    {
      this.profile := profile;
      this.name := name;
      new;
      profile.Subscribe(this);
    }

    /** The destructor: afterwards the listener is no longer registered. */
    method Destroy()
      requires profile.Valid()
      modifies profile`listeners
      ensures profile.Valid()
      ensures profile.listeners == RemoveFirst(old(profile.listeners), this)
      ensures this !in profile.listeners
    {
      profile.Unsubscribe(this);
    }
  }
}
