/**
 * The tuple-dispatch prototype (src/Profile.h, with the registry of
 * `ProfileInternal` in strong/src/Profile.cpp): a tuple of `EnumArray`s of
 * plain values. `get` reads the first array whose enum type is the
 * enumerator's; `set` folds `setToTuple` over every array, writing each one
 * of that enum type whose slot differs. `notify` walks the registry, but
 * the callback in its loop is commented out, so no listener is ever called.
 */
module SrcProfile {
  import opened Values
  import opened Registry

  /** An enumerator: the tag of its enum type and its underlying value. */
  datatype Key = Key(tag: nat, index: nat)

  /** `EnumArray<Enum, T, N>`: the enum type it is indexed by, its value type and its N values. */
  datatype EnumArray = EnumArray(tag: nat, kind: Kind, values: seq<Value>)
  {
    /** `operator[](e)`: the value at the enumerator's underlying index. */
    function At(index: nat): (v: Value)
      requires index < |values|
      ensures v in values
    {
      values[index]
    }

    ghost predicate WellKinded() {
      forall i :: 0 <= i < |values| ==> values[i].KindOf() == kind
    }
  }

  /** `getFromTuple`: the position of the first array indexed by enum type `tag`, or `|cs|`. */
  function FirstMatch(cs: seq<EnumArray>, tag: nat): (k: nat)
    ensures k <= |cs|
    ensures k < |cs| ==> cs[k].tag == tag
    ensures forall j :: 0 <= j < k ==> cs[j].tag != tag
  {
    if cs == [] then 0
    else if cs[0].tag == tag then 0
    else 1 + FirstMatch(cs[1..], tag)
  }

  /** `get(e)` compiles and stays in range. */
  predicate HasKey(cs: seq<EnumArray>, key: Key) {
    var k := FirstMatch(cs, key.tag);
    k < |cs| && key.index < |cs[k].values|
  }

  /** `get(e)`: the value `getFromTuple` returns. */
  function Lookup(cs: seq<EnumArray>, key: Key): (v: Value)
    requires HasKey(cs, key)
    ensures v == cs[FirstMatch(cs, key.tag)].values[key.index]
  {
    cs[FirstMatch(cs, key.tag)].At(key.index)
  }

  /** `set(e, v)` is well-typed and in range in every array the fold will write to. */
  predicate Settable(cs: seq<EnumArray>, key: Key, v: Value) {
    forall k :: 0 <= k < |cs| && cs[k].tag == key.tag ==>
      key.index < |cs[k].values| && cs[k].kind == v.KindOf()
  }

  /** `setToTuple(e, v, c)` on one array: written only if it has the key's enum type and its slot differs. */
  function SetIn(c: EnumArray, key: Key, v: Value): (r: EnumArray)
    ensures r.tag == c.tag && r.kind == c.kind && |r.values| == |c.values|
    ensures forall i :: 0 <= i < |c.values| && (c.tag != key.tag || i != key.index) ==>
              r.values[i] == c.values[i]
    ensures c.tag == key.tag && key.index < |c.values| ==> r.values[key.index] == v
  {
    if c.tag == key.tag && key.index < |c.values| && c.values[key.index] != v then
      c.(values := c.values[key.index := v])
    else c
  }

  /** The tuple after the first `k` steps of the `set` fold. */
  function SetUpTo(cs: seq<EnumArray>, k: nat, key: Key, v: Value): (r: seq<EnumArray>)
    requires k <= |cs|
    ensures |r| == |cs|
  {
    seq(|cs|, j requires 0 <= j < |cs| => if j < k then SetIn(cs[j], key, v) else cs[j])
  }

  /** The tuple after the whole `set` fold. */
  function SetEach(cs: seq<EnumArray>, key: Key, v: Value): (r: seq<EnumArray>)
    ensures |r| == |cs|
  {
    SetUpTo(cs, |cs|, key, v)
  }

  /** After `set(e, v)`, `get(e)` yields `v`. */
  lemma SetThenGet(cs: seq<EnumArray>, key: Key, v: Value)
    requires HasKey(cs, key)
    ensures HasKey(SetEach(cs, key, v), key)
    ensures Lookup(SetEach(cs, key, v), key) == v
  {
    var k := FirstMatch(cs, key.tag);
    FirstMatchSetEach(cs, key, v);
    assert SetEach(cs, key, v)[k] == SetIn(cs[k], key, v);
  }

  /** Writing values never changes which array `getFromTuple` selects. */
  lemma {:induction false} FirstMatchSetEach(cs: seq<EnumArray>, key: Key, v: Value)
    ensures FirstMatch(SetEach(cs, key, v), key.tag) == FirstMatch(cs, key.tag)
  {
    var r := SetEach(cs, key, v);
    if cs != [] {
      assert r[0].tag == cs[0].tag;
      if cs[0].tag != key.tag {
        assert r[1..] == SetEach(cs[1..], key, v);
        FirstMatchSetEach(cs[1..], key, v);
      }
    }
  }

  /** `set` leaves arrays of other enum types alone, and every other slot of a matching one. */
  lemma SetEachFrame(cs: seq<EnumArray>, key: Key, v: Value, k: nat, i: nat)
    requires k < |cs| && i < |cs[k].values|
    requires cs[k].tag != key.tag || i != key.index
    ensures SetEach(cs, key, v)[k].values[i] == cs[k].values[i]
  {
    assert SetEach(cs, key, v)[k] == SetIn(cs[k], key, v);
  }

  /** When every array of the key's enum type already holds `v` in that slot, `set` changes nothing. */
  lemma SetEachUnchanged(cs: seq<EnumArray>, key: Key, v: Value)
    requires Settable(cs, key, v)
    requires forall k :: 0 <= k < |cs| && cs[k].tag == key.tag ==> cs[k].values[key.index] == v
    ensures SetEach(cs, key, v) == cs
  {
    var r := SetEach(cs, key, v);
    forall k | 0 <= k < |cs| ensures r[k] == cs[k] {
      assert r[k] == SetIn(cs[k], key, v);
    }
  }

  /** `set` keeps every value of the type its array declares. */
  lemma SetEachWellKinded(cs: seq<EnumArray>, key: Key, v: Value)
    requires forall k :: 0 <= k < |cs| ==> cs[k].WellKinded()
    requires Settable(cs, key, v)
    ensures forall k :: 0 <= k < |cs| ==> SetEach(cs, key, v)[k].WellKinded()
  {
    var r := SetEach(cs, key, v);
    forall k | 0 <= k < |r| ensures r[k].WellKinded() {
      assert r[k] == SetIn(cs[k], key, v);
      assert cs[k].WellKinded();
    }
  }

  /** `ProfileInternal` and its `Profile<Containers...>` subclass. */
  class Profile {
    var containers: seq<EnumArray>
    var listeners: seq<Listener>
    /** Every `onProfile` call made so far, oldest first. */
    ghost var events: seq<Call<Listener, Key, Value>>

    ghost predicate Valid()
      reads this
    {
      && NoDuplicates(listeners)
      && forall k :: 0 <= k < |containers| ==> containers[k].WellKinded()
    }

    /** `Profile(cs...)`. */
    constructor (cs: seq<EnumArray>)
      requires forall k :: 0 <= k < |cs| ==> cs[k].WellKinded()
      ensures Valid()
      ensures containers == cs && listeners == [] && events == []
    {
      containers := cs;
      listeners := [];
      events := [];
    }

    /** `get(e)`: the value in the selected array, of that array's value type. */
    function Get(key: Key): (v: Value)
      requires Valid() && HasKey(containers, key)
      reads this
      ensures v.KindOf() == containers[FirstMatch(containers, key.tag)].kind
    {
      var k := FirstMatch(containers, key.tag);
      assert containers[k].WellKinded();
      containers[k].At(key.index)
    }

    /** `set(e, v)`: the fold of `setToTuple` over the tuple, array by array, in tuple order. */
    method Set(key: Key, v: Value)
      requires Valid() && Settable(containers, key, v)
      modifies this`containers
      ensures Valid()
      ensures containers == SetEach(old(containers), key, v)
      ensures events == old(events)
    {
      ghost var cs0 := containers;
      SetEachWellKinded(cs0, key, v);
      for k := 0 to |containers|
        invariant containers == SetUpTo(cs0, k, key, v)
      {
        var c := containers[k];
        if c.tag == key.tag {
          if c.values[key.index] != v {
            containers := containers[k := c.(values := c.values[key.index := v])];
            Notify(key, v);
          }
        }
        assert containers == SetUpTo(cs0, k + 1, key, v);
      }
    }

    /**
     * `updateContainer<Enum>()`: reads every enumerator `0..Enum::Count-1`
     * and passes it to `notify`; as `notify` calls nobody, nothing changes.
     */
    method UpdateContainer(tag: nat, count: nat)
      requires Valid() && forall i :: 0 <= i < count ==> HasKey(containers, Key(tag, i))
      ensures events == old(events)
    {
      for i := 0 to count {
        var value := Get(Key(tag, i));
        Notify(Key(tag, i), value);
      }
    }

    /** `notify(e, value)`: walks the registry; the `onProfile` call in its loop is commented out. */
    method Notify(key: Key, value: Value)
      ensures events == old(events)
    {
      for i := 0 to |listeners| {
      }
    }

    /** `ProfileInternal::subscribe`: appends the listener; the debug build asserts it is not yet registered. */
    method Subscribe(l: Listener)
      requires Valid() && l !in listeners
      modifies this`listeners
      ensures Valid()
      ensures listeners == old(listeners) + [l]
    {
      AppendNoDuplicates(listeners, l);
      listeners := listeners + [l];
    }

    /** `ProfileInternal::unsubscribe`: erases the first entry equal to the listener, if any. */
    method Unsubscribe(l: Listener)
      requires Valid()
      modifies this`listeners
      ensures Valid()
      ensures listeners == RemoveFirst(old(listeners), l)
      ensures l !in listeners
    {
      RemoveFirstNoDuplicates(listeners, l);
      var i := Find(listeners, l);
      if i < |listeners| {
        RemoveFirstSplit(listeners, l, i);
        listeners := listeners[..i] + listeners[i + 1..];
      }
    }
  }

  /** `ListenerInternal`: subscribes on construction and unsubscribes on destruction. */
  class Listener {
    const profile: Profile
    const name: string

    constructor (profile: Profile, name: string)
      requires profile.Valid()
      modifies profile`listeners
      ensures this.profile == profile && this.name == name
      ensures profile.Valid()
      ensures profile.listeners == old(profile.listeners) + [this]
    {
      this.profile := profile;
      this.name := name;
      new;
      profile.Subscribe(this);
    }

    /** The destructor: afterwards the listener is no longer registered. */
    method Destroy()
      requires profile.Valid()
      modifies profile`listeners
      ensures profile.Valid()
      ensures profile.listeners == RemoveFirst(old(profile.listeners), this)
      ensures this !in profile.listeners
    {
      profile.Unsubscribe(this);
    }
  }
}
