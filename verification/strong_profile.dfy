/**
 * The tuple-dispatch variant (strong/include/Profile.h): the profile holds
 * a tuple of containers, each a fixed array of entries indexed by one enum
 * type. `get`/`getName` take the entry from the FIRST container whose enum
 * type is the enumerator's (`getFromTuple`); `set` folds `setToTuple` over
 * EVERY container of the tuple, so each container with that enum type is
 * compared, written and notified on its own. There is no dirty tracking.
 *
 * An enum type is identified by a tag; an enumerator is a `Key` (its enum
 * type's tag and its position in the enum).
 */
module StrongProfile {
  import opened Values
  import opened Registry

  /** An enumerator: the tag of its enum type and its underlying value. */
  datatype Key = Key(tag: nat, index: nat)

  /** `Container<Enum, T, N>`: the enum type it is indexed by, its element type and its N entries. */
  datatype Container = Container(tag: nat, kind: Kind, entries: seq<Entry>)
  {
    /** Every entry's default and current value are of the container's element type. */
    ghost predicate WellKinded() {
      forall i :: 0 <= i < |entries| ==>
        entries[i].defaultValue.KindOf() == kind && entries[i].value.KindOf() == kind
    }
  }

  ghost predicate AllWellKinded(cs: seq<Container>) {
    forall k :: 0 <= k < |cs| ==> cs[k].WellKinded()
  }

  /** No two containers of the tuple are indexed by the same enum type. */
  ghost predicate DistinctTags(cs: seq<Container>) {
    forall j, k :: 0 <= j < k < |cs| ==> cs[j].tag != cs[k].tag
  }

  /** `getFromTuple`: the position of the first container indexed by enum type `tag`, or `|cs|`. */
  function FirstMatch(cs: seq<Container>, tag: nat): (k: nat)
    ensures k <= |cs|
    ensures k < |cs| ==> cs[k].tag == tag
    ensures forall j :: 0 <= j < k ==> cs[j].tag != tag
  {
    if cs == [] then 0
    else if cs[0].tag == tag then 0
    else 1 + FirstMatch(cs[1..], tag)
  }

  /** `get`/`getName` compile and stay in range: some container has the key's enum type and that slot. */
  predicate HasKey(cs: seq<Container>, key: Key) {
    var k := FirstMatch(cs, key.tag);
    k < |cs| && key.index < |cs[k].entries|
  }

  /** The entry `getFromTuple(e, cs...)` returns, through the container's `operator[]`. */
  function Lookup(cs: seq<Container>, key: Key): (r: Entry)
    requires HasKey(cs, key)
    ensures r == cs[FirstMatch(cs, key.tag)].entries[key.index]
  {
    cs[FirstMatch(cs, key.tag)].entries[key.index]
  }

  /** `set(e, v)` is well-typed and in range in every container the fold will write to. */
  predicate Settable(cs: seq<Container>, key: Key, v: Value) {
    forall k :: 0 <= k < |cs| && cs[k].tag == key.tag ==>
      key.index < |cs[k].entries| && cs[k].kind == v.KindOf()
  }

  /** Whether `setToTuple(e, v, c)` writes to container `c`. */
  predicate Writes(c: Container, key: Key, v: Value) {
    c.tag == key.tag && key.index < |c.entries| && c.entries[key.index].value != v
  }

  /** `setToTuple(e, v, c)` on one container. */
  function SetIn(c: Container, key: Key, v: Value): (r: Container)
    ensures r.tag == c.tag && r.kind == c.kind && SameFixedParts(c.entries, r.entries)
    ensures forall i :: 0 <= i < |c.entries| && (c.tag != key.tag || i != key.index) ==>
              r.entries[i] == c.entries[i]
    ensures c.tag == key.tag && key.index < |c.entries| ==> r.entries[key.index].value == v
  {
    if Writes(c, key, v) then
      c.(entries := c.entries[key.index := c.entries[key.index].(value := v)])
    else c
  }

  /** The tuple after the fold of `setToTuple` over all of its containers. */
  function SetEach(cs: seq<Container>, key: Key, v: Value): (r: seq<Container>)
    ensures |r| == |cs|
  {
    seq(|cs|, k requires 0 <= k < |cs| => SetIn(cs[k], key, v))
  }

  /**
   * The `notify(e, v)` calls the first `n` steps of the fold make: one per
   * container it writes to, in tuple order.
   */
  function NotificationsUpTo(cs: seq<Container>, n: nat, key: Key, v: Value): (r: seq<(Key, Value)>)
    requires n <= |cs|
    ensures |r| <= n
  {
    if n == 0 then []
    else NotificationsUpTo(cs, n - 1, key, v) + (if Writes(cs[n - 1], key, v) then [(key, v)] else [])
  }

  /** The `notify(e, v)` calls of the whole fold. */
  function Notifications(cs: seq<Container>, key: Key, v: Value): (r: seq<(Key, Value)>)
    ensures |r| <= |cs|
  {
    NotificationsUpTo(cs, |cs|, key, v)
  }

  /** After `set(e, v)`, `get(e)` yields `v` and `getName(e)` is unchanged. */
  lemma SetThenLookup(cs: seq<Container>, key: Key, v: Value)
    requires HasKey(cs, key)
    ensures HasKey(SetEach(cs, key, v), key)
    ensures Lookup(SetEach(cs, key, v), key).value == v
    ensures Lookup(SetEach(cs, key, v), key).name == Lookup(cs, key).name
    ensures Lookup(SetEach(cs, key, v), key).defaultValue == Lookup(cs, key).defaultValue
  {
    var r := SetEach(cs, key, v);
    var k := FirstMatch(cs, key.tag);
    FirstMatchSetEach(cs, key, v);
    assert r[k] == SetIn(cs[k], key, v);
  }

  /** Writing values never changes which container `getFromTuple` selects. */
  lemma {:induction false} FirstMatchSetEach(cs: seq<Container>, key: Key, v: Value)
    ensures FirstMatch(SetEach(cs, key, v), key.tag) == FirstMatch(cs, key.tag)
  {
    var r := SetEach(cs, key, v);
    if cs != [] {
      assert r[0].tag == cs[0].tag;
      if cs[0].tag != key.tag {
        assert r[1..] == SetEach(cs[1..], key, v);
        FirstMatchSetEach(cs[1..], key, v);
      }
    }
  }

  /** `set` leaves containers of other enum types alone, and every other slot of a matching one. */
  lemma SetEachFrame(cs: seq<Container>, key: Key, v: Value, k: nat, i: nat)
    requires k < |cs| && i < |cs[k].entries|
    requires cs[k].tag != key.tag || i != key.index
    ensures SetEach(cs, key, v)[k].entries[i] == cs[k].entries[i]
  {
    assert SetEach(cs, key, v)[k] == SetIn(cs[k], key, v);
  }

  /** When no container the fold reaches differs from `v`, `set` changes nothing. */
  lemma SetEachUnchanged(cs: seq<Container>, key: Key, v: Value)
    requires forall k :: 0 <= k < |cs| ==> !Writes(cs[k], key, v)
    ensures SetEach(cs, key, v) == cs
  {
  }

  /** ... and notifies nobody. */
  lemma {:induction false} NotificationsNone(cs: seq<Container>, n: nat, key: Key, v: Value)
    requires n <= |cs|
    requires forall k :: 0 <= k < n ==> !Writes(cs[k], key, v)
    ensures NotificationsUpTo(cs, n, key, v) == []
  {
    if n > 0 {
      NotificationsNone(cs, n - 1, key, v);
    }
  }

  /**
   * With one container per enum type, `set` notifies once when `get(e)`
   * differed from `v` and not at all when it was equal.
   */
  lemma NotificationsDistinct(cs: seq<Container>, key: Key, v: Value)
    requires DistinctTags(cs) && HasKey(cs, key)
    ensures Notifications(cs, key, v) == if Lookup(cs, key).value != v then [(key, v)] else []
  {
    NotificationsDistinctUpTo(cs, |cs|, key, v);
  }

  lemma {:induction false} NotificationsDistinctUpTo(cs: seq<Container>, n: nat, key: Key, v: Value)
    requires DistinctTags(cs) && HasKey(cs, key) && n <= |cs|
    ensures NotificationsUpTo(cs, n, key, v)
            == if FirstMatch(cs, key.tag) < n && Lookup(cs, key).value != v then [(key, v)] else []
  {
    if n > 0 {
      var m := FirstMatch(cs, key.tag);
      NotificationsDistinctUpTo(cs, n - 1, key, v);
      if n - 1 != m {
        assert cs[n - 1].tag != key.tag;
      }
    }
  }

  /** With one container per enum type, `set(e, v)` when `get(e)` is already `v` changes nothing and notifies nobody. */
  lemma SetEqualIsNoop(cs: seq<Container>, key: Key, v: Value)
    requires DistinctTags(cs) && HasKey(cs, key) && Lookup(cs, key).value == v
    ensures SetEach(cs, key, v) == cs
    ensures Notifications(cs, key, v) == []
  {
    var m := FirstMatch(cs, key.tag);
    forall k | 0 <= k < |cs| ensures !Writes(cs[k], key, v) {
      if k != m {
        assert cs[k].tag != key.tag;
      }
    }
    SetEachUnchanged(cs, key, v);
    NotificationsDistinct(cs, key, v);
  }

  /** `set` keeps every value of the type its container declares. */
  lemma SetEachWellKinded(cs: seq<Container>, key: Key, v: Value)
    requires AllWellKinded(cs) && Settable(cs, key, v)
    ensures AllWellKinded(SetEach(cs, key, v))
  {
    var r := SetEach(cs, key, v);
    forall k | 0 <= k < |r| ensures r[k].WellKinded() {
      assert r[k] == SetIn(cs[k], key, v);
      assert cs[k].WellKinded();
    }
  }

  /** The enumerators `0..count-1` of enum type `tag` with the values `get` yields for them, in order. */
  function EnumSlots(cs: seq<Container>, tag: nat, count: nat): (r: seq<(Key, Value)>)
    requires forall i :: 0 <= i < count ==> HasKey(cs, Key(tag, i))
    ensures |r| == count
  {
    seq(count, i requires 0 <= i < count && HasKey(cs, Key(tag, i)) => (Key(tag, i), Lookup(cs, Key(tag, i)).value))
  }

  /** The tuple after the first `k` steps of the `set` fold. */
  function SetUpTo(cs: seq<Container>, k: nat, key: Key, v: Value): (r: seq<Container>)
    requires k <= |cs|
    ensures |r| == |cs|
  {
    seq(|cs|, j requires 0 <= j < |cs| => if j < k then SetIn(cs[j], key, v) else cs[j])
  }

  /** Step `k` of the fold applies `setToTuple` to container `k`. */
  lemma SetUpToStep(cs: seq<Container>, k: nat, key: Key, v: Value)
    requires k < |cs|
    ensures SetUpTo(cs, k, key, v)[k := SetIn(cs[k], key, v)] == SetUpTo(cs, k + 1, key, v)
  {
  }

  /** The fold before its first step and after its last: the tuple as given and `SetEach`. */
  lemma SetUpToEnds(cs: seq<Container>, key: Key, v: Value)
    ensures SetUpTo(cs, 0, key, v) == cs
    ensures SetUpTo(cs, |cs|, key, v) == SetEach(cs, key, v)
  {
  }

  /** Before step `k` of the fold, container `k` is still untouched and, if it matches, holds the entry. */
  lemma SetUpToPending(cs: seq<Container>, k: nat, key: Key, v: Value)
    requires Settable(cs, key, v) && k < |cs|
    ensures SetUpTo(cs, k, key, v)[k] == cs[k]
    ensures cs[k].tag == key.tag ==> key.index < |cs[k].entries|
  {
  }

  /** One more step of the `set` fold extends its log by that container's notification, if any. */
  lemma NotificationsStep(start: seq<Call<Listener, Key, Value>>, before: seq<Call<Listener, Key, Value>>,
                          after: seq<Call<Listener, Key, Value>>, ls: seq<Listener>,
                          cs: seq<Container>, k: nat, key: Key, v: Value)
    requires k < |cs|
    requires before == start + FanoutEach(ls, NotificationsUpTo(cs, k, key, v))
    requires after == before + if Writes(cs[k], key, v) then Fanout(ls, key, v) else []
    ensures after == start + FanoutEach(ls, NotificationsUpTo(cs, k + 1, key, v))
  {
    var ns := NotificationsUpTo(cs, k, key, v);
    if Writes(cs[k], key, v) {
      FanoutEachSnocStep(start, before, after, ls, ns, key, v);
    } else {
      assert NotificationsUpTo(cs, k + 1, key, v) == ns + [] == ns;
      assert after == before + [] == before;
    }
  }

  class Profile {
    var containers: seq<Container>
    var listeners: seq<Listener>
    /** Every `onProfile` call made so far, oldest first. */
    ghost var events: seq<Call<Listener, Key, Value>>

    ghost predicate Valid()
      reads this
    {
      NoDuplicates(listeners) && AllWellKinded(containers)
    }

    /** `Profile(cs...)`: the tuple is initialised from the given containers. */
    constructor (cs: seq<Container>)
      requires AllWellKinded(cs)
      ensures Valid()
      ensures containers == cs && listeners == [] && events == []
    {
      containers := cs;
      listeners := [];
      events := [];
    }

    /**
     * `init(containers...)`: the tuple is replaced by the given containers,
     * which have the same enum types, element types and sizes.
     */
    method Init(cs: seq<Container>)
      requires Valid() && AllWellKinded(cs) && |cs| == |containers|
      requires forall k :: 0 <= k < |cs| ==>
                 cs[k].tag == containers[k].tag && cs[k].kind == containers[k].kind
                 && |cs[k].entries| == |containers[k].entries|
      modifies this`containers
      ensures Valid()
      ensures containers == cs
    {
      containers := cs;
    }

    /** `get(e)`: the value of the selected entry, of its container's element type. */
    function Get(key: Key): (v: Value)
      requires AllWellKinded(containers) && HasKey(containers, key)
      reads this`containers
      ensures v.KindOf() == containers[FirstMatch(containers, key.tag)].kind
    {
      var k := FirstMatch(containers, key.tag);
      assert containers[k].WellKinded();
      containers[k].entries[key.index].value
    }

    /** `getName(e)`: the fixed name of the selected entry. */
    function GetName(key: Key): (n: string)
      requires HasKey(containers, key)
      reads this`containers
      ensures n == Lookup(containers, key).name
    {
      containers[FirstMatch(containers, key.tag)].entries[key.index].name
    }

    /**
     * `set(e, v)`: the fold of `setToTuple` over the tuple, container by
     * container, in tuple order.
     */
    method Set(key: Key, v: Value)
      requires Valid() && Settable(containers, key, v)
      modifies this`containers, this`events
      ensures Valid()
      ensures containers == SetEach(old(containers), key, v)
      ensures events == old(events) + FanoutEach(listeners, Notifications(old(containers), key, v))
    {
      SetEachWellKinded(containers, key, v);
      SetFold(key, v);
    }

    /** The loop of `set`: `setToTuple` on each container in tuple order. */
    method SetFold(key: Key, v: Value)
      requires Settable(containers, key, v)
      modifies this`containers, this`events
      ensures containers == SetEach(old(containers), key, v)
      ensures events == old(events) + FanoutEach(listeners, Notifications(old(containers), key, v))
    {
      ghost var cs0, start := containers, events;
      SetUpToEnds(cs0, key, v);
      assert start + FanoutEach(listeners, NotificationsUpTo(cs0, 0, key, v)) == start;
      for k := 0 to |containers|
        invariant containers == SetUpTo(cs0, k, key, v)
        invariant events == start + FanoutEach(listeners, NotificationsUpTo(cs0, k, key, v))
      {
        SetStep(cs0, start, k, key, v);
      }
    }

    /** Step `k` of the `set` fold: `setToTuple` on container `k` takes the fold from `k` steps to `k + 1`. */
    method SetStep(ghost cs0: seq<Container>, ghost start: seq<Call<Listener, Key, Value>>, k: nat, key: Key, v: Value)
      requires Settable(cs0, key, v) && k < |cs0|
      requires containers == SetUpTo(cs0, k, key, v)
      requires events == start + FanoutEach(listeners, NotificationsUpTo(cs0, k, key, v))
      modifies this`containers, this`events
      ensures containers == SetUpTo(cs0, k + 1, key, v)
      ensures events == start + FanoutEach(listeners, NotificationsUpTo(cs0, k + 1, key, v))
    {
      ghost var before := events;
      SetUpToPending(cs0, k, key, v);
      SetToTuple(k, key, v);
      SetUpToStep(cs0, k, key, v);
      NotificationsStep(start, before, events, listeners, cs0, k, key, v);
    }

    /**
     * `setToTuple(e, v, c)` on the container at tuple position `k`: skipped
     * when it is of another enum type; otherwise written and notified only
     * if its slot differs from `v`.
     */
    method SetToTuple(k: nat, key: Key, v: Value)
      requires k < |containers| && (containers[k].tag == key.tag ==> key.index < |containers[k].entries|)
      modifies this`containers, this`events
      ensures containers == old(containers)[k := SetIn(old(containers)[k], key, v)]
      ensures events == old(events) + if Writes(old(containers)[k], key, v) then Fanout(listeners, key, v) else []
    {
      var c := containers[k];
      if c.tag == key.tag {
        if c.entries[key.index].value != v {
          containers := containers[k := c.(entries := c.entries[key.index := c.entries[key.index].(value := v)])];
          Notify(key, v);
        }
      }
    }

    /**
     * `reset(e)`: `set` to the selected entry's default, then one more
     * `notify` with the default, whether or not `set` notified.
     */
    method Reset(key: Key)
      requires Valid() && HasKey(containers, key)
      requires Settable(containers, key, Lookup(containers, key).defaultValue)
      modifies this`containers, this`events
      ensures Valid()
      ensures containers == SetEach(old(containers), key, old(Lookup(containers, key).defaultValue))
      ensures events == old(events)
                + FanoutEach(listeners, Notifications(old(containers), key, old(Lookup(containers, key).defaultValue)))
                + Fanout(listeners, key, old(Lookup(containers, key).defaultValue))
    {
      var value := containers[FirstMatch(containers, key.tag)].entries[key.index].defaultValue;
      Set(key, value);
      Notify(key, value);
    }

    /**
     * `notifyAll<Enum>()`: one `notify` per enumerator `0..Enum::Count-1`,
     * ascending, with its current value; no value changes.
     */
    method NotifyAll(tag: nat, count: nat)
      requires Valid() && forall i :: 0 <= i < count ==> HasKey(containers, Key(tag, i))
      modifies this`events
      ensures events == old(events) + FanoutEach(listeners, EnumSlots(containers, tag, count))
    {
      ghost var start, slots := events, EnumSlots(containers, tag, count);
      for i := 0 to count
        invariant events == start + FanoutEach(listeners, slots[..i])
      {
        var value := Get(Key(tag, i));
        assert slots[i] == (Key(tag, i), Lookup(containers, Key(tag, i)).value) == (Key(tag, i), value);
        ghost var before := events;
        Notify(Key(tag, i), value);
        FanoutEachStep(start, before, events, listeners, slots, i);
      }
      assert slots[..count] == slots;
    }

    /** `subscribe`: appends the listener; the debug build asserts it is not yet registered. */
    method Subscribe(l: Listener)
      requires Valid() && l !in listeners
      modifies this`listeners
      ensures Valid()
      ensures listeners == old(listeners) + [l]
    {
      AppendNoDuplicates(listeners, l);
      listeners := listeners + [l];
    }

    /** `unsubscribe`: erases the first entry equal to the listener, if any. */
    method Unsubscribe(l: Listener)
      requires Valid()
      modifies this`listeners
      ensures Valid()
      ensures listeners == RemoveFirst(old(listeners), l)
      ensures l !in listeners
    {
      RemoveFirstNoDuplicates(listeners, l);
      var i := Find(listeners, l);
      if i < |listeners| {
        RemoveFirstSplit(listeners, l, i);
        listeners := listeners[..i] + listeners[i + 1..];
      }
    }

    /** `notify(e, value)`: one `onProfile(e, value)` call on each listener, in registry order. */
    method Notify(key: Key, value: Value)
      modifies this`events
      ensures events == old(events) + Fanout(listeners, key, value)
    {
      var calls := Dispatch(listeners, key, value);
      events := events + calls;
    }
  }

  /**
   * With one container per enum type, `reset(e)` gives each registered
   * listener two calls with the default when the value differed from it and
   * one call when it already was the default; others get nothing.
   */
  lemma ResetDelivers(cs: seq<Container>, ls: seq<Listener>, key: Key, l: Listener)
    requires DistinctTags(cs) && HasKey(cs, key) && NoDuplicates(ls)
    ensures var d := Lookup(cs, key).defaultValue;
            var calls := FanoutEach(ls, Notifications(cs, key, d)) + Fanout(ls, key, d);
            CallsTo(calls, l) == if l !in ls then []
                                 else if Lookup(cs, key).value != d then [(key, d), (key, d)]
                                 else [(key, d)]
  {
    var d := Lookup(cs, key).defaultValue;
    var ns := Notifications(cs, key, d);
    NotificationsDistinct(cs, key, d);
    FanoutEachSnoc(ls, ns, key, d);
    CallsToFanoutEach(ls, ns + [(key, d)], l);
    if l in ls {
      if Lookup(cs, key).value != d {
        assert ns + [(key, d)] == [(key, d), (key, d)];
      } else {
        assert ns + [(key, d)] == [(key, d)];
      }
    }
  }

  /** `Profile::Listener`: subscribes on construction and unsubscribes on destruction. */
  class Listener {
    const profile: Profile
    const name: string

    constructor (profile: Profile, name: string)
      requires profile.Valid()
      modifies profile`listeners
      ensures this.profile == profile && this.name == name
      ensures profile.Valid()
      ensures profile.listeners == old(profile.listeners) + [this]
    {
      this.profile := profile;
      this.name := name;
      new;
      profile.Subscribe(this);
    }

    /** The destructor: afterwards the listener is no longer registered. */
    method Destroy()
      requires profile.Valid()
      modifies profile`listeners
      ensures profile.Valid()
      ensures profile.listeners == RemoveFirst(old(profile.listeners), this)
      ensures this !in profile.listeners
    {
      profile.Unsubscribe(this);
    }
  }
}
