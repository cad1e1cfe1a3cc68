/**
 * The macro-expanded experiment (experiments/def/include/Profile.h): the
 * same typed per-category arrays as the shipped library, an equality-gated
 * `set` that always notifies on a change (no notify flag, no dirty mask),
 * and a `notifyAll` that pushes every slot of every category to every
 * listener, categories in `PROFILE_TYPES` order and indices ascending.
 */
module DefProfile {
  import opened Values
  import opened Registry

  /** The enumerator `e` of `get`/`set`/`onProfile`: a category and an index in it. */
  datatype Slot = Slot(category: Category, index: nat)

  class Profile {
    const bools: array<bool>
    const u32s: array<u32>
    const strs: array<string>
    var listeners: seq<Listener>
    /** Every `onProfile` call made so far, oldest first. */
    ghost var events: seq<Call<Listener, Slot, Value>>

    ghost predicate Valid()
      reads this
    {
      NoDuplicates(listeners)
    }

    /** The category's `Size`. */
    function Count(c: Category): nat {
      match c
      case Bool => bools.Length
      case U32 => u32s.Length
      case Str => strs.Length
    }

    /** `get(e)`: the value in slot `e` of category `c`, of the category's type. */
    function Get(c: Category, e: nat): (v: Value)
      requires e < Count(c)
      reads bools, u32s, strs
      ensures v.KindOf() == c.Kind()
    {
      match c
      case Bool => B(bools[e])
      case U32 => U(u32s[e])
      case Str => S(strs[e])
    }

    /** The slots of category `c` with their current values, indices ascending. */
    ghost function CategorySlots(c: Category): (r: seq<(Slot, Value)>)
      reads bools, u32s, strs
      ensures |r| == Count(c)
    {
      var bs, us, ss := bools[..], u32s[..], strs[..];
      match c
      case Bool => Numbered(c, seq(bools.Length, i requires 0 <= i < bools.Length => B(bs[i])))
      case U32 => Numbered(c, seq(u32s.Length, i requires 0 <= i < u32s.Length => U(us[i])))
      case Str => Numbered(c, seq(strs.Length, i requires 0 <= i < strs.Length => S(ss[i])))
    }

    /** Position `i` of a category's slot list is slot `i` with its current value. */
    lemma CategorySlotsAt(c: Category, i: nat)
      requires i < Count(c)
      ensures CategorySlots(c)[i] == (Slot(c, i), Get(c, i))
    {
    }

    /** Every slot of the profile: BOOL, then U32, then STR. */
    ghost function AllSlots(): (r: seq<(Slot, Value)>)
      reads bools, u32s, strs
      ensures |r| == Count(Bool) + Count(U32) + Count(Str)
    {
      CategorySlots(Bool) + CategorySlots(U32) + CategorySlots(Str)
    }

    /** The constructor taking one default array per category. */
    constructor (defBools: seq<bool>, defU32s: seq<u32>, defStrs: seq<string>)
      ensures Valid()
      ensures bools[..] == defBools && u32s[..] == defU32s && strs[..] == defStrs
      ensures listeners == [] && events == []
      ensures fresh(bools) && fresh(u32s) && fresh(strs)
    {
      bools := new bool[|defBools|](i requires 0 <= i < |defBools| => defBools[i]);
      u32s := new u32[|defU32s|](i requires 0 <= i < |defU32s| => defU32s[i]);
      strs := new string[|defStrs|](i requires 0 <= i < |defStrs| => defStrs[i]);
      listeners := [];
      events := [];
    }

    /** `init`: copies the supplied defaults into every category. */
    method Init(defBools: seq<bool>, defU32s: seq<u32>, defStrs: seq<string>)
      requires |defBools| == bools.Length && |defU32s| == u32s.Length && |defStrs| == strs.Length
      modifies bools, u32s, strs
      ensures bools[..] == defBools && u32s[..] == defU32s && strs[..] == defStrs
    {
      forall i | 0 <= i < bools.Length {
        bools[i] := defBools[i];
      }
      forall i | 0 <= i < u32s.Length {
        u32s[i] := defU32s[i];
      }
      forall i | 0 <= i < strs.Length {
        strs[i] := defStrs[i];
      }
    }

    /**
     * `set(e, value)`. Nothing happens when the slot already holds `value`;
     * otherwise the slot is overwritten and every listener gets one call.
     */
    method Set(c: Category, e: nat, value: Value)
      requires e < Count(c) && value.KindOf() == c.Kind()
      modifies this`events, bools, u32s, strs
      ensures Get(c, e) == value
      ensures forall d: Category, i: nat :: i < Count(d) && Slot(d, i) != Slot(c, e) ==>
                Get(d, i) == old(Get(d, i))
      ensures old(Get(c, e)) == value ==>
                events == old(events) && unchanged(bools) && unchanged(u32s) && unchanged(strs)
      ensures old(Get(c, e)) != value ==>
                events == old(events) + Fanout(listeners, Slot(c, e), value)
    {
      if Get(c, e) != value {
        Store(c, e, value);
        Notify(c, e, value);
      }
    }

    /** The assignment `v = value` to the referenced slot: overwrites that slot and no other. */
    method Store(c: Category, e: nat, value: Value)
      requires e < Count(c) && value.KindOf() == c.Kind()
      modifies bools, u32s, strs
      ensures Get(c, e) == value
      ensures forall d: Category, i: nat :: i < Count(d) && Slot(d, i) != Slot(c, e) ==>
                Get(d, i) == old(Get(d, i))
    {
      match value {
        case B(b) => bools[e] := b;
        case U(u) => u32s[e] := u;
        case S(s) => strs[e] := s;
      }
    }

    /**
     * `notifyAll()`: one notification per slot, categories in declaration
     * order and indices ascending, with the current values; no slot changes.
     */
    method NotifyAll()
      modifies this`events
      ensures events == old(events) + FanoutEach(listeners, AllSlots())
    {
      ghost var bs, us, ss := CategorySlots(Bool), CategorySlots(U32), CategorySlots(Str);
      assert AllSlots() == bs + us + ss;
      ghost var e0 := events;
      NotifyCategory(Bool);
      ghost var e1 := events;
      NotifyCategory(U32);
      ghost var e2 := events;
      NotifyCategory(Str);
      FanoutEachThreeSteps(e0, e1, e2, events, listeners, bs, us, ss);
    }

    /** The loop the `notifyAll` macro expands for one category. */
    method NotifyCategory(c: Category)
      modifies this`events
      ensures events == old(events) + FanoutEach(listeners, CategorySlots(c))
    {
      ghost var start, slots := events, CategorySlots(c);
      for i := 0 to Count(c)
        invariant events == start + FanoutEach(listeners, slots[..i])
      {
        var value := Get(c, i);
        CategorySlotsAt(c, i);
        ghost var before := events;
        Notify(c, i, value);
        FanoutEachStep(start, before, events, listeners, slots, i);
      }
      assert slots[..Count(c)] == slots;
    }

    /** `subscribe`: appends the listener; the debug build asserts it is not yet registered. */
    method Subscribe(l: Listener)
      requires Valid() && l !in listeners
      modifies this`listeners
      ensures Valid()
      ensures listeners == old(listeners) + [l]
    {
      AppendNoDuplicates(listeners, l);
      listeners := listeners + [l];
    }

    /** `unsubscribe`: erases the first entry equal to the listener, if any. */
    method Unsubscribe(l: Listener)
      requires Valid()
      modifies this`listeners
      ensures Valid()
      ensures listeners == RemoveFirst(old(listeners), l)
      ensures l !in listeners
    {
      RemoveFirstNoDuplicates(listeners, l);
      var i := Find(listeners, l);
      if i < |listeners| {
        RemoveFirstSplit(listeners, l, i);
        listeners := listeners[..i] + listeners[i + 1..];
      }
    }

    /** `notify(e, value)`: one `onProfile(e, value)` call on each listener, in registry order. */
    method Notify(c: Category, e: nat, value: Value)
      modifies this`events
      ensures events == old(events) + Fanout(listeners, Slot(c, e), value)
    {
      var calls := Dispatch(listeners, Slot(c, e), value);
      events := events + calls;
    }
  }

  /** The values of a category paired with their slots, in index order. */
  function Numbered(c: Category, vals: seq<Value>): (r: seq<(Slot, Value)>)
    ensures |r| == |vals|
  {
    seq(|vals|, i requires 0 <= i < |vals| => (Slot(c, i), vals[i]))
  }

  /**
   * Whatever the profile holds, `notifyAll` makes each registered listener
   * receive every slot once, in order, so Count(BOOL) + Count(U32) +
   * Count(STR) calls; a listener that is not registered receives none.
   */
  lemma NotifyAllDelivers(p: Profile, l: Listener)
    requires p.Valid()
    ensures l in p.listeners ==> CallsTo(FanoutEach(p.listeners, p.AllSlots()), l) == p.AllSlots()
    ensures l !in p.listeners ==> CallsTo(FanoutEach(p.listeners, p.AllSlots()), l) == []
  {
    CallsToFanoutEach(p.listeners, p.AllSlots(), l);
  }

  /** `Profile::Listener`: subscribes on construction and unsubscribes on destruction. */
  class Listener {
    const profile: Profile
    const name: string

    constructor (profile: Profile, name: string)
      requires profile.Valid()
      modifies profile`listeners
      ensures this.profile == profile && this.name == name
      ensures profile.Valid()
      ensures profile.listeners == old(profile.listeners) + [this]
    {
      this.profile := profile;
      this.name := name;
      new;
      profile.Subscribe(this);
    }

    /** The destructor: afterwards the listener is no longer registered. */
    method Destroy()
      requires profile.Valid()
      modifies profile`listeners
      ensures profile.Valid()
      ensures profile.listeners == RemoveFirst(old(profile.listeners), this)
      ensures this !in profile.listeners
    {
      profile.Unsubscribe(this);
    }
  }
}
