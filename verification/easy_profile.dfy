/**
 * The shipped library (EasyProfile.h): one fixed-size typed array per
 * category, an equality-gated `set` that marks the category dirty and,
 * when asked to, notifies every listener; a 32-bit dirty mask with one bit
 * per category; and the listener registry.
 *
 * The categories are those of the demo `PROFILE_TYPES` list (BOOL, U32,
 * STR); the number of slots in each is fixed by the default arrays the
 * profile is built from. The per-type overloads `get`/`set` that the macro
 * expands are one `Get`/`Set` over `Value`, with the overload resolution
 * the compiler performs written as `value.KindOf() == c.Kind()`.
 */
module EasyProfile {
  import opened Values
  import opened Registry

  /** The enumerator `e` passed to `get`/`set`/`onProfile`: a category and an index in it. */
  datatype Slot = Slot(category: Category, index: nat)

  /** The bits of the declared categories (DirtyBitIndex 0, 1 and 2). */
  const CategoryBits: bv32 := 7

  /** `bit(idx)`: the mask bit of the category at position `idx`. */
  function Bit(idx: nat): (r: bv32)
    requires idx < 32
    ensures r != 0 && r & (r - 1) == 0
  {
    (1 as bv32) << idx
  }

  /** Two categories share a dirty bit only if they are the same category. */
  lemma BitsOfCategoriesDiffer(c: Category, d: Category)
    ensures (Bit(c.Index()) & Bit(d.Index()) != 0) <==> c == d
    ensures Bit(c.Index()) & !CategoryBits == 0
  {
  }

  class Profile {
    const bools: array<bool>
    const u32s: array<u32>
    const strs: array<string>
    var dirty: bv32
    var listeners: seq<Listener>
    /** Every `onProfile` call made so far, oldest first. */
    ghost var events: seq<Call<Listener, Slot, Value>>

    ghost predicate Valid()
      reads this
    {
      && NoDuplicates(listeners)
      && dirty & !CategoryBits == 0
    }

    /** The category's `Size`. */
    function Count(c: Category): nat {
      match c
      case Bool => bools.Length
      case U32 => u32s.Length
      case Str => strs.Length
    }

    /** `get(e)`: the value in slot `e` of category `c`, of the category's type. */
    function Get(c: Category, e: nat): (v: Value)
      requires e < Count(c)
      reads bools, u32s, strs
      ensures v.KindOf() == c.Kind()
    {
      match c
      case Bool => B(bools[e])
      case U32 => U(u32s[e])
      case Str => S(strs[e])
    }

    /** The constructor taking one default array per category. */
    constructor (defBools: seq<bool>, defU32s: seq<u32>, defStrs: seq<string>)
      ensures Valid()
      ensures bools[..] == defBools && u32s[..] == defU32s && strs[..] == defStrs
      ensures dirty == 0 && listeners == [] && events == []
      ensures fresh(bools) && fresh(u32s) && fresh(strs)
    {
      bools := new bool[|defBools|](i requires 0 <= i < |defBools| => defBools[i]);
      u32s := new u32[|defU32s|](i requires 0 <= i < |defU32s| => defU32s[i]);
      strs := new string[|defStrs|](i requires 0 <= i < |defStrs| => defStrs[i]);
      dirty := 0;
      listeners := [];
      events := [];
    }

    /** `init`: copies the supplied defaults into every category and clears the dirty mask. */
    method Init(defBools: seq<bool>, defU32s: seq<u32>, defStrs: seq<string>)
      requires Valid()
      requires |defBools| == bools.Length && |defU32s| == u32s.Length && |defStrs| == strs.Length
      modifies this`dirty, bools, u32s, strs
      ensures Valid()
      ensures bools[..] == defBools && u32s[..] == defU32s && strs[..] == defStrs
      ensures dirty == 0
    {
      forall i | 0 <= i < bools.Length {
        bools[i] := defBools[i];
      }
      forall i | 0 <= i < u32s.Length {
        u32s[i] := defU32s[i];
      }
      forall i | 0 <= i < strs.Length {
        strs[i] := defStrs[i];
      }
      dirty := 0;
    }

    /**
     * `set(e, value, notifyListeners)`. Nothing happens when the slot already
     * holds `value`. Otherwise the slot is overwritten, the category's dirty
     * bit is set and, if `notifyListeners`, every listener gets one call.
     */
    method Set(c: Category, e: nat, value: Value, notifyListeners: bool)
      requires Valid()
      requires e < Count(c) && value.KindOf() == c.Kind()
      modifies this`dirty, this`events, bools, u32s, strs
      ensures Valid()
      ensures Get(c, e) == value
      ensures forall d: Category, i: nat :: i < Count(d) && Slot(d, i) != Slot(c, e) ==>
                Get(d, i) == old(Get(d, i))
      ensures old(Get(c, e)) == value ==>
                dirty == old(dirty) && events == old(events)
                && unchanged(bools) && unchanged(u32s) && unchanged(strs)
      ensures old(Get(c, e)) != value ==> dirty == old(dirty) | Bit(c.Index())
      ensures old(Get(c, e)) != value ==>
                events == old(events) + if notifyListeners then Fanout(listeners, Slot(c, e), value) else []
    {
      if Get(c, e) != value {
        BitsOfCategoriesDiffer(c, c);
        dirty := dirty | Bit(c.Index());
        Store(c, e, value);
        if notifyListeners {
          Notify(c, e, value);
        }
      }
    }

    /** The assignment `v = value` to the referenced slot: overwrites that slot and no other. */
    method Store(c: Category, e: nat, value: Value)
      requires e < Count(c) && value.KindOf() == c.Kind()
      modifies bools, u32s, strs
      ensures Get(c, e) == value
      ensures forall d: Category, i: nat :: i < Count(d) && Slot(d, i) != Slot(c, e) ==>
                Get(d, i) == old(Get(d, i))
    {
      match value {
        case B(b) => bools[e] := b;
        case U(u) => u32s[e] := u;
        case S(s) => strs[e] := s;
      }
    }

    /** `isDirty(idx)`: whether the category's bit is set. */
    function IsDirty(c: Category): (r: bool)
      reads this
      ensures r ==> dirty != 0
    {
      dirty & Bit(c.Index()) != 0
    }

    /** `isDirty()`: the mask is non-zero exactly when some category is dirty. */
    function IsAnyDirty(): (r: bool)
      requires Valid()
      reads this
      ensures r <==> IsDirty(Bool) || IsDirty(U32) || IsDirty(Str)
    {
      dirty != 0
    }

    /** `getDirty()`: the mask, which holds no bit besides those of the declared categories. */
    function GetDirty(): (r: bv32)
      requires Valid()
      reads this
      ensures r & !CategoryBits == 0
      ensures forall c: Category :: IsDirty(c) <==> r & Bit(c.Index()) != 0
    {
      dirty
    }

    /** `resetDirty(idx)`: clears the category's bit and no other. */
    method ResetDirty(c: Category)
      requires Valid()
      modifies this`dirty
      ensures Valid()
      ensures dirty == old(dirty) & !Bit(c.Index())
      ensures !IsDirty(c)
      ensures forall d: Category :: d != c ==> IsDirty(d) == old(IsDirty(d))
    {
      dirty := dirty & !Bit(c.Index());
      forall d: Category | d != c ensures IsDirty(d) == old(IsDirty(d)) {
        BitsOfCategoriesDiffer(c, d);
      }
    }

    /** `resetDirty()`: clears the whole mask. */
    method ResetAllDirty()
      requires Valid()
      modifies this`dirty
      ensures Valid()
      ensures dirty == 0 && !IsAnyDirty()
    {
      dirty := 0;
    }

    /** `subscribe`: appends the listener; the debug build asserts it is not yet registered. */
    method Subscribe(l: Listener)
      requires Valid() && l !in listeners
      modifies this`listeners
      ensures Valid()
      ensures listeners == old(listeners) + [l]
    {
      AppendNoDuplicates(listeners, l);
      listeners := listeners + [l];
    }

    /** `unsubscribe`: erases the first entry equal to the listener, if any. */
    method Unsubscribe(l: Listener)
      requires Valid()
      modifies this`listeners
      ensures Valid()
      ensures listeners == RemoveFirst(old(listeners), l)
      ensures l !in listeners
    {
      RemoveFirstNoDuplicates(listeners, l);
      var i := Find(listeners, l);
      if i < |listeners| {
        RemoveFirstSplit(listeners, l, i);
        listeners := listeners[..i] + listeners[i + 1..];
      }
    }

    /** `notify(e, value)`: one `onProfile(e, value)` call on each listener, in registry order. */
    method Notify(c: Category, e: nat, value: Value)
      modifies this`events
      ensures events == old(events) + Fanout(listeners, Slot(c, e), value)
    {
      var calls := Dispatch(listeners, Slot(c, e), value);
      events := events + calls;
    }
  }

  /**
   * `Profile::Listener`: remembers its profile, subscribes on construction
   * and unsubscribes on destruction. Its `onProfile` overloads default to
   * doing nothing; a call is only recorded in the profile's event log.
   */
  class Listener {
    const profile: Profile
    const name: string

    constructor (profile: Profile, name: string)
      requires profile.Valid()
      modifies profile`listeners
      ensures this.profile == profile && this.name == name
      ensures profile.Valid()
      ensures profile.listeners == old(profile.listeners) + [this]
    {
      this.profile := profile;
      this.name := name;
      new;
      profile.Subscribe(this);
    }

    /** The destructor. */
    method Destroy()
      requires profile.Valid()
      modifies profile`listeners
      ensures profile.Valid()
      ensures profile.listeners == RemoveFirst(old(profile.listeners), this)
      ensures this !in profile.listeners
    {
      profile.Unsubscribe(this);
    }
  }
}
