/**
 * The value domain shared by the profile variants. The demo configurations
 * store three element types — `bool`, `uint32_t` and `std::string` — in three
 * categories `BOOL`, `U32` and `STR`, declared in that order. The statically
 * typed variants keep one typed array per category; the `std::variant` and
 * `std::any` variants keep one tagged value per slot. Both are expressed here
 * with the closed sum `Value`, whose tag is its `Kind`.
 */
module Values {

  /** `uint32_t`. */
  newtype u32 = x: int | 0 <= x < 0x1_0000_0000

  /** The element types a slot can hold. */
  datatype Kind = BoolKind | U32Kind | StrKind

  /** A stored value together with its runtime type tag. */
  datatype Value = B(b: bool) | U(u: u32) | S(s: string)
  {
    function KindOf(): Kind {
      match this
      case B(_) => BoolKind
      case U(_) => U32Kind
      case S(_) => StrKind
    }
  }

  /** The categories of the `PROFILE_TYPES` list, in declaration order. */
  datatype Category = Bool | U32 | Str
  {
    /** The category's position in the list, which is also its `DirtyBitIndex`. */
    function Index(): nat {
      match this
      case Bool => 0
      case U32 => 1
      case Str => 2
    }

    /** The element type the list declares for the category. */
    function Kind(): Kind {
      match this
      case Bool => BoolKind
      case U32 => U32Kind
      case Str => StrKind
    }
  }

  /** One named slot: a fixed name, a fixed default and the current value. */
  datatype Entry = Entry(name: string, defaultValue: Value, value: Value)

  /** The `Entry(name, def)` constructor: the slot starts out holding its default. */
  function MakeEntry(name: string, def: Value): (e: Entry)
    ensures e.name == name && e.defaultValue == def
    ensures e.value == e.defaultValue
  {
    Entry(name, def, def)
  }

  /** `name` and `defaultValue` are `const`: `after` keeps them from `before`, slot for slot. */
  ghost predicate SameFixedParts(before: seq<Entry>, after: seq<Entry>) {
    && |before| == |after|
    && forall i :: 0 <= i < |before| ==>
         after[i].name == before[i].name && after[i].defaultValue == before[i].defaultValue
  }
}
