/**
 * The minimal stub (experiments/simple/include/Profile.h): a tuple of
 * containers, each selected by its exact type `Container<Enum, T, Count>`,
 * that is by its enum type together with its element type. `set` compares
 * the entry's value with the new one and writes only the value; the
 * container's `notifyAll` hook it then calls has an empty body, and there is
 * no listener registry.
 */
module SimpleProfile {
  import opened Values

  /** The type `Container<Enum, T, Count>` that `std::get` looks up: the enum type's tag and `T`. */
  datatype Selector = Selector(tag: nat, kind: Kind)

  /** `set` can select its container and index into it. */
  predicate Settable(cs: map<Selector, seq<Entry>>, tag: nat, e: nat, value: Value) {
    var sel := Selector(tag, value.KindOf());
    sel in cs && e < |cs[sel]|
  }

  /** The tuple after `set<Enum, T>(e, value)`. */
  function AfterSet(cs: map<Selector, seq<Entry>>, tag: nat, e: nat, value: Value): map<Selector, seq<Entry>>
    requires Settable(cs, tag, e, value)
  {
    var sel := Selector(tag, value.KindOf());
    if cs[sel][e].value == value then cs
    else cs[sel := cs[sel][e := cs[sel][e].(value := value)]]
  }

  /**
   * After `set`, entry `e` of the selected container holds `value` and keeps
   * its name and default; every other entry and every other container is
   * unchanged, and a `set` of the value already held changes nothing.
   */
  lemma SetThenGet(cs: map<Selector, seq<Entry>>, tag: nat, e: nat, value: Value)
    requires Settable(cs, tag, e, value)
    ensures var sel, r := Selector(tag, value.KindOf()), AfterSet(cs, tag, e, value);
            && r.Keys == cs.Keys
            && r[sel][e].value == value
            && SameFixedParts(cs[sel], r[sel])
            && (forall i :: 0 <= i < |cs[sel]| && i != e ==> r[sel][i] == cs[sel][i])
            && (forall s :: s in cs && s != sel ==> r[s] == cs[s])
            && (cs[sel][e].value == value ==> r == cs)
  {
  }

  /** Every container holds values of the element type it is selected by. */
  ghost predicate WellKinded(cs: map<Selector, seq<Entry>>) {
    forall sel, i :: sel in cs && 0 <= i < |cs[sel]| ==> cs[sel][i].value.KindOf() == sel.kind
  }

  /** `set` stores a `T` in a container of element type `T`, so every container keeps its element type. */
  lemma SetKeepsWellKinded(cs: map<Selector, seq<Entry>>, tag: nat, e: nat, value: Value)
    requires WellKinded(cs) && Settable(cs, tag, e, value)
    ensures WellKinded(AfterSet(cs, tag, e, value))
  {
    var sel := Selector(tag, value.KindOf());
    var r: map<Selector, seq<Entry>> := AfterSet(cs, tag, e, value);
    forall s: Selector, i: int | s in r && 0 <= i < |r[s]| ensures r[s][i].value.KindOf() == s.kind {
      if s != sel || i != e {
        assert r[s][i] == cs[s][i];
      }
    }
  }

  class Profile {
    /** `std::tuple<Containers...>`: `std::get` by type needs each container type to occur once. */
    var containers: map<Selector, seq<Entry>>

    /** Container `Container<Enum, T, Count>` holds values of type `T` only. */
    ghost predicate Valid()
      reads this
    {
      WellKinded(containers)
    }

    /** `get<Enum, T>(e)`: the value of entry `e` of the container of type `(Enum, T)`, which is a `T`. */
    function Get(sel: Selector, e: nat): (v: Value)
      requires Valid() && sel in containers && e < |containers[sel]|
      reads this
      ensures v.KindOf() == sel.kind
    {
      containers[sel][e].value
    }

    /**
     * `set<Enum, T>(e, value)`: a no-op when entry `e` already holds `value`;
     * otherwise only that entry's `value` is written.
     */
    method Set(tag: nat, e: nat, value: Value)
      requires Valid() && Settable(containers, tag, e, value)
      modifies this
      ensures Valid()
      ensures containers == AfterSet(old(containers), tag, e, value)
    {
      SetKeepsWellKinded(containers, tag, e, value);
      var sel := Selector(tag, value.KindOf());
      var data := containers[sel];
      if data[e].value != value {
        containers := containers[sel := data[e := data[e].(value := value)]];
      }
    }
  }
}
