# easy-profile, modelled in Dafny

easy-profile is a small C++ settings store. A *profile* holds named
configuration slots, grouped by enum type ("categories": BOOL, U32 and STR
in the demo configurations). Each slot has a fixed name, a fixed default
and a current value. `get` reads a slot. `set` writes a slot and, in most
variants, writes only when the value differs. A registry of *listeners*
is notified synchronously and in subscription order of every change:
exactly one notification per change, which reaches each registered
listener once. `notifyAll` pushes the whole state. A listener subscribes
itself when it is constructed and unsubscribes itself when it is destroyed.
The shipped header adds a 32-bit dirty mask with one bit per category. A
change sets its category's bit, and a bit is cleared only by explicit
`resetDirty` calls.

The repository holds several parallel versions of this design. Each is
modelled in its own module:

| module | file | version |
|---|---|---|
| `Registry` | registry.dfy | the listener registry and the notification fan-out that every version shares |
| `Values` | values.dfy | `uint32_t` as a newtype, the closed value domain `bool` / `uint32_t` / `std::string`, categories, entries |
| `EasyProfile` | easy_profile.dfy | `EasyProfile.h`: macro-expanded typed arrays, equality-gated `set` with a notify flag, the dirty mask |
| `DefProfile` | def_profile.dfy | `experiments/def`: the same arrays without a dirty mask, plus `notifyAll` over every category |
| `StrongProfile` | strong_profile.dfy | `strong/include/Profile.h`: a tuple of `Container<Enum, T, N>`, with `getFromTuple` / `setToTuple` |
| `VariantProfile` | variant_profile.dfy | `experiments/variant`: one array of `std::variant` entries, with a type check in `set` |
| `AnyExperiment` | any_experiment.dfy | `experiments/any`: one array of `std::any` entries; `set` always writes and notifies |
| `AnyProfile` | any_profile.dfy | `any/include/Profile.h`: the same, with a free-standing `Listener<Enum, N>` |
| `SrcProfile` | src_profile.dfy | `src/Profile.h` with the registry of `strong/src/Profile.cpp`: a tuple of `EnumArray`s; `notify` calls nobody |
| `SimpleProfile` | simple_profile.dfy | `experiments/simple`: a tuple of containers selected by exact type; no registry |

How the model is built:

- **Listeners.** Each version declares its own `Listener` class, and a
  listener is identified by its object reference, as the registered address
  is in C++. The listener's constructor subscribes it. Its `Destroy` method
  stands for the destructor and unsubscribes it.
- **Callbacks.** A callback is not executed. Each `onProfile(e, value)` call
  is appended to a ghost log `events` as a `Call(listener, e, value)`. One
  `notify` adds `Fanout(listeners, e, value)` to the log: one call per
  listener, in registry order. A run of notifications adds `FanoutEach`.
  `CallsTo(log, l)` is what listener `l` receives.
- **Proof structure.** Each state-changing method is proved against a
  specification function: `RemoveFirst` for `unsubscribe`, `SetEach` /
  `Notifications` for the tuple fold, and `AllSlots` / `Slots` for
  `notifyAll`. The properties that matter are then lemmas about those
  functions, for example:
  - a listener is notified exactly once per change, in order
  - a destroyed listener receives nothing
  - writing the current value changes nothing
  - `reset` delivers the default once or twice
- **Overloads.** The macro versions expand one overload of `get`/`set` per
  category. These are modelled as one `Get`/`Set` over `Value`. The
  compiler's overload resolution becomes the precondition
  `value.KindOf() == c.Kind()`.
- **Enum types.** In the tuple versions an enum type is a `tag` and an
  enumerator is `Key(tag, index)`.

Where a version's code departs from the overview above, the model follows the code:

- `EasyProfile.h` has no `notifyAll`. The full state push is modelled in
  `experiments/def`, which has one.
- `init` in `EasyProfile.h` also clears the dirty mask (EasyProfile.h:132).
  So the mask is cleared by more than the explicit `resetDirty` calls.
- In `strong/include/Profile.h` and `src/Profile.h`, `set` folds `setToTuple`
  over every container of the tuple. `get` reads only the first container
  of the key's enum type. In `strong/include/Profile.h`, `set` takes `v` by
  `const` reference, so every container of that enum type is compared,
  written and notified on its own. In `src/Profile.h` the same holds for an
  lvalue `v` or a trivially copyable one; for an rvalue `std::string`, see
  `SrcProfile.Profile.Set` under "Left out". The "exactly one notification
  per change" promise holds when each enum type occurs once in the tuple
  (`DistinctTags`). It is proved under that condition.
- In `experiments/variant` and `experiments/any`, `reset` notifies even when
  the slot already held its default. `set` in the `std::any` versions
  notifies even when nothing changed.
- In `src/Profile.h` the callback inside `notify` is commented out, so no
  listener is ever called.

## Model

| member | source | states |
|---|---|---|
| Registry.RemoveFirst | strong/src/Profile.cpp:32-43 | unsubscribe shortens the registry by one exactly when the listener is registered, and leaves it as it was otherwise |
| Registry.RemoveFirstMultiset | EasyProfile.h:223-231 | unsubscribe removes one occurrence of the listener and nothing else |
| Registry.RemoveFirstSplit | EasyProfile.h:225-228 | erasing at the position `std::find` returns keeps every listener before and after it, in order |
| Registry.RemoveFirstNoDuplicates | EasyProfile.h:223-231 | unsubscribe keeps the registry free of duplicates, and afterwards the listener is not registered |
| Registry.FirstIndex | EasyProfile.h:225 | the position of the first matching listener, or the end when none matches; no earlier element matches |
| Registry.Find | EasyProfile.h:225 | the linear search of `std::find` returns exactly that first position |
| Registry.AppendNoDuplicates | EasyProfile.h:213-221 | subscribing a listener that the debug assert accepts keeps the registry free of duplicates |
| Registry.SubscribeThenUnsubscribe | EasyProfile.h:213-231 | subscribing a new listener and then unsubscribing it restores the registry |
| Registry.Fanout | EasyProfile.h:251-258 | one notification makes one call per registered listener |
| Registry.FanoutAt | EasyProfile.h:254-257 | the i-th call of a notification goes to the i-th listener in subscription order, with the notified key and value |
| Registry.FanoutConcat | EasyProfile.h:254-257 | notifying a registry is notifying its front part and then its back part |
| Registry.Dispatch | EasyProfile.h:254-257 | the loop over the listeners makes exactly the calls of one notification |
| Registry.CallsToFanout | EasyProfile.h:251-258 | in a duplicate-free registry a notification reaches each registered listener exactly once and nobody else |
| Registry.CallsToFanoutEach | experiments/def/include/Profile.h:134-155 | a run of notifications delivers every pair once and in order to each registered listener, and nothing to an unregistered one |
| Registry.FanoutEachLength | experiments/def/include/Profile.h:134-155 | a run of notifications makes (pairs × listeners) calls |
| Values.MakeEntry | strong/include/Profile.h:18-23 | a new entry has the given name and default, and holds its default |
| EasyProfile.BitsOfCategoriesDiffer | EasyProfile.h:207-210 | two categories share a dirty bit only if they are the same category, and no category's bit lies outside the declared ones |
| EasyProfile.Bit | EasyProfile.h:207-210 | `bit(idx)` is a non-zero mask with exactly one bit set |
| EasyProfile.Profile.constructor | EasyProfile.h:267-287 | every category holds its defaults, the registry is empty and the mask is clear |
| EasyProfile.Profile.Init | EasyProfile.h:112-133 | every category holds the supplied defaults and the dirty mask is cleared |
| EasyProfile.Profile.Get | EasyProfile.h:136-140 | the value read is of the category's element type |
| EasyProfile.Profile.Set | EasyProfile.h:149-162 | the slot holds the value and no other slot changes. An equal value changes nothing, the mask included, and notifies nobody. A different value sets the category's bit, and notifies every listener once when the flag is set |
| EasyProfile.Profile.Store | EasyProfile.h:152-156 | the assignment through the slot reference writes that slot and no other |
| EasyProfile.Profile.IsDirty | EasyProfile.h:181-184 | the body is the contract: a category is dirty when its bit is in the mask, and then the mask is non-zero. `GetDirty`, `IsAnyDirty` and `ResetDirty` state the rest |
| EasyProfile.Profile.IsAnyDirty | EasyProfile.h:186-189 | the mask is non-zero exactly when some category's bit is set |
| EasyProfile.Profile.GetDirty | EasyProfile.h:191-194 | the mask holds only the bits of the declared categories, and a category is dirty exactly when its bit is in the mask |
| EasyProfile.Profile.ResetDirty | EasyProfile.h:196-199 | the category's bit is cleared and every other category keeps its dirty state |
| EasyProfile.Profile.ResetAllDirty | EasyProfile.h:201-204 | afterwards no category is dirty |
| EasyProfile.Profile.Subscribe | EasyProfile.h:213-221 | the listener is appended and the registry stays free of duplicates |
| EasyProfile.Profile.Unsubscribe | EasyProfile.h:223-231 | the first occurrence is erased, if any, and the listener is no longer registered |
| EasyProfile.Profile.Notify | EasyProfile.h:251-258 | the log grows by one call per listener, in registry order |
| EasyProfile.Listener.constructor | EasyProfile.h:91-96 | the new listener is appended to its profile's registry |
| EasyProfile.Listener.Destroy | EasyProfile.h:63-66 | the destroyed listener is no longer registered |
| DefProfile.Profile.constructor | experiments/def/include/Profile.h:164-184 | every category holds its defaults and the registry is empty |
| DefProfile.Profile.Init | experiments/def/include/Profile.h:62-81 | every category holds the supplied defaults |
| DefProfile.Profile.Get | experiments/def/include/Profile.h:105-109 | the value read is of the category's element type |
| DefProfile.Profile.Set | experiments/def/include/Profile.h:117-126 | the slot holds the value and no other slot changes. An equal value changes nothing and notifies nobody; a different one notifies every listener once |
| DefProfile.Profile.Store | experiments/def/include/Profile.h:120-123 | the assignment through the slot reference writes that slot and no other |
| DefProfile.Profile.NotifyAll | experiments/def/include/Profile.h:134-145 | one notification per slot with its current value: BOOL, then U32, then STR, indices ascending |
| DefProfile.Profile.NotifyCategory | experiments/def/include/Profile.h:136-140 | the loop for one category notifies its slots in ascending order |
| DefProfile.NotifyAllDelivers | experiments/def/include/Profile.h:134-145 | `notifyAll` hands each registered listener every slot exactly once, in order, and nothing to an unregistered one |
| DefProfile.Profile.Subscribe | experiments/def/include/Profile.h:84-92 | the listener is appended and the registry stays free of duplicates |
| DefProfile.Profile.Unsubscribe | experiments/def/include/Profile.h:94-102 | the first occurrence is erased, if any, and the listener is no longer registered |
| DefProfile.Profile.Notify | experiments/def/include/Profile.h:148-155 | the log grows by one call per listener, in registry order |
| DefProfile.Listener.constructor | experiments/def/include/Profile.h:47-52 | the new listener is appended to its profile's registry |
| DefProfile.Listener.Destroy | experiments/def/include/Profile.h:23-26 | the destroyed listener is no longer registered |
| StrongProfile.FirstMatch | strong/include/Profile.h:196-207 | `getFromTuple` selects a container of the enumerator's enum type, and no earlier container has that type |
| StrongProfile.Lookup | strong/include/Profile.h:196-207 | `getFromTuple` yields the entry at the enumerator's index in the container `FirstMatch` selects |
| StrongProfile.SetIn | strong/include/Profile.h:209-220 | `setToTuple` on one container keeps its type, every name and default, and every slot but the key's. A container of the key's type holds `v` in that slot afterwards |
| StrongProfile.SetEach | strong/include/Profile.h:153-159 | the body is the contract: `set` applies `setToTuple` to every container of the tuple and keeps its length. `SetThenLookup`, `SetEachFrame`, `SetEachUnchanged` and `SetEachWellKinded` state what it does |
| StrongProfile.SetThenLookup | strong/include/Profile.h:153-159 | after `set(e, v)`, `get(e)` is `v` and `getName(e)` and the default are unchanged |
| StrongProfile.FirstMatchSetEach | strong/include/Profile.h:196-207 | `set` never changes which container `get` selects |
| StrongProfile.SetEachFrame | strong/include/Profile.h:209-220 | `set` leaves containers of other enum types alone, and every other slot of a matching one |
| StrongProfile.SetEachUnchanged | strong/include/Profile.h:214 | when no container's slot differs from `v`, `set` changes nothing |
| StrongProfile.NotificationsNone | strong/include/Profile.h:214-218 | when no container's slot differs from `v`, `set` notifies nobody |
| StrongProfile.NotificationsDistinct | strong/include/Profile.h:153-159 | with one container per enum type, `set` notifies once when `get(e)` differed from `v` and not at all otherwise |
| StrongProfile.NotificationsDistinctUpTo | strong/include/Profile.h:153-159 | the same, for the first n steps of the fold |
| StrongProfile.SetEqualIsNoop | strong/include/Profile.h:153-159 | with one container per enum type, setting the current value changes nothing and notifies nobody |
| StrongProfile.SetEachWellKinded | strong/include/Profile.h:153-159 | `set` keeps every container holding values of its element type |
| StrongProfile.Profile.constructor | strong/include/Profile.h:242-245 | the tuple is the given containers and the registry is empty |
| StrongProfile.Profile.Init | strong/include/Profile.h:100-103 | the tuple is replaced by the given containers |
| StrongProfile.Profile.Get | strong/include/Profile.h:130-137 | the value read is of the selected container's element type |
| StrongProfile.Profile.GetName | strong/include/Profile.h:141-149 | the name is the one of the entry `getFromTuple` selects |
| StrongProfile.Profile.Set | strong/include/Profile.h:153-159 | the fold over the tuple leaves it as `SetEach` describes. The log grows by one notification per container written, in tuple order |
| StrongProfile.Profile.SetFold | strong/include/Profile.h:155-157 | the fold expression over the tuple leaves it as `SetEach` describes and logs one notification per container written, in tuple order |
| StrongProfile.Profile.SetStep | strong/include/Profile.h:156 | one `setToTuple` call in the fold takes the tuple and the log from `k` steps of the fold to `k + 1` |
| StrongProfile.Profile.SetToTuple | strong/include/Profile.h:209-220 | one step of the fold: the container becomes `SetIn` of it, and it notifies only if that container was written |
| StrongProfile.Profile.Reset | strong/include/Profile.h:163-172 | `set` to the selected entry's default, then one more notification with the default |
| StrongProfile.ResetDelivers | strong/include/Profile.h:163-172 | with one container per enum type, `reset` gives each registered listener two calls with the default when the value differed from it and one otherwise; nobody else gets any |
| StrongProfile.Profile.NotifyAll | strong/include/Profile.h:175-184 | one notification per enumerator `0..Count-1`, ascending, with the value `get` yields |
| StrongProfile.Profile.Subscribe | strong/include/Profile.h:108-117 | the listener is appended and the registry stays free of duplicates |
| StrongProfile.Profile.Unsubscribe | strong/include/Profile.h:119-127 | the first occurrence is erased, if any, and the listener is no longer registered |
| StrongProfile.Profile.Notify | strong/include/Profile.h:187-194 | the log grows by one call per listener, in registry order |
| StrongProfile.Listener.constructor | strong/include/Profile.h:85-90 | the new listener is appended to its profile's registry |
| StrongProfile.Listener.Destroy | strong/include/Profile.h:60-63 | the destroyed listener is no longer registered |
| VariantProfile.EntryDiffersIgnoresFixedParts | experiments/variant/include/Profile.h:29-32 | `!=` on entries compares the current values only, never the names or the defaults |
| VariantProfile.EntryDiffers | experiments/variant/include/Profile.h:29-32 | the body is the contract: entries differ when their current values differ, and then they are different entries |
| VariantProfile.MakeEntrySameAlternative | experiments/variant/include/Profile.h:18-23 | a new entry holds the alternative of its default |
| VariantProfile.Profile.constructor | experiments/variant/include/Profile.h:179-182 | the array is the given entries and the registry is empty |
| VariantProfile.Profile.Init | experiments/variant/include/Profile.h:84-87 | every entry is replaced |
| VariantProfile.Profile.Get | experiments/variant/include/Profile.h:119-122 | the variant read holds the alternative of the entry's default |
| VariantProfile.Profile.GetBool | experiments/variant/include/Profile.h:111-117 | `get<bool>` returns the `bool` the entry holds |
| VariantProfile.Profile.GetU32 | experiments/variant/include/Profile.h:111-117 | `get<uint32_t>` returns the integer the entry holds |
| VariantProfile.Profile.GetStr | experiments/variant/include/Profile.h:111-117 | `get<std::string>` returns the string the entry holds |
| VariantProfile.Profile.GetName | experiments/variant/include/Profile.h:126-129 | `getName(e)` is the name of entry `e` |
| VariantProfile.Profile.Set | experiments/variant/include/Profile.h:133-148 | a type mismatch is reported exactly when the entry holds another alternative, and then nothing changes. An equal value changes nothing. A different value is stored and notified once per listener |
| VariantProfile.Profile.Reset | experiments/variant/include/Profile.h:152-157 | the entry holds its default and every listener is notified, whether or not the value changed |
| VariantProfile.Profile.NotifyAll | experiments/variant/include/Profile.h:159-165 | one notification per index `0..N-1`, ascending, with its current value |
| VariantProfile.Profile.Subscribe | experiments/variant/include/Profile.h:90-98 | the listener is appended and the registry stays free of duplicates |
| VariantProfile.Profile.Unsubscribe | experiments/variant/include/Profile.h:100-108 | the first occurrence is erased, if any, and the listener is no longer registered |
| VariantProfile.Profile.Notify | experiments/variant/include/Profile.h:168-174 | the log grows by one call per listener, in registry order |
| VariantProfile.Listener.constructor | experiments/variant/include/Profile.h:69-74 | the new listener is appended to its profile's registry |
| VariantProfile.Listener.Destroy | experiments/variant/include/Profile.h:48-51 | the destroyed listener is no longer registered |
| AnyExperiment.Profile.constructor | experiments/any/include/Profile.h:161-164 | the array is the given entries and the registry is empty |
| AnyExperiment.Profile.Init | experiments/any/include/Profile.h:78-81 | every entry is replaced |
| AnyExperiment.Profile.Get | experiments/any/include/Profile.h:114-117 | the untyped `get(e)` is the value entry `e` holds |
| AnyExperiment.Profile.GetName | experiments/any/include/Profile.h:121-124 | `getName(e)` is the name of entry `e` |
| AnyExperiment.Profile.Set | experiments/any/include/Profile.h:128-132 | the value is stored, `get` yields it, and every listener is notified even if nothing changed |
| AnyExperiment.Profile.Reset | experiments/any/include/Profile.h:134-139 | the entry holds its default and every listener is notified |
| AnyExperiment.Profile.NotifyAll | experiments/any/include/Profile.h:141-147 | one notification per index `0..N-1`, ascending, with its current value |
| AnyExperiment.Profile.Subscribe | experiments/any/include/Profile.h:84-93 | the listener is appended and the registry stays free of duplicates |
| AnyExperiment.Profile.Unsubscribe | experiments/any/include/Profile.h:95-103 | the first occurrence is erased, if any, and the listener is no longer registered |
| AnyExperiment.Profile.Notify | experiments/any/include/Profile.h:150-156 | the log grows by one call per listener, in registry order |
| AnyExperiment.Listener.constructor | experiments/any/include/Profile.h:63-68 | the new listener is appended to its profile's registry |
| AnyExperiment.Listener.Destroy | experiments/any/include/Profile.h:42-45 | the destroyed listener is no longer registered |
| AnyProfile.Profile.constructor | any/include/Profile.h:88-91 | the array is the given entries and the registry is empty |
| AnyProfile.Profile.Get | any/include/Profile.h:123-126 | `get(e)` is the value entry `e` holds |
| AnyProfile.Profile.Set | any/include/Profile.h:128-132 | the value is stored, `get` yields it, and every listener is notified even if nothing changed |
| AnyProfile.Profile.NotifyAll | any/include/Profile.h:135-143 | one notification per enumerator `0..Count-1`, ascending, with the value `get` yields |
| AnyProfile.Profile.Subscribe | any/include/Profile.h:96-107 | the listener is appended and the registry stays free of duplicates |
| AnyProfile.Profile.Unsubscribe | any/include/Profile.h:109-120 | the first occurrence is erased, if any, and the listener is no longer registered |
| AnyProfile.Profile.Notify | any/include/Profile.h:146-152 | the log grows by one call per listener, in registry order |
| AnyProfile.Listener.constructor | any/include/Profile.h:67-72 | the new listener is appended to its profile's registry |
| AnyProfile.Listener.Destroy | any/include/Profile.h:46-49 | the destroyed listener is no longer registered |
| SrcProfile.EnumArray.At | src/Profile.h:31-34 | `operator[]` returns one of the array's values |
| SrcProfile.FirstMatch | src/Profile.h:161-172 | `getFromTuple` selects an array of the enumerator's enum type, and no earlier array has that type |
| SrcProfile.Lookup | src/Profile.h:161-172 | `getFromTuple` yields the value at the enumerator's index in the array `FirstMatch` selects |
| SrcProfile.SetIn | src/Profile.h:174-185 | `setToTuple` on one array keeps its type and every slot but the key's. An array of the key's type holds `v` there afterwards |
| SrcProfile.SetEach | src/Profile.h:132-138 | the body is the contract: `set` applies `setToTuple` to every array of the tuple and keeps its length. `SetThenGet`, `SetEachFrame`, `SetEachUnchanged` and `SetEachWellKinded` state what it does |
| SrcProfile.SetThenGet | src/Profile.h:132-138 | after `set(e, v)`, `get(e)` is `v` |
| SrcProfile.FirstMatchSetEach | src/Profile.h:161-172 | `set` never changes which array `get` selects |
| SrcProfile.SetEachFrame | src/Profile.h:174-185 | `set` leaves arrays of other enum types alone, and every other slot of a matching one |
| SrcProfile.SetEachUnchanged | src/Profile.h:179 | when every array of the key's type already holds `v`, `set` changes nothing |
| SrcProfile.SetEachWellKinded | src/Profile.h:132-138 | `set` keeps every array holding values of its element type |
| SrcProfile.Profile.constructor | src/Profile.h:116-119 | the tuple is the given arrays and the registry is empty |
| SrcProfile.Profile.Get | src/Profile.h:124-130 | the value read is of the selected array's element type |
| SrcProfile.Profile.Set | src/Profile.h:132-138 | the fold leaves the tuple as `SetEach` describes, and no listener is called |
| SrcProfile.Profile.UpdateContainer | src/Profile.h:140-149 | reading and notifying every enumerator calls no listener |
| SrcProfile.Profile.Notify | src/Profile.h:152-159 | the loop over the registry calls no listener |
| SrcProfile.Profile.Subscribe | strong/src/Profile.cpp:19-30 | the listener is appended and the registry stays free of duplicates |
| SrcProfile.Profile.Unsubscribe | strong/src/Profile.cpp:32-43 | the first occurrence is erased, if any, and the listener is no longer registered |
| SrcProfile.Listener.constructor | src/Profile.h:79-84 | the new listener is appended to its profile's registry |
| SrcProfile.Listener.Destroy | src/Profile.h:62-65 | the destroyed listener is no longer registered |
| SimpleProfile.SetThenGet | experiments/simple/include/Profile.h:103-112 | `set` stores the value in the selected container and keeps its names and defaults. Every other entry and container is unchanged, and setting the current value changes nothing |
| SimpleProfile.SetKeepsWellKinded | experiments/simple/include/Profile.h:103-112 | `set` keeps every container holding values of the type that selects it |
| SimpleProfile.Profile.Get | experiments/simple/include/Profile.h:96-101 | the value read is of the type that selects its container |
| SimpleProfile.Profile.Set | experiments/simple/include/Profile.h:103-112 | the tuple becomes the one `AfterSet` describes |

## Left out

- Logging is not modelled: the `printf` / `println` calls in `subscribe` and `unsubscribe`, the `logListener*` hooks, and the type-mismatch message in `experiments/variant`. They have no effect on state.
- The demo programs, their listeners and helpers (`src/main.cpp`, `src/*.cpp`, `experiments/src/*`, `test.cpp`) are not part of this model.
- The protected default constructors `Profile() = default` are not modelled. They leave the containers default-initialised.
- Listener callbacks are not executed; each call is only recorded. The model therefore does not cover re-entrancy: a callback that calls `set`, or a listener destroyed during its own notification.
- The listeners' `getProfile` / `getName` accessors are not modelled separately. They return the listener's `profile` and `name` fields.
- Values are limited to `bool`, `uint32_t` and `std::string`, the types of the demo configurations. The open typing of `std::any`, including an empty `std::any`, is not modelled.
- The macro versions (`EasyProfile.h`, `experiments/def`) are modelled for the three demo categories BOOL, U32 and STR, in that order. Their number of slots is the length of the default arrays.
- `Enum::Count` is a `count` parameter of `StrongProfile.Profile.NotifyAll`, `SrcProfile.Profile.UpdateContainer` and `AnyProfile.Profile.NotifyAll`, and every enumerator below it must name an existing slot.
- `get<T>` in `experiments/any/include/Profile.h:106-112` is not modelled. It applies `std::holds_alternative` to a `std::any`, which does not compile. The untyped `get` is modelled.
- SimpleProfile.Profile.Get: `get` in `experiments/simple/include/Profile.h:100` returns an `Entry` where a `T` is declared, which does not compile. It is modelled as returning the entry's value.
- The containers' `notifyAll(e, value)` hook in `experiments/simple/include/Profile.h:77-83` has an empty body and is not modelled. That version has no registry.
- `init` in `strong/include/Profile.h`, `experiments/variant` and `experiments/any` copy-assigns entries whose `name` and `defaultValue` are `const`. That would not compile if instantiated. It is modelled as the intended replacement of the whole contents, with containers of the same shape.
- VariantProfile.Profile.GetBool: the debug-build `assert(std::holds_alternative<T>(v))` (experiments/variant/include/Profile.h:115) is modelled as a precondition. In a release build `std::get<T>` (line 116) throws `std::bad_variant_access` on a mismatch; that path is not modelled.
- VariantProfile.Profile.GetU32: the same assert is a precondition, and the `std::bad_variant_access` of a release build is not modelled.
- VariantProfile.Profile.GetStr: the same assert is a precondition, and the `std::bad_variant_access` of a release build is not modelled.
- SrcProfile.Profile.Set: `set` forwards `v` to every container (src/Profile.h:136), and `setToTuple` moves it into the first one it writes (src/Profile.h:181). If the key's enum type occurs more than once and `v` is an rvalue `std::string`, later containers are compared with and given a moved-from string. The model gives every container `v`. `strong/include/Profile.h:153` takes `const Value&` and has no such case.
- The debug-build assert in `subscribe` is modelled as the precondition that the listener is not yet registered. In a release build a second registration is accepted. The model does not cover duplicate registrations.
- `uint32_t` values are compared and stored only, so no arithmetic wrap-around arises. The dirty mask is a 32-bit bit-vector, and only its three declared bits are used.
