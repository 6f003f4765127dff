# Version-class builder of sqlalchemy-history, modelled in Dafny

sqlalchemy-history keeps a history ("version") table and a version class for
every SQLAlchemy model that opts into versioning. The `Builder` in
`sqlalchemy_history/builder.py` derives them: while the mapper instruments
classes it collects the versioned ones into the manager's pending list; on
each mapper configuration it builds version tables (merging a subclass that
shares its parent's physical table into the parent's entry), the transaction
class, the version classes and their relationships, then runs four
finishing passes, all behind a guard that drops re-entrant calls.

This project models that bookkeeping and control logic. Classes, physical
tables, declarative bases and metadata objects are opaque identifiers; what
the builder reads about a class (its resolution order, `__table__`,
`__versioned__`, the manager's resolved per-class options, its mapper
property keys) is an input `Hierarchy`. The manager is an immutable record:
the pending list, `tables` as an insertion-ordered sequence of pairs (like a
Python dict, overwriting a key keeps its place), the declarative base, the
transaction class, the metadata, and a log of the foreign builders invoked
and plugin hooks fired.

Files:
- `wrappers.dfy`, `seqs.dfy`: `Option`, `NoDup`, `Filter`, `IndexOf`.
- `ordered_map.dfy`: the insertion-ordered dictionary.
- `classes.dfy`: identifiers, `ClassInfo`, `IsSubclass` (Python's `issubclass`).
- `manager.dfy`: version tables, version and transaction classes, events and the manager record.
- `tables.dfy`: `build_tables`, `closest_matching_table`.
- `models.dfy`: `build_transaction_class`, `build_models`, `build_relationships`, the finishing passes.
- `instrument.dfy`: `instrument_versioned_classes`.
- `reentry.dfy`: `prevent_reentry`.
- `configure.dfy`: `configure_versioned_classes`.
- `scenarios.dfy`: concrete inheritance hierarchies through `build_tables`.

The table builder is modelled as free constructors: `Fresh(model, source)`
for `TableBuilder(manager, cls.__table__, model=cls)()` and
`Merged(model, source, inherited)` for the same builder applied to an
inherited table, so the model records exactly what each build was given.

## Model

| member | source | states |
|---|---|---|
| OrderedMap.Get | sqlalchemy_history/builder.py:68-69 | a lookup finds a value exactly when the key is present, and with distinct keys it is the value stored under that key |
| OrderedMap.Put | sqlalchemy_history/builder.py:54-57 | assignment adds an entry exactly when the key was absent |
| OrderedMap.PutKeys | sqlalchemy_history/builder.py:54-57 | assigning a present key keeps the key order; a new key is appended at the end |
| OrderedMap.PutGet | sqlalchemy_history/builder.py:54-57 | after assignment the key maps to the assigned value |
| OrderedMap.PutLeavesOthers | sqlalchemy_history/builder.py:54-57 | assigning one key leaves every other key's value unchanged |
| OrderedMap.PutKeepsKeysDistinct | sqlalchemy_history/builder.py:54-57 | assignment never introduces a repeated key |
| Seqs.Filter | sqlalchemy_history/builder.py:70-71 | the list comprehensions keep exactly the elements satisfying the condition, at most as many as the input, without introducing duplicates |
| Seqs.FilterHead | sqlalchemy_history/builder.py:71-72 | the first element of a filtered list is the earliest element of the input that satisfies the condition |
| TableBuilding.FirstInheritedKey | sqlalchemy_history/builder.py:46-50 | the key found is the first in map order that the class is a subclass of and shares its `__table__` with; none is found exactly when no key qualifies |
| TableBuilding.StoreTable | sqlalchemy_history/builder.py:42-57 | with `versioning` or `create_tables` off the manager is unchanged; otherwise only the first inherited key's entry is replaced by a table built on it and no key is added, or, when there is none, exactly one entry keyed by the class is appended; every other entry and all other state are unchanged |
| TableBuilding.BuildTablesOver | sqlalchemy_history/builder.py:41-57 | building tables changes only the table map, keeps the existing keys in order as a prefix and keeps keys distinct |
| TableBuilding.ClosestMatchingTable | sqlalchemy_history/builder.py:68-72 | an exact key wins; otherwise a table is found exactly when some class of the resolution order is a key, and it is the entry of the earliest such class; otherwise none |
| TableBuilding.ResolvableGrows | sqlalchemy_history/builder.py:68-72 | a class that resolves keeps resolving when keys are added |
| TableBuilding.BuildTables | sqlalchemy_history/builder.py:35-57 | building tables over the pending list changes nothing but the table map, keeps existing keys in place and distinct, and leaves every pending class with `versioning` and `create_tables` on resolvable to a version table |
| TableBuilding.EligibleClassesResolve | sqlalchemy_history/builder.py:41-72 | after building tables every class built with `versioning` and `create_tables` on resolves to a table |
| TableBuilding.NewKeysAreEligibleClasses | sqlalchemy_history/builder.py:41-57 | every key added by building tables is one of the classes built, with both options on |
| TableBuilding.NoKeyAddedWhenAncestorKeyed | sqlalchemy_history/builder.py:46-57 | running `build_tables` over classes that each share their physical table with a class already keyed adds no key: each is merged into an existing entry |
| TableBuilding.HierarchyGetsOneEntry | sqlalchemy_history/builder.py:46-57 | a table-sharing hierarchy whose root is handled before its subclasses, and whose root inherits no existing entry, gets exactly one new version table, keyed by the root, whatever the order of the subclasses |
| TableBuilding.IneligibleClassesIgnored | sqlalchemy_history/builder.py:41-45 | skipping the classes whose `versioning` or `create_tables` option is off gives the same manager |
| Scenarios.SubclassMergedIntoParentEntry | sqlalchemy_history/builder.py:46-57 | with a parent pending before a subclass sharing its table there is one entry, keyed by the parent, built on the parent's table, and both classes resolve to it |
| Scenarios.SiblingOrderKeepsOneEntry | sqlalchemy_history/builder.py:46-57 | two sibling subclasses pending after their parent, in either order, leave the parent as the only key |
| Scenarios.SiblingsAfterParent | sqlalchemy_history/builder.py:46-57 | a parent followed by two subclasses sharing its table yields the parent as the only key |
| Scenarios.SubclassJoinsParentEntry | sqlalchemy_history/builder.py:46-54 | with the parent as the only key, a subclass sharing its table adds no key |
| Scenarios.SubclassBeforeParentGetsOwnEntry | sqlalchemy_history/builder.py:46-57 | a subclass pending before its parent gets its own entry and the parent another |
| ModelBuilding.BuildTransactionClass | sqlalchemy_history/builder.py:128-133 | with nothing pending nothing changes; otherwise the declarative base and the transaction class come from the first pending class; pending list, tables and metadata are untouched |
| ModelBuilding.VersionClassEvents | sqlalchemy_history/builder.py:82-91 | a version class is built only for a versioned class of the list with a resolvable table, on that table and the current transaction class, and every such class gets one |
| ModelBuilding.OneVersionClassPerClass | sqlalchemy_history/builder.py:82-91 | over a duplicate-free list, each versioned class with a resolvable table gets exactly one `after_version_class_built`, and every other class none |
| ModelBuilding.BuildModels | sqlalchemy_history/builder.py:74-93 | `build_models` changes nothing but the log, and every pending versioned class that resolves to a table gets its version class, built on that table and the current transaction class |
| ModelBuilding.ModelEvents | sqlalchemy_history/builder.py:81-93 | with nothing pending no hook fires; otherwise version-class hooks come first and a single `after_build_models` last |
| ModelBuilding.PropertyEvents | sqlalchemy_history/builder.py:106-110 | the relationship builder runs for exactly the class's mapper properties other than `versions`, columns included |
| ModelBuilding.RelationshipEvents | sqlalchemy_history/builder.py:102-110 | the relationship builder runs are exactly those for the properties other than `versions` of the versioned classes in the list |
| ModelBuilding.BuildRelationships | sqlalchemy_history/builder.py:95-110 | `build_relationships` changes nothing but the log, and the relationship builder runs for every property other than `versions` of every versioned class of the list |
| ModelBuilding.FinishingEvents | sqlalchemy_history/builder.py:168-171 | the four finishing passes run in the order active history, aliases, proxies, hybrids, each once for every class of the list, in list order |
| ModelBuilding.FinishingPasses | sqlalchemy_history/builder.py:168-171 | the finishing passes change nothing but the log, and each of the four steps reaches every class of the list |
| Reentry.CheckReentry | sqlalchemy_history/builder.py:19-31 | a call with the flag set returns at once without running the handler; otherwise the handler runs with the flag set, and the flag is clear afterwards exactly when it returned normally |
| Reentry.ReentrantCallDropped | sqlalchemy_history/builder.py:23-29 | a call the handler makes back through the wrapper while it runs sees the flag set and returns without running its handler, so the outer call has the effect of the handler's own work alone and leaves the flag clear |
| Reentry.DroppedWhileFlagSet | sqlalchemy_history/builder.py:25-26 | while the flag is set every call is dropped and leaves the state unchanged |
| Reentry.InvokedUntilFirstRaise | sqlalchemy_history/builder.py:23-29 | in a run of top-level calls a handler runs exactly when no earlier call raised |
| Instrumentation.InstrumentVersionedClasses | sqlalchemy_history/builder.py:120-126 | a class is appended at the end of the pending list only when versioning is on, it has `__versioned__` without a `"class"` entry and it is not yet pending, and then the metadata is its metadata; nothing else changes |
| Instrumentation.DiscoveryOrderExtends | sqlalchemy_history/builder.py:124-125 | discovering a class keeps the collected classes in discovery order, and appending a newly discovered class keeps that order |
| Instrumentation.PendingInDiscoveryOrder | sqlalchemy_history/builder.py:120-125 | after instrumenting a sequence of classes the pending list holds exactly the collectable ones, each once, in order of first discovery |
| Configuration.ConfigurePass | sqlalchemy_history/builder.py:151-171 | with versioning off nothing changes; with it on the pending list ends empty whether or not models are created; keys are only added and the log only grows |
| Configuration.PassRunsOverEntryList | sqlalchemy_history/builder.py:154-171 | the pass appends the transaction hook, then (with `create_models`) the model hooks, relationships and finishing passes, all over the pending list as it was on entry |
| Configuration.PassEventsInStepOrder | sqlalchemy_history/builder.py:154-171 | the steps run in the fixed order transaction class, version classes, `after_build_models`, relationships, active history, aliases, proxies, hybrids |
| Configuration.TransactionHookFirstAndOnly | sqlalchemy_history/builder.py:128-133 | with versioning on and classes pending, `after_build_tx_class` is the first event of the pass, with the transaction class of the first pending class's base; it fires at no other point, and not at all when nothing is pending or versioning is off |
| Configuration.RelationshipStepPhase | sqlalchemy_history/builder.py:167 | the relationship step produces relationship builder runs only |
| Configuration.EligiblePendingClassBuiltOnce | sqlalchemy_history/builder.py:154-161 | every pending class with `versioning` and `create_tables` on gets exactly one version class per pass, and a class that was not pending gets none |
| Configuration.PassWithoutModels | sqlalchemy_history/builder.py:154-159 | without `create_models` tables and the transaction class are still built, no version class is, and the pending list ends empty |
| Configuration.NothingPendingIsNoOp | sqlalchemy_history/builder.py:151-171 | with nothing pending a pass adds no table, builds no transaction class and fires no hook |
| Configuration.PassIdempotent | sqlalchemy_history/builder.py:157-166 | a second pass right after a first changes nothing |
| Configuration.ConfigureVersionedClasses | sqlalchemy_history/builder.py:135-136 | a call made while a pass runs does nothing; a top-level call runs the pass and leaves the flag clear |
| Configuration.NestedCallDuringPassDropped | sqlalchemy_history/builder.py:19-31 | when a plugin calls `configure_versioned_classes` again from `after_build_models`, the nested call sees the flag the guard set while the pass runs, so the guarded pass has exactly the effect of a pass without that call, and the flag is clear afterwards |
| Configuration.UnguardedNestedCallBuildsTwice | sqlalchemy_history/builder.py:19-31 | had that nested call found the flag clear, as without the guard, a pending class with `versioning` and `create_tables` on would get a second version class in the same pass |
| Configuration.ConfigureIdempotent | sqlalchemy_history/builder.py:135-171 | two guarded calls in a row have the effect of one |

## Behaviour of the code worth knowing

- Whenever classes are pending, each pass sets the declarative base from the
  first pending class, calls `create_transaction_model` and fires
  `after_build_tx_class`, so the hook fires on every such pass, not once.
- Merging a subclass into its parent's table entry depends on order. The
  parent must already be a key when the subclass is handled; a subclass
  pending before its parent gets an entry of its own
  (`Scenarios.SubclassBeforeParentGetsOwnEntry`). With the root first, any
  such hierarchy gets a single entry (`TableBuilding.HierarchyGetsOneEntry`).
- `build_tables` takes the first qualifying key in dictionary order, not in
  resolution order.
- The reentry flag belongs to the decorator, so it is shared by all
  `Builder` instances, and it stays set after the pass raises, which turns
  off every later pass.
- Relationships and the finishing passes run over a copy of the pending
  list taken after `build_models`; in this model `build_models` leaves the
  pending list as it found it, so the copy is the list as it was on entry.

## Left out

- TableBuilder, ModelBuilder, RelationshipBuilder and `create_transaction_model` internals: not part of this model; their invocations are recorded as table values or log events.
- SQLAlchemy mapper introspection (`sa.inspect`, `iterate_properties`, `ConcreteInheritedProperty`) and setting `active_history`: foreign runtime plumbing; the mapper's property keys are an input.
- `create_column_aliases`, `create_association_proxies`, `create_hybrid_properties` and `enable_active_history`: only their place in the call order is modelled, one log event per class.
- `get_declarative_base` and `manager.option`: foreign calls whose results are inputs (`ClassInfo.base`, `ClassInfo.versioning`, `ClassInfo.createTables`).
- Plugin implementations: hooks are only log entries.
- The `"class"` entry of `__versioned__` is written by the model builder, which is not part of this model; it is a fixed input here.
- Classes instrumented as a side effect of building version classes, which would join the pending list between `build_models` and the copy: not modelled, since that happens inside the model builder.
- Exceptions raised by the foreign builders: the pass itself never raises in this model; the guard's behaviour when its handler raises is modelled for an arbitrary handler (`Reentry.CheckReentry`, `Reentry.InvokedUntilFirstRaise`).
- ModelBuilding.BuildTransactionClass: `create_transaction_model` is not part of this model; its result is taken to be a transaction class determined by the declarative base of the first pending class, built afresh on every pass, whether or not one already exists.
