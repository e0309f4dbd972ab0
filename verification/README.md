# CallMeMaybe: verified models

CallMeMaybe reflects C++ declarations into a registry and calls functions through
type-erased values. This project models its stateful parts in Dafny and proves what
they promise over whole runs. The compiler's reflection is taken as data: a program
is a finite table of declarations (`Entities`), each `template for` a loop over a
sequence, and `hash_entity` an id per declaration.

What is modelled, module by module:

- `RegistrySpec`, `Registry`: the run-time registry. `RegistrySpec` gives every
  registration as a function on states; the class `Registry` updates its tables in
  place and is proved equal to it. `RegistryCanon`, `RegistryOrder`, `RegistryRuns`
  and `RegistryTheorems` show that a run ends in a closed form of the set of entities
  registered, and draw order independence, name answers, freezing and referential
  closure from it. `RegistryExceptions` says when a registration throws and what that
  leaves. `StoredEntities`, `StoredNames` and `MentionedTypes` say in the terms of the
  declarations what is stored after a run, what each entry says and what each name
  answers. `RegistryQueries`, `LifecycleQueries`, `BridgeQueries` and `QueriesSay` carry
  these facts to the queries, the lifetimes and the Flow bridge.
- `ClassMetadata`, `ConstructorLookup`, `ConstructorCalls`: class lists built
  incrementally and by count-then-fill, the two constructor scans, and which arguments
  the constructor thunk takes.
- `BaseAdjustment`, `InheritanceQueries`: the early-exit search for a base subobject,
  against the set of addresses over all paths, in any registry and in one that was built.
- `StableSort`, `StaticRegistry`, `StaticAdjustment`: the compiled registry with its
  in-place sort, duplicate marking, binary searches and its own search for a base.
- `Values`, `ValueRuns`, `ValueStorage`, `ValueCalls`, `ValueObjects`: `cmm::Value` on a
  memory that logs every construction and destruction; `ValueCalls` says what each
  operation leaves, the last one is in object form.
- `DynamicObjects`: the move-only handles on constructed objects.
- `FlowHandles`, `FlowAnswers`, `FlowIntegers`: the Flow bridge's handle table, what each
  call answers, and the integer and enum carrier.
- `InfoHash`: 64-bit FNV-1a (section 2 of draft-eastlake-fnv) and the ids composed
  from it.
- `Campaign`, `CampaignAnswers`, `CampaignHistories`, `MergeCampaign`, `MergeAnswers`,
  `Minimizer`, `StripScanner`, `StripAnswers`: the fuzzing campaign, what one execution and
  what any history of interrupted and resumed ones leaves, the merge of its shards, the
  bisecting minimizer, and the comment-and-literal scanner with its reading one character
  at a time.

`dafny verify dfyconfig.toml` checks everything.

## Assumptions

- Calls run one after another.
- Inheritance is acyclic and types are well founded: a rank falls from a type to the
  type it points to and from a class to its bases.
- For the registry theorems, ids are injective on the declared entities (`NameAnswers`
  also takes the id asked about to be valid). `RegistrySpec` and `Registry` themselves
  model collisions too.
- Top-level registrations are free functions, variables and types, and every child
  entity has one owner.
- `reflect_invoke`'s verdict on user code, and the decoding of floats, strings and
  raw pointers, are parameters.
- The runner of the minimizer is a function of the prefix. `run_one` may leave another
  manifest, or none, in every execution; where a history is compared with a single
  execution, the statuses are taken to repeat.
- Every program has an output directory of its own, and nothing but the campaign writes
  there.

## Findings

Properties one might expect and that do not hold as such; each has its exact condition
and, where it fails, an input.

- Member lists are not closed: an annotated type nested in a class is listed by its
  owner but stored only if something else needs it (`MemberListResolves`,
  `NestedTypeDangles`).
- register_entity does not always answer: it leaves by `std::bad_variant_access` exactly
  when an enum that is neither complete nor under way finds another kind of entity under
  its id (`ThrowsIff`). The id then stays in `registering_` for good, and later attempts
  answer Success although the enum was never registered (`AfterException`,
  `StuckForGood`; the input is in `CollisionThrows` and `ExampleCollides`).
- `construct` aborts although a fitting constructor and a destructor exist: lookup
  compares types without references and qualifiers and tries its first match only, and
  the thunk refuses arguments that do not bind (`OnlyTheseAbort`, `ThunkAcceptsIff`). It
  refuses a temporary for a reference to non-const even if a later overload takes it
  (`TemporaryForReferenceAborts`, `LaterOverloadIgnored`), every array lvalue for a
  reference to an array of const, such as a string literal (`StringLiteralAborts`), and
  an rvalue `cmm::Value` for a parameter of that type (`ValueUnwrapped`).
- A `Value` that borrows its own inline object keeps a dead address when it is assigned
  to itself through that reference, and only a call that hands a value a reference into
  its own buffer makes `is_inline_` misreport where `data_` lies (`FlagsStep`,
  `FlagsOverRuns`, `SelfReferenceDangles`, `DanglingRun`).
- `cmm_flow_release_aggregate` accepts an object handle when given the id of the pointer
  type, and then the object is lost (`LeakIff`, `MisreleaseLeaks`). After 2^64 - 1
  stores the next one is reported as a failure although it happened (`WrapMisreports`).
- Enums are zero-extended and integers sign-extended in the payload
  (`EnumsAreNotSignExtended`).
- A resumed campaign rewrites its summary from the first record on, so an early second
  crash shortens it (`EarlyCrashLosesRecords`); a record without a manifest makes a
  campaign impossible to resume or merge (`ResumeVerdict`, `MergeableIff`); a shard
  without seeds writes no summary, so merging needs at most as many shards as seeds
  (`EveryShardWritesIff`). `tools/reflection_fuzz/README.md` promises resumption and
  merging without these conditions.
- Manifests name a temporary directory, so rerunning a program changes its digest.
  Resuming is refused for a mutated manifest exactly when, since the first program was
  recorded, another manifest was left for it last, which only an execution without
  `--resume` that is interrupted in its first turn does (`MutatedIff`,
  `OnlyTornRestarts`, `TornRestartSpoils`).
- The minimizer finds a prefix whose predecessor agrees, which is the smallest
  disagreeing prefix m exactly when the runner tells the two sides of m apart at the
  midpoints on the way to m; `tools/reflection_fuzz/README.md` calls it the smallest
  (`FindsMinimumIff`, `LocalMinimumOnly`).
- Newlines escaped inside literals are dropped by the scanner, so later reported lines
  are too small by their number (`LinesRight`, `ReportedLines`,
  `EscapedNewlineShiftsLines`); without a backslash before a newline every line is right
  (`ReportedLinesRight`).

## Model

| member | source | states |
|---|---|---|
| RegistryTheorems.RegistrationOrderIndependent | include/cmm/detail/registry.hpp:66-98 | registering the same set of entities in any order and with any repeats succeeds every time and ends in one and the same entity map, materialization map and name table, with nothing left in `registering_` |
| RegistryTheorems.RunIsCanonical | include/cmm/detail/registry.hpp:66-98 | the state after any run of registrations is a closed form of the set of entities registered: what each needs, what each completes, their children and every filed name |
| RegistryRuns.RegisterStep | include/cmm/detail/registry.hpp:66-98 | one registration from any reachable state, including in the middle of another one, adds exactly its needs, completions and children; stubs seen earlier are promoted |
| RegistryOrder.EnsureStep | include/cmm/detail/registry.hpp:245-296 | a type dependency adds the type and the chain of types it points to, and nothing when already there |
| RegistryOrder.SignatureStep | include/cmm/detail/registry.hpp:362-397 | a signature adds the return and parameter types and one parameter entity per position |
| RegistryOrder.FileName | include/cmm/detail/registry.hpp:232-237 | filing a name once more leaves every other name alone and turns this one invalid exactly when a different id held it |
| RegistryRuns.EnumStep | include/cmm/detail/registry.hpp:427-451 | registering an enum completes the stub in place and adds its enumerators |
| RegistryRuns.ClassDispatch | include/cmm/detail/registry.hpp:453-593 | registering a class registers its bases first, adds bases and members in declaration order and replaces the stub by the full class |
| RegistryRuns.PlainStep | include/cmm/detail/registry.hpp:90-93 | registering a plain type stores it and its chain and marks it complete |
| RegistryTheorems.NameAnswers | include/cmm/detail/registry.hpp:232-237 | after any run a name answers with an id if and only if every filing of that name was for that entity |
| RegistryTheorems.FrozenForGood | include/cmm/detail/registry.hpp:69-71 | a frozen registry never changes again and refuses every registration |
| RegistryTheorems.AfterQuery | include/cmm/detail/registry.hpp:100-121 | any calls, a query, then any calls: the state is that before the query for good, and every later registration answers RegistryFrozen |
| RegistryTheorems.FirstQueryFixesAnswers | include/cmm/detail/registry.hpp:190-192 | what the first query sees is the closed form of the registrations before it, whatever is called afterwards |
| RegistryTheorems.RunsAreClosed | include/cmm/detail/registry.hpp:453-593 | after any run every stored type, underlying, return, parent, base, parameter, enumerator and kind-list id resolves to an entity of the right kind that refers back |
| RegistryTheorems.MemberListResolves | include/cmm/detail/registry.hpp:491-498 | every id on a registered class's member list resolves if and only if its annotated nested types were registered or needed elsewhere |
| RegistryTheorems.NestedTypeDangles | include/cmm/detail/registry.hpp:494-498 | the failing input: a class with one annotated nested class, registered alone, lists an id that is not stored |
| RegistryExceptions.ThrowsIff | include/cmm/detail/registry.hpp:427-432 | from every registry state, for every entity: register_entity leaves by an exception if and only if it is an enum, the registry is not frozen, the enum is neither complete nor under way, and another kind of entity is stored under its id |
| RegistryExceptions.Answers | include/cmm/detail/registry.hpp:66-98 | from every registry state: RegistryFrozen exactly when frozen, Success without effect for what is complete or under way, otherwise Success, EntityIdCollision or the exception; after Success the id counts as fully registered |
| RegistryExceptions.TakenIdCollides | include/cmm/detail/registry.hpp:239-243 | a function or variable whose id is taken by any entity is answered EntityIdCollision, and that entity stays; one that is registered afresh had a free id and is stored under it |
| RegistryExceptions.FirstStoredStays | include/cmm/detail/registry.hpp:245-296 | from every state, when types collide, whatever stood first under an id stays, also when it is the target of the type to be stored, and nothing complete becomes a stub again |
| RegistryExceptions.ClassReplaces | include/cmm/detail/registry.hpp:453-593 | from every state register_class puts the class under its id, whatever stood there, exactly when it succeeds; after a failure what stood there is untouched |
| RegistryExceptions.AfterException | include/cmm/detail/registry.hpp:81-97 | the exception changes nothing but `registering_`; the next attempt answers Success without effect, and over any later run the enum is never registered while its attempts answer Success or RegistryFrozen |
| RegistryExceptions.StuckForGood | include/cmm/detail/registry.hpp:78-79 | an id left in `registering_` stays there over every later run and its entity never changes again |
| RegistryExceptions.CollisionThrows | include/cmm/detail/registry.hpp:431-432 | the failing input: a variable whose class has the id of an enum, then that enum twice, gives Success, the exception, Success |
| RegistryExceptions.ExampleCollides | include/cmm/detail/registry.hpp:427-432 | a program of that kind: a class, an enum hashed like it, and a variable of the class |
| StoredEntities.StoredSays | include/cmm/detail/registry.hpp:346-593 | after any run whatever is stored for a declaration has, field by field, what the declaration says: names, types, owners, flags, positions, enumerators, base adjustments of public bases only, and the filtered member lists of completed classes; classes and enums that were only mentioned are stubs |
| StoredEntities.CompletedIff | include/cmm/detail/registry.hpp:458-465 | a declaration is completed exactly when it was registered and is no plain type, or a registered class inherits from it through any chain of bases |
| StoredEntities.RegisteredStoredIff | include/cmm/detail/registry.hpp:346-425 | a function or variable is stored exactly when it was registered |
| StoredEntities.PartStoredIff | include/cmm/detail/registry.hpp:453-593 | a base, member, parameter or enumerator is stored exactly when what it belongs to is completed and, for members, when it is annotated or a destructor; parameters of destructors are not |
| MentionedTypes.TypeStoredIff | include/cmm/detail/registry.hpp:245-296 | a type is stored exactly when it was registered, or completed as a base class, or a stored declaration mentions it as its own, target, return, underlying, parameter or decayed type |
| StoredNames.NameMeans | include/cmm/detail/registry.hpp:232-296 | a name answers the id of an entity exactly when it alone bears the name: fundamental types, classes and enums bear their canonical name from the first mention, completed functions and variables their identifier and display name, completed classes and enums their display name, and nothing the empty name |
| StoredNames.FullyRegisteredIff | include/cmm/detail/registry.hpp:76-98 | what counts as fully registered: stored plain types, and what was registered or completed as a base class |
| StoredNames.MemberNameMeans | include/cmm/detail/registry.hpp:494-498 | looking a name up in a completed class finds the only listed member with that identifier, and the invalid id when there is none or more than one |
| Registry.Registry.RegisterEntity | include/cmm/detail/registry.hpp:66-98 | the method leaves the tables of the specification: frozen, already complete and re-entered calls change nothing; the exception path leaves `registering_` as it is |
| Registry.Registry.RegisterByKind | include/cmm/detail/registry.hpp:82-93 | the choice between the five kinds of registration, each with its specified tables and error |
| Registry.Registry.EnsureTypeDependency | include/cmm/detail/registry.hpp:245-269 | stub or complete entry, and the lookup name, exactly as specified; an id already stored changes nothing |
| Registry.Registry.MakeType | include/cmm/detail/registry.hpp:271-296 | a pointer, reference or array type ensures its target before it is stored |
| Registry.Registry.AddLookupName | include/cmm/detail/registry.hpp:232-237 | empty names are skipped, a name held by another id becomes invalid |
| Registry.Registry.Insert | include/cmm/detail/registry.hpp:239-243 | an id already stored is a collision and keeps its entity |
| Registry.Registry.RegisterParameterList | include/cmm/detail/registry.hpp:369-378 | parameters from first to last; after a failure the rest are skipped |
| Registry.Registry.RegisterFreeFunction | include/cmm/detail/registry.hpp:346-360 | signature, then entity, then display name and identifier, stopping at the first failure |
| Registry.Registry.RegisterVariable | include/cmm/detail/registry.hpp:399-425 | type, then entity, then display name and identifier, stopping at the first failure |
| Registry.Registry.RegisterEnum | include/cmm/detail/registry.hpp:427-451 | the stored stub receives underlying type and entries before the enumerators are inserted |
| Registry.Registry.RegisterMember | include/cmm/detail/registry.hpp:491-586 | each kind of member ensures its types and inserts its entity; a nested type is only listed |
| Registry.Registry.RegisterBases | include/cmm/detail/registry.hpp:458-489 | each base class is registered first, then its base entity inserted and listed; the first failure stops the rest |
| Registry.Registry.RegisterClass | include/cmm/detail/registry.hpp:453-593 | the full class overwrites the stub only when everything succeeded |
| Registry.Registry.GetIdByName | include/cmm/detail/registry.hpp:100-106 | freezes, then answers the table or the invalid id |
| Registry.Registry.Contains | include/cmm/detail/registry.hpp:108-111 | freezes, then tells whether the id is stored |
| Registry.Registry.GetEntity | include/cmm/detail/registry.hpp:113-121 | freezes, then answers the stored entity; none stands for the exception on an unknown id |
| ClassMetadata.RuntimeAndStaticAgree | include/cmm/detail/static_class_metadata.hpp:18-183 | for every member list the class filled by the member loop of register_class and the class filled by the count-then-fill passes have equal member, data, static, function, constructor and base lists, the same destructor and the same answer for every name |
| ClassMetadata.LoopBuildsLists | include/cmm/detail/registry.hpp:491-588 | the whole member loop, started on a class that has its bases, ends with exactly the filtered lists and the run-time name index |
| ClassMetadata.NameEncodingsAgree | include/cmm/detail/entities/class.hpp:66-93 | an overwritten entry and repeated entries encode ambiguity alike: get_member_by_name agrees for every name |
| ClassMetadata.RuntimeIndexEntry | include/cmm/detail/entities/class.hpp:66-76 | the run-time index has one entry per name: the id when one member bears the name, the invalid id when more do |
| ClassMetadata.RuntimeStep | include/cmm/detail/registry.hpp:491-588 | one turn of the member loop takes the lists of the members so far to those of one member more |
| ClassMetadata.PickElements | include/cmm/detail/static_class_metadata.hpp:81-171 | an id array holds exactly the images of the members that pass its filter |
| ClassMetadata.CountThenFill | include/cmm/detail/static_class_metadata.hpp:24-139 | counting, then filling an array of that size, never overruns it and yields the filtered list in declaration order |
| ClassMetadata.CountMembers | include/cmm/detail/static_class_metadata.hpp:24-78 | a counting pass gives the length of the filtered list |
| ClassMetadata.FindDestructor | include/cmm/detail/static_class_metadata.hpp:152-159 | the last destructor of the member list, or the invalid id |
| ClassMetadata.GetMemberByName | include/cmm/detail/entities/class.hpp:83-93 | the id of the only entry with that name, otherwise the invalid id |
| ClassMetadata.Class.AddMemberName | include/cmm/detail/entities/class.hpp:66-76 | a repeated name makes its one entry invalid, a new one is appended |
| ClassMetadata.Class.AddMember | include/cmm/detail/entities/class.hpp:20-23 | the member list grows by the id and every other list is kept |
| ClassMetadata.Class.AddOfKind | include/cmm/detail/entities/class.hpp:25-43 | the list of that kind grows by the id and every other list is kept |
| ClassMetadata.Class.Apply | include/cmm/detail/static_class_metadata.hpp:173-182 | installs exactly the declared lists |
| ConstructorLookup.GetConstructorRuntime | include/cmm/meta.hpp:438-465 | the first member that is a constructor with exactly the expected decayed parameter types; an id of another kind of entity is a mismatch |
| ConstructorLookup.GetConstructorStatic | include/cmm/static_lifecycle.hpp:22-58 | the first listed constructor with exactly the expected decayed parameter types |
| ConstructorLookup.SameConstructorFound | include/cmm/static_lifecycle.hpp:35-57 | scanning the members and scanning the constructors find the same id for every test that only constructors pass |
| LifecycleQueries.RunsFindSameConstructor | include/cmm/meta.hpp:438-465 | after any run both scans agree for every completed class, base classes registered on the way included, and every argument list |
| LifecycleQueries.RunsStoreParameters | include/cmm/detail/registry.hpp:369-378 | after any run every parameter id of a stored function names a stored parameter, which the run-time scan relies on |
| LifecycleQueries.FirstMatchIsLookup | include/cmm/meta.hpp:438-465 | the constructor that the lifetime model picks is the one the registry scan finds |
| ConstructorCalls.FirstMatch | include/cmm/meta.hpp:445-464 | the first constructor whose parameter types are those of the arguments once references and qualifiers are removed, and none exactly when no constructor has them |
| ConstructorCalls.ValidIffBinds | include/cmm/detail/invocation/thunk.hpp:22-63 | for an argument whose type lookup accepts, the two checks of the thunk pass if and only if it binds: lvalues to references to non-const, rvalues to rvalue references and to parameters that cannot be copied; arrays only where const stands on both sides or on neither after the Value has dropped it; an rvalue cmm::Value only by what it holds |
| ConstructorCalls.ThunkAcceptsIff | include/cmm/detail/invocation/thunk.hpp:230-247 | the thunk of the constructor that was found answers Success if and only if every argument binds, and otherwise InvalidArgumentType |
| ConstructorCalls.ThunkAnswers | include/cmm/detail/invocation/thunk.hpp:22-63 | whatever values a constructor thunk is given: success exactly when there are as many as parameters and each has a type id and a policy that its parameter takes, both given as sets; a wrong number is InvalidArgumentCount |
| ConstructorCalls.LaterOverloadIgnored | include/cmm/meta.hpp:445-464 | only the first match is tried: a temporary is refused when the overload taking T& stands before the one taking const T&; in the other order it is accepted if and only if T is no array |
| ConstructorCalls.StringLiteralRefused | include/cmm/detail/invocation/thunk.hpp:34-63 | a failing input: a constructor taking a reference to an array of const is found for a string literal, or any other array lvalue, and refuses it |
| ConstructorCalls.ValueUnwrapped | include/cmm/meta.hpp:49-56 | a failing input: a constructor taking a cmm::Value is found for an rvalue cmm::Value and refuses it unless that one holds a cmm::Value; it takes the same object as an lvalue |
| LifecycleQueries.SameDestructor | include/cmm/static_lifecycle.hpp:60-72 | after any run the extra check of the compiled form never fails: both forms of get_destructor answer alike for every id |
| LifecycleQueries.DestructorIsOwn | include/cmm/meta.hpp:467-472 | a class's destructor id is a stored destructor function whose parent is that class |
| LifecycleQueries.RunsAreConsistent | include/cmm/detail/invocation/thunk.hpp:250-268 | after any run the destructor of a class accepts pointers to that class, which the lifetime theorems assume |
| QueriesSay.LifetimesSee | include/cmm/meta.hpp:438-472 | after any run construct sees, for each completed class, its annotated constructors in declaration order with the decayed type of every parameter and how it is passed, and the last destructor the class declares |
| QueriesSay.DestructorSaid | include/cmm/meta.hpp:467-472 | the destructor found for a completed class is the last one it declares |
| QueriesSay.DeclaredInOwner | include/cmm/meta.hpp:534-542 | a stored destructor is known to belong to the class that declares it |
| RegistryQueries.RunsAreAcyclic | include/cmm/detail/registry.hpp:453-489 | every registry built by registrations has acyclic bases, so the search below terminates on it |
| BaseAdjustment.AdjustInstancePointer | include/cmm/detail/registry.hpp:139-160 | Success with the only address over all accessible paths, otherwise the error and an untouched out-parameter |
| StaticAdjustment.AdjustInstancePointer | include/cmm/detail/static_registry_view.hpp:199-220 | the search through the compiled registry answers what the paths of the declaration determine: both registries search the same inheritance graph |
| StaticAdjustment.CollectBaseAdjustments | include/cmm/detail/static_registry_view.hpp:228-268 | the search that looks every class and base up by binary search summarises the same set of addresses |
| StaticRegistry.StoreIsDeclared | include/cmm/detail/static_registry_view.hpp:144-148 | a declaration of the entities of a run-time store, in any order, stands for exactly that store |
| BaseAdjustment.CollectBaseAdjustments | include/cmm/detail/registry.hpp:194-230 | candidate, found and ambiguous summarise the set of addresses seen so far plus all those below the current class, although the search stops early |
| BaseAdjustment.AdjustmentIsExact | include/cmm/detail/static_registry_view.hpp:199-220 | adjustment succeeds with an address if and only if the set of addresses over all base paths is exactly that one |
| BaseAdjustment.AdjustmentOverAllPaths | include/cmm/detail/registry.hpp:139-160 | for a non-null pointer, success with an address if and only if the paths of public bases, the empty one included, lead to that address and no other; so equal classes keep the pointer |
| BaseAdjustment.AdjustmentFails | include/cmm/detail/registry.hpp:139-160 | a null pointer answers NullValue, and without exactly one address the answer is InvalidArgumentType |
| InheritanceQueries.AdjustedBy | include/cmm/detail/registry.hpp:472-489 | after any run a base of a completed class can be adjusted through exactly when it is public and the compiler gives an adjustment, and then that one is applied |
| InheritanceQueries.AdjustmentAsDeclared | include/cmm/detail/registry.hpp:139-230 | after any run adjusting a non-null pointer from a registered class finds an address exactly when the chains of public bases that the program declares lead to it and to no other |
| BaseAdjustment.AdjustmentCoherent | include/cmm/detail/static_registry_view.hpp:199-268 | two hops that succeed never contradict the direct adjustment: it gives the same address or is refused as ambiguous |
| BaseAdjustment.BaseOrderIrrelevant | include/cmm/detail/static_registry_view.hpp:240-267 | the verdict does not depend on the order in which bases are listed |
| BaseAdjustment.DiamondVerdict | include/cmm/detail/static_registry_view.hpp:248-260 | a diamond adjusts to its root if and only if both sides reach the same subobject |
| StableSort.InsertionSort | include/cmm/detail/static_registry_view.hpp:42-56 | the array becomes the stable sort of its old contents |
| StableSort.SortSorted | include/cmm/detail/static_registry_view.hpp:42-56 | the result is sorted |
| StableSort.SortKeeps | include/cmm/detail/static_registry_view.hpp:42-56 | the result is a permutation of the input |
| StableSort.SortStable | include/cmm/detail/static_registry_view.hpp:49-53 | entries with one key keep their order |
| StableSort.SortCanonical | include/cmm/detail/static_registry_view.hpp:42-56 | with distinct keys every permutation of the input sorts to the same sequence |
| StableSort.LowerBound | include/cmm/detail/static_registry_view.hpp:178-193 | the leftmost position whose key is not less than the one looked for |
| StaticRegistry.HasDuplicateIds | include/cmm/detail/static_registry_view.hpp:68-80 | true if and only if two positions carry the same id |
| StaticRegistry.MarkDuplicates | include/cmm/detail/static_registry_view.hpp:115-124 | every run of at least two equal names is blanked, every other entry kept |
| StaticRegistry.MakeStaticRegistryData | include/cmm/detail/static_registry_view.hpp:100-127 | aborts exactly on duplicate ids, otherwise builds the compiled registry |
| StaticRegistry.MakeStaticRegistryDataWithNames | include/cmm/detail/static_registry_view.hpp:89-98 | aborts exactly on duplicate ids, otherwise sorts both arrays stably |
| StaticRegistry.CompileCanonical | include/cmm/detail/static_registry_view.hpp:100-127 | every permutation of a duplicate-free entity list compiles to identical entity and name arrays |
| StaticRegistry.FindEntity | include/cmm/detail/static_registry_view.hpp:270-291 | the position of the id, or the end when no entry carries it |
| StaticRegistry.FindAgreesWithScan | include/cmm/detail/static_registry_view.hpp:270-291 | binary search in the compiled array agrees with a linear scan of the unsorted input for every id |
| StaticRegistry.TryGetEntity | include/cmm/detail/static_registry_view.hpp:144-148 | the entity a linear scan of the declaration would find, which is the one the store of the declaration maps the id to |
| StaticRegistry.GetIdByName | include/cmm/detail/static_registry_view.hpp:176-197 | the first entry with that name in the sorted array, or the invalid id |
| StaticRegistry.NameLookupExact | include/cmm/detail/static_registry_view.hpp:89-127 | a compiled name answers with an id if and only if exactly one input entity has that name, otherwise with the invalid id |
| StaticRegistry.ExplicitNamesFirst | include/cmm/detail/static_registry_view.hpp:89-98 | with explicit names, the first-declared pair of a name wins |
| ValueRuns.Run | include/cmm/value.hpp:151-200 | over any run of construct, borrow, copy, move, assign and destroy, live owned objects and owning values are one to one and every object was destroyed at most once |
| ValueRuns.FromObject | include/cmm/value.hpp:98-112 | a new owning value, in its buffer or on the heap by its type, keeps the correspondence |
| ValueRuns.Refer | include/cmm/value.hpp:114-149 | a new borrowing value of any of the three policies keeps the correspondence |
| ValueRuns.EndOfLife | include/cmm/value.hpp:151 | ending a value removes it alone and keeps the correspondence |
| ValueRuns.MoveOf | include/cmm/value.hpp:164 | move construction keeps the correspondence |
| ValueRuns.MoveAssign | include/cmm/value.hpp:166-172 | move assignment empties its source, touches no third value and keeps the correspondence; self-assignment does nothing |
| ValueRuns.TryCopyTo | include/cmm/value.hpp:181-200 | try_copy_to never aborts, leaves no temporary behind and keeps the correspondence |
| ValueRuns.CopyAssign | include/cmm/value.hpp:155-162 | copy assignment succeeds or aborts, and keeps the correspondence when it succeeds |
| ValueRuns.CopyOf | include/cmm/value.hpp:153 | copy construction succeeds or aborts, and keeps the correspondence when it succeeds |
| ValueRuns.NothingLeaks | include/cmm/value.hpp:151 | once no value is left every object ever constructed was destroyed exactly once |
| ValueStorage.StepUndisturbed | include/cmm/value.hpp:151-200 | every call leaves all values it does not name as target, moved-from source or ended value as they were, with the very same objects |
| ValueStorage.DiesWithItsOwner | include/cmm/value.hpp:270-279 | whatever is called, an object dies only by a call that touches the value owning it, never through a value that borrows it |
| ValueStorage.BorrowedNeverDestroyed | include/cmm/value.hpp:77-83 | a call that touches borrowing and empty values only destroys no object, wherever the borrowed addresses point: to callers, to the heap or into the buffer of another value |
| ValueRuns.BorrowerEndsQuietly | include/cmm/value.hpp:270-279 | ending a borrowing or empty value runs no destructor |
| ValueRuns.OwnerEndsItsObject | include/cmm/value.hpp:270-279 | ending an owning value destroys its object and no other |
| ValueRuns.FailedCopyChangesNothing | include/cmm/value.hpp:181-200 | try_copy_to fails if and only if the value owns an object that cannot be copied, and then nothing has changed |
| ValueRuns.CopyIsFaithful | include/cmm/value.hpp:181-200 | a successful copy, onto itself included, gives the target an equal object of its own, or the same borrowed address, and leaves all other values alone |
| ValueRuns.MoveHandsOver | include/cmm/value.hpp:166-172 | move assignment hands over exactly what the source held, empties it and leaves every third value alone |
| ValueCalls.DefaultDoes | include/cmm/value.hpp:96 | a new empty value, and no object made |
| ValueCalls.FromObjectDoes | include/cmm/value.hpp:98-112 | a new value that owns a new object with the content given, in its buffer or on the heap as the type demands, with the type's ids and policy Owned |
| ValueCalls.ReferDoes | include/cmm/value.hpp:114-149 | a new value that borrows the address given, with the policy and the ids given, and owns nothing |
| ValueCalls.MoveOfDoes | include/cmm/value.hpp:164 | the new value holds what the source held, which is empty afterwards |
| ValueCalls.MoveAssignDoes | include/cmm/value.hpp:166-172 | the target's object is destroyed and replaced by what the source held; onto itself nothing happens |
| ValueCalls.EndOfLifeDoes | include/cmm/value.hpp:151 | the value is gone, and its object with it if it owned one |
| ValueCalls.TryCopyToDoes | include/cmm/value.hpp:181-200 | NonCopyableValue exactly for an owner whose object cannot be copied, with nothing changed; otherwise the target, once reset, holds an equal copy of its own or the same address |
| ValueCalls.CopyOfDoes | include/cmm/value.hpp:153 | the new value holds an equal copy, or the construction aborts exactly for an owner whose object cannot be copied |
| ValueCalls.CopyAssignDoes | include/cmm/value.hpp:155-162 | the target holds an equal copy, or the assignment aborts exactly for such an owner; onto itself nothing happens |
| ValueStorage.FlagsStep | include/cmm/value.hpp:285-303 | for each of the nine operations: with every is_inline_ right before, every one is right afterwards if and only if the call does not hand a value a reference into its own buffer |
| ValueStorage.FlagsOverRuns | include/cmm/value.hpp:285-303 | over a whole run no is_inline_ is ever wrong if and only if no call of the run does so |
| ValueStorage.DanglingRun | include/cmm/value.hpp:166-172 | the failing run: construct a value with a small object, make a reference to that object, move-assign the reference to the value |
| ValueStorage.SelfReferenceDangles | include/cmm/value.hpp:166-172 | move-assigning a reference to a value's own inline object destroys that object, leaves the value borrowing its own dead buffer and its flag wrong |
| Values.MoveFromGood | include/cmm/value.hpp:285-303 | move_from keeps the one-to-one correspondence and the destruction log |
| Values.CopyIntoGood | include/cmm/value.hpp:188-196 | the filled replacement owns a new object, logged once |
| ValueObjects.ValueObject.Reset | include/cmm/value.hpp:270-279 | the object form does to the memory and its fields what the specification says |
| ValueObjects.ValueObject.TakeOver | include/cmm/value.hpp:285-301 | the object form of move_from up to the reset of the source |
| ValueObjects.ValueObject.MoveFrom | include/cmm/value.hpp:285-303 | the object form of move_from, on both values and the memory |
| ValueObjects.ValueObject.MoveAssign | include/cmm/value.hpp:166-172 | the object form of move assignment, self-assignment included |
| ValueObjects.ValueObject.TryCopyTo | include/cmm/value.hpp:181-200 | the object form of try_copy_to: same error, same memory, same fields |
| ValueObjects.ValueObject.CopyAssign | include/cmm/value.hpp:155-162 | the object form of copy assignment; false stands for std::abort |
| DynamicObjects.Run | include/cmm/meta.hpp:490-543 | over any run of construct, move, move-assign, release and scope exit each object is held by one handle, or was destroyed once, or was released once |
| DynamicObjects.EveryObjectAccountedFor | include/cmm/meta.hpp:515-543 | when all handles are gone every object built was destroyed exactly once or released exactly once, never both |
| DynamicObjects.OnlyTheseAbort | include/cmm/meta.hpp:534-556 | a run aborts exactly when construct finds no constructor or no destructor, or an argument that cannot be copied into its Value or does not bind, or when release names another class: never inside a destructor or an assignment |
| DynamicObjects.DestroyKeepsCustody | include/cmm/meta.hpp:534-542 | destroy() runs the destructor thunk once, on the handle's own object, and the thunk never refuses |
| DynamicObjects.Construct | include/cmm/meta.hpp:548-556 | goes on exactly when the first match exists, every argument can be made and binds, and there is a destructor, and then keeps custody |
| DynamicObjects.TemporaryForReferenceAborts | include/cmm/meta.hpp:415 | the failing input: a class whose only constructor takes a reference to non-const, constructed from a temporary, aborts although constructor and destructor exist |
| DynamicObjects.StringLiteralAborts | include/cmm/meta.hpp:415 | a failing input: a class whose only constructor takes a reference to an array of const aborts for every array but a const rvalue, a string literal included |
| DynamicObjects.MoveAssignStep | include/cmm/static_lifecycle.hpp:92-102 | move assignment destroys what was held, takes over what comes in, and keeps custody |
| DynamicObjects.MoveConstruct | include/cmm/meta.hpp:500-503 | move construction hands custody over |
| DynamicObjects.ScopeExit | include/cmm/meta.hpp:515 | leaving scope destroys what is held and keeps custody of everything else |
| DynamicObjects.Release | include/cmm/meta.hpp:525-531 | hands the object out and forgets it; another class than the held one fails the type assertion |
| DynamicObjects.DefaultDoes | include/cmm/meta.hpp:492 | a new vacant handle |
| DynamicObjects.ConstructDoes | include/cmm/meta.hpp:548-556 | a new handle on a new object of that class with the class's destructor |
| DynamicObjects.MoveConstructDoes | include/cmm/meta.hpp:500-503 | the new handle holds pointer and destructor of the source, which is vacant afterwards; no object is touched |
| DynamicObjects.MoveAssignDoes | include/cmm/meta.hpp:505-513 | the target's object is destroyed, then the target holds what the source held and the source is vacant; onto itself nothing happens |
| DynamicObjects.ReleaseDoes | include/cmm/meta.hpp:525-531 | the handle is vacant and its object still alive and nobody's |
| DynamicObjects.ScopeExitDoes | include/cmm/meta.hpp:515 | the handle is gone, and its object destroyed if it had one |
| DynamicObjects.DestroyDoes | include/cmm/meta.hpp:534-542 | the object is destroyed and the handle vacant; a vacant one is left alone |
| DynamicObjects.DynamicObject.Destroy | include/cmm/static_lifecycle.hpp:131-140 | the object form of destroy(), with false for std::abort |
| DynamicObjects.DynamicObject.MoveAssign | include/cmm/static_lifecycle.hpp:92-102 | the object form of move assignment on both handles and the heap, from any pointers and destructors; false for std::abort |
| DynamicObjects.DynamicObject.Moved | include/cmm/meta.hpp:500-503 | the object form of move construction: pointer and destructor are taken over and the source is left vacant |
| DynamicObjects.DynamicObject.Release | include/cmm/static_lifecycle.hpp:121-128 | returns the held pointer and empties the handle, or changes nothing when the type is another |
| FlowHandles.RunsStaySound | bridge/flow/cmm_flow.cpp:67-94 | over any run of fewer than 2^64 - 1 stores no handle dangles, no object has two handles and no object is destroyed twice |
| FlowHandles.HandlesMatchObjects | bridge/flow/cmm_flow.cpp:386-450 | with only class and union ids given to release_aggregate, live objects and object handles stay one to one |
| FlowHandles.HandlesAreFresh | bridge/flow/cmm_flow.cpp:67-75 | a call that answers a handle answers one never used before |
| FlowHandles.GoneForGood | bridge/flow/cmm_flow.cpp:83-94 | a handle that has left the table never resolves again, whatever is called |
| FlowHandles.ReleasedOnce | bridge/flow/cmm_flow_ownership.cpp:7-22 | a successful release runs the destructor of that object once; releasing again later fails and destroys nothing |
| FlowHandles.NoSecondRelease | bridge/flow/cmm_flow.cpp:419-420 | on a handle that does not resolve every release and method call fails and changes nothing |
| FlowHandles.FailuresChangeNothing | bridge/flow/cmm_flow.cpp:386-450 | a call reports an error and yet changes the bridge if and only if the counter has wrapped to 0 and the call passes every guard on its way to store_value |
| FlowHandles.StoresIff | bridge/flow/cmm_flow.cpp:386-441 | a call uses up a handle if and only if it passes those guards: result wanted, role, decoding, invocation, and a result kept by handle |
| FlowHandles.SoundFailures | bridge/flow/cmm_flow.cpp:386-450 | within 2^64 - 1 stores every call that reports an error leaves the bridge unchanged |
| BridgeQueries.RunsAreCoherent | include/cmm/detail/registry.hpp:453-593 | what the bridge reads from any registry built by registrations, with byte spans apart from the classes that travel by handle, satisfies the assumptions of the handle theorems |
| BridgeQueries.RunsKeepPointersApart | bridge/flow/cmm_flow.cpp:443-450 | when no pointer type shares the id of a stored class, the assumption of the theorems about release_aggregate holds too |
| QueriesSay.BridgeSees | bridge/flow/cmm_flow.cpp:58-65 | after any run the bridge sees each stored function with its role, its class, whether it is static, its parameter types and its return type |
| QueriesSay.OnlyFunctionsSeen | bridge/flow/cmm_flow.cpp:58-65 | every function the bridge sees is a declared function, stored under that id |
| QueriesSay.BridgeSeesClass | bridge/flow/cmm_flow.cpp:206-215 | it sees the last declared destructor of each completed class, none of a class that was only mentioned, and every stored class but byte spans as travelling by handle |
| FlowHandles.WrapMisreports | bridge/flow/cmm_flow.cpp:399-402 | the failing input: the store after 2^64 - 1 others reports TypeMismatch while its object is alive under handle 0 |
| FlowHandles.LeakIff | bridge/flow/cmm_flow.cpp:443-450 | a call loses an object if and only if it is release_aggregate on an object handle with the id of the stored pointer type |
| FlowHandles.MisreleaseLeaks | bridge/flow/cmm_flow.cpp:443-450 | the shortest losing program: construct, then release_aggregate with the pointer type's id |
| FlowHandles.ObjectHandleLeaves | bridge/flow/cmm_flow.cpp:433-438 | an object handle leaves the table only with its object's destructor or through the losing call |
| FlowHandles.AllReleased | bridge/flow/cmm_flow_ownership.cpp:7-22 | when every handle is gone each object was destroyed exactly once |
| FlowHandles.StepEffect | bridge/flow/cmm_flow.cpp:386-450 | each call does one of six things to the bridge, and which call may do which |
| FlowHandles.FirstRefusal | bridge/flow/cmm_flow.cpp:311-329 | argument decoding succeeds if and only if every argument decodes, and otherwise answers the first refusal |
| FlowAnswers.StoreAnswers | bridge/flow/cmm_flow.cpp:67-81 | from every state: what has no type id, or as an object no class id, is not stored and has handle 0; anything else takes the next number modulo 2^64 and an occupied slot is kept |
| FlowAnswers.DecodeAnswers | bridge/flow/cmm_flow.cpp:199-239 | what decoding one argument answers, refusal by refusal, and exactly when it succeeds |
| FlowAnswers.ArgumentsAnswer | bridge/flow/cmm_flow.cpp:311-329 | argument decoding succeeds exactly when the counts agree and every argument is taken; a wrong count and a missing array have errors of their own |
| FlowAnswers.InvokeSucceedsIff | bridge/flow/cmm_flow.cpp:386-408 | cmm_flow_invoke succeeds exactly when the function is stored and needs no instance, the arguments are taken, the invocation succeeds and the result can be given back |
| FlowAnswers.InvokeReplies | bridge/flow/cmm_flow.cpp:386-408 | what it replies then: the encoding of a plain result with nothing stored, a new handle on a returned class value or on a constructed object |
| FlowAnswers.InvokeRefuses | bridge/flow/cmm_flow.cpp:386-398 | the first guard that fails gives the error, and nothing changes |
| FlowAnswers.MethodSucceedsIff | bridge/flow/cmm_flow.cpp:410-441 | cmm_flow_invoke_method succeeds exactly when the method is reached on an object of its class and, unless it is a destructor, its result can be given back |
| FlowAnswers.MethodReplies | bridge/flow/cmm_flow.cpp:410-441 | what it replies then: a destructor takes its handle away, any other method gives its result back like a function |
| FlowAnswers.MethodRefuses | bridge/flow/cmm_flow.cpp:410-432 | the first guard that fails gives the error, and nothing changes |
| FlowAnswers.ReleaseObjectAnswers | bridge/flow/cmm_flow_ownership.cpp:7-22 | cmm_flow_release_object succeeds exactly for a handle on an object of that class with a destructor, and destroys it; each refusal has its error |
| FlowAnswers.ReleaseAggregateAnswers | bridge/flow/cmm_flow.cpp:443-450 | cmm_flow_release_aggregate succeeds exactly for a handle whose value has that type, and takes it away; each refusal has its error |
| FlowHandles.ReturnedAggregateIsAccepted | bridge/flow/cmm_flow.cpp:270-279 | a class value returned through a handle is accepted as an argument of its type while the handle stays |
| FlowHandles.FlowBridge.Store | bridge/flow/cmm_flow.cpp:67-75 | the table, the counter and the handle are those of the specification; an occupied slot is kept |
| FlowHandles.FlowBridge.DecodeAll | bridge/flow/cmm_flow.cpp:311-329 | the loop answers the specified first refusal |
| FlowHandles.FlowBridge.Call | bridge/flow/cmm_flow.cpp:386-408 | cmm_flow_invoke on the mutable table |
| FlowHandles.FlowBridge.CallOn | bridge/flow/cmm_flow.cpp:410-441 | cmm_flow_invoke_method on the mutable table |
| FlowHandles.FlowBridge.ReleaseInstance | bridge/flow/cmm_flow_ownership.cpp:7-22 | cmm_flow_release_object on the mutable table |
| FlowHandles.FlowBridge.ReleaseCopy | bridge/flow/cmm_flow.cpp:443-450 | cmm_flow_release_aggregate on the mutable table |
| FlowIntegers.ValueRoundTrip | bridge/flow/cmm_flow.cpp:135-157 | for each of the ten integer types and every enum over them, sending a value of the type out and back in delivers that value |
| FlowIntegers.PayloadRoundTrip | bridge/flow/cmm_flow.cpp:241-261 | decoding any 64-bit payload and encoding it again keeps the low bits and extends them, with the sign for integers and with zeros for enums; no other payload does |
| FlowIntegers.EnumsAreNotSignExtended | bridge/flow/cmm_flow.cpp:254-261 | a number travels alike as integer and as enum if and only if it is not negative or eight bytes wide |
| FlowIntegers.DecodeAccepts | bridge/flow/cmm_flow.cpp:199-204 | a payload is accepted if and only if its kind is that of the type and the type has a branch |
| FlowIntegers.DecodedArgument | include/cmm/detail/invocation/thunk.hpp:72-79 | an enum parameter receives the underlying value that was decoded |
| FlowIntegers.StoredBits | bridge/flow/cmm_flow.cpp:258-259 | the bytes of an object read as an unsigned number are its value modulo 256^size |
| FlowIntegers.CastIsTheValue | bridge/flow/cmm_flow.cpp:139 | static_cast yields the only value of the type congruent to its operand |
| FlowIntegers.KindsMatchTypes | bridge/flow/cmm_flow.cpp:30-52 | the kind of a type stands for exactly the numbers that the type holds |
| FlowIntegers.KindsApart | bridge/flow/cmm_flow.cpp:30-52 | no two kinds stand for the same numbers |
| FlowIntegers.EncodeRefuses | bridge/flow/cmm_flow.cpp:250-309 | a result is refused, as TypeMismatch, exactly when its type is an integer without a branch |
| FlowIntegers.ReceiveIff | include/cmm/detail/invocation/thunk.hpp:22-79 | a parameter takes a value of its own type and, if it is an enum, of the type underlying it, and refuses others as InvalidArgumentType |
| InfoHash.HashString | include/cmm/detail/hash/info_hash.hpp:14-21 | the loop computes the FNV-1a fold of its bytes |
| InfoHash.HashInteger | include/cmm/detail/hash/info_hash.hpp:23-31 | the loop computes the fold of the eight little-endian bytes |
| InfoHash.StepBijective | include/cmm/detail/hash/info_hash.hpp:17-18 | one xor-and-multiply step is undone by multiplying with the inverse prime and xoring again |
| InfoHash.HashBijective | include/cmm/detail/hash/info_hash.hpp:14-21 | hashing a fixed byte string is a bijection of the 64-bit state |
| InfoHash.OneByteApart | include/cmm/detail/hash/info_hash.hpp:14-21 | strings of one length that differ in one byte never collide from the same state |
| InfoHash.HashParameter | include/cmm/detail/hash/info_hash.hpp:49-67 | the position in the parameter list and the type decide the id; otherwise name and type text |
| InfoHash.HashBase | include/cmm/detail/hash/info_hash.hpp:69-76 | class, base type, virtual flag and access level in that order |
| InfoHash.ParentsSeparateChildren | include/cmm/detail/hash/info_hash.hpp:269-285 | children built alike under different parents have different ids, and the parent's id can be recovered |
| InfoHash.ChildIdsFollowParents | include/cmm/detail/hash/info_hash.hpp:49-76 | parameters, bases, enumerators and members alike in everything else differ when their parents' ids differ |
| InfoHash.PositionsSeparateParameters | include/cmm/detail/hash/info_hash.hpp:49-61 | same-type parameters of one function have different ids at any two positions below 256 |
| InfoHash.FlagsSeparateBases | include/cmm/detail/hash/info_hash.hpp:69-76 | bases of one class and type differ when exactly one of virtual flag and access level differs |
| InfoHash.NamesSeparateSiblings | include/cmm/detail/hash/info_hash.hpp:269-285 | sibling names of one length that differ in one character have different ids: enumerators, data members of one type and other members |
| InfoHash.TypesSeparateChildren | include/cmm/detail/hash/info_hash.hpp:49-76 | types whose ids differ in one byte, at any of the eight places, give different ids to bases of one class, parameters at one position and data members of one name |
| InfoHash.PublishedVector | include/cmm/detail/hash/info_hash.hpp:14-21 | the published FNV-1a value of the text "a" |
| InfoHash.BaseFields | include/cmm/detail/hash/info_hash.hpp:69-76 | tag, type id, virtual flag and access of a base stand at fixed places of the bytes hashed after its class and can be read back, so different bases never feed the hash the same bytes |
| InfoHash.ParameterFields | include/cmm/detail/hash/info_hash.hpp:49-61 | position and type id of a parameter stand at fixed places of the bytes hashed after its function and can be read back |
| InfoHash.DataMemberFields | include/cmm/detail/hash/info_hash.hpp:275-285 | name and type id of a data member can be read back from the bytes hashed after its class |
| CampaignHistories.CrashAndResume | tools/reflection_fuzz/campaign.py:183-225 | after any history of executions, interrupted or not, resumed or not, and whatever digests they found, an execution that gets through is refused on resuming or ends with the exit code of a single uninterrupted one, with its summary up to digests, and with every recorded digest that of the manifest on disk |
| CampaignHistories.SameDigestsResume | tools/reflection_fuzz/campaign.py:183-225 | when manifests repeat and every program leaves one, it is never refused and ends with the very summary of a single uninterrupted execution |
| CampaignHistories.EverySummaryIsAPrefix | tools/reflection_fuzz/campaign.py:190-225 | after any history the summary lists the first programs of the canonical seed-by-family sequence as executions found them; every manifest but perhaps the first is the recorded one, and the first record and manifest are told by the history alone |
| CampaignHistories.MutatedIff | tools/reflection_fuzz/campaign.py:52-59 | resuming answers "mutated retained manifest" if and only if, after the execution that recorded the first program, a manifest with another digest was left for it last; the condition looks at the executions and not at the disk |
| CampaignHistories.OnlyTornRestarts | tools/reflection_fuzz/campaign.py:179-224 | that never happens without an execution that does not resume and is interrupted in its first turn after the program has left its manifest; so never when every execution resumes |
| CampaignHistories.SameDigestsKeep | tools/reflection_fuzz/campaign.py:52-59 | nor when all runs of the first program leave the same manifest |
| CampaignHistories.TornRestartSpoils | tools/reflection_fuzz/campaign.py:52-59 | the failing history: one execution, a restart without resuming that is interrupted in its first turn, and the campaign cannot be resumed |
| CampaignHistories.ExecuteIs | tools/reflection_fuzz/campaign.py:183-241 | one execution from any state a history can leave: refused with nothing changed exactly by the verdict, otherwise manifests, summary and ending in closed form |
| CampaignHistories.LoopLeaves | tools/reflection_fuzz/campaign.py:199-225 | from any disk, with any records taken over, the interrupted or finished loop leaves the manifests and the summary that follow from the disk it started on, stale manifests included |
| CampaignHistories.ResumeVerdict | tools/reflection_fuzz/campaign.py:62-86 | a summary found in the directory is refused for a mutated manifest exactly when the first one has changed, otherwise for a missing digest exactly when some record has none, otherwise accepted |
| Campaign.EntriesAccepted | tools/reflection_fuzz/campaign.py:72-86 | program entries pass if and only if they are complete, distinct, in the window and backed by unchanged manifests |
| CampaignHistories.EarlyCrashLosesRecords | tools/reflection_fuzz/campaign.py:190-225 | a resumed run that is interrupted early leaves fewer records than it found |
| CampaignHistories.SummaryWrittenIff | tools/reflection_fuzz/campaign.py:199-225 | a finished shard leaves the summary of all its records if its index is below the number of seeds, and none otherwise |
| Campaign.SelectedSeedsAre | tools/reflection_fuzz/campaign.py:12-17 | a seed is selected if and only if it is in the window and its offset has the shard's remainder |
| Campaign.KeysOfMembers | tools/reflection_fuzz/campaign.py:177 | the loop order covers exactly the selected seeds with all families |
| Campaign.CampaignDirectory.ValidateResumeSummary | tools/reflection_fuzz/campaign.py:62-86 | the loop answers the specified first refusal |
| Campaign.CampaignDirectory.TakeOver | tools/reflection_fuzz/campaign.py:187-188 | the records of the accepted summary by family and seed |
| Campaign.CampaignDirectory.RunRecord | tools/reflection_fuzz/campaign.py:201-225 | one turn takes over or runs, counts and writes the summary, unless interrupted |
| Campaign.CampaignDirectory.RunSeed | tools/reflection_fuzz/campaign.py:200-225 | the inner loop over the families of one seed |
| Campaign.CampaignDirectory.RunRecords | tools/reflection_fuzz/campaign.py:190-225 | the nested loops do to the directory what the specification says |
| Campaign.CampaignDirectory.RunCampaign | tools/reflection_fuzz/campaign.py:136-241 | the whole program with its argument checks, resumption and exit code |
| CampaignAnswers.ExecutionLeaves | tools/reflection_fuzz/campaign.py:190-241 | for any runner and any disk: after n turns the summary names this campaign, lists n programs and counts them rightly, or is the old one when there was no turn; an interruption comes after all turns granted, an unknown status before that, an exit after the whole window, with 3 exactly for a disagreement, else 1 exactly for a failure, else 0 |
| CampaignAnswers.RefusedIff | tools/reflection_fuzz/campaign.py:43-86 | for any disk: each refusal exactly when the command line is unusable, the summary is of another campaign, or the first entry that was not retained has that fault; nothing changes then |
| CampaignAnswers.CodeTells | tools/reflection_fuzz/campaign.py:238-241 | the exit code tells which statuses a summary holds |
| MergeCampaign.ShardingIsTransparent | tools/reflection_fuzz/merge_campaign.py:52-133 | for every shard count and every order of the files, finished shards merge into the programs and counts of the one-shard campaign |
| MergeCampaign.ShardsMatchSingle | tools/reflection_fuzz/merge_campaign.py:52-133 | shards that ran in output directories of their own merge into the programs, statuses, counts and exit code of a one-shard campaign in another directory |
| MergeCampaign.MergedExactlyOnce | tools/reflection_fuzz/merge_campaign.py:102-124 | every accepted merge, of any files, lists each family and seed of the window exactly once, in canonical order |
| MergeCampaign.MergeableIff | tools/reflection_fuzz/merge_campaign.py:93-100 | finished shards of one campaign merge if and only if every program left a valid digest |
| MergeCampaign.EveryShardWritesIff | tools/reflection_fuzz/campaign.py:199-225 | all shard files exist if and only if there are no more shards than seeds |
| MergeCampaign.IndexesPass | tools/reflection_fuzz/merge_campaign.py:60-64 | any order of all shards passes the index check |
| MergeCampaign.SortedRecords | tools/reflection_fuzz/merge_campaign.py:110 | sorting keeps the records and puts seeds, then families, in order |
| MergeCampaign.SelectedCount | tools/reflection_fuzz/merge_campaign.py:75-81 | the expected seed count of a shard is the number of seeds campaign.py selects |
| MergeCampaign.GatherEntries | tools/reflection_fuzz/merge_campaign.py:93-100 | the inner loop collects exactly the specified keys and records, or stops at the specified failure |
| MergeCampaign.GatherShards | tools/reflection_fuzz/merge_campaign.py:72-100 | the loop over the files, with its per-shard checks |
| MergeCampaign.MergeShards | tools/reflection_fuzz/merge_campaign.py:44-138 | the whole program from loaded files to merged document |
| MergeAnswers.MergedIff | tools/reflection_fuzz/merge_campaign.py:44-106 | any files are merged exactly when they are all shards of one campaign, each in agreement with its own numbers, and list every program of the window once with its digest |
| MergeAnswers.MergedLists | tools/reflection_fuzz/merge_campaign.py:110-124 | the merged programs are the records of the files, neither more nor less |
| MergeAnswers.MergedCode | tools/reflection_fuzz/merge_campaign.py:135-138 | the exit code of a merge tells which statuses the files hold |
| MergeAnswers.EarlyRefusals | tools/reflection_fuzz/merge_campaign.py:52-64 | other metadata, a wrong number of files and wrong indexes are refused in this order |
| MergeAnswers.LateRefusals | tools/reflection_fuzz/merge_campaign.py:72-106 | every later refusal names a fault that one of the files has, or a window that is not covered |
| Minimizer.Minimize | tools/reflection_fuzz/minimize.py:29-131 | a success is a disagreeing prefix whose predecessor, if positive, agrees; with a monotone runner it is the smallest; the witness and the final check cannot fail; at most ceil(log2(max)) probes |
| Minimizer.BisectFindsEdge | tools/reflection_fuzz/minimize.py:61-80 | the loop ends on such an edge, or at a prefix that failed otherwise, without monotonicity |
| Minimizer.FewProbes | tools/reflection_fuzz/minimize.py:63-72 | the loop runs at most ceil(log2(window)) prefixes |
| Minimizer.CeilLog2IsLeast | tools/reflection_fuzz/minimize.py:63 | that bound is the least exponent whose power of two covers the window |
| Minimizer.FindsMinimumIff | tools/reflection_fuzz/minimize.py:61-80 | with m the smallest disagreeing prefix, the search reports m if and only if the runner disagrees at the midpoints at or above m and agrees at those below, on the way a search for m takes |
| Minimizer.LocalMinimumOnly | tools/reflection_fuzz/minimize.py:61-80 | the failing input: prefixes 1 and 4 disagree, 2 and 3 agree, and 4 is reported |
| Minimizer.AlwaysFinds | tools/reflection_fuzz/minimize.py:75-80 | a runner that only agrees or disagrees is never given up on |
| StripScanner.StripCommentsAndLiterals | experiments/consteval_registry/audit_static_no_registration.py:14-52 | the nested loops terminate and compute the specified output or error |
| StripScanner.ScanClean | experiments/consteval_registry/audit_static_no_registration.py:14-52 | on success the output has no quote and opens neither kind of comment |
| StripScanner.FixedPoints | experiments/consteval_registry/audit_static_no_registration.py:14-52 | a text is left unchanged if and only if it has no quote and opens no comment |
| StripScanner.Idempotent | experiments/consteval_registry/audit_static_no_registration.py:14-52 | stripping twice is stripping once |
| StripScanner.NewlinesKept | experiments/consteval_registry/audit_static_no_registration.py:19-52 | the output has all newlines of the source but those escaped inside literals |
| StripScanner.LinesRight | experiments/consteval_registry/audit_static_no_registration.py:55-60 | a line counted in the output is the source line less the escaped newlines of literals before it, told from the source text alone; so it is right if and only if there is none |
| StripScanner.ScanCounts | experiments/consteval_registry/audit_static_no_registration.py:34-46 | the escaped newlines the loops skip are those a character-wise reading of the source finds in its literals |
| StripScanner.ReportedLines | experiments/consteval_registry/audit_static_no_registration.py:55-60 | every reported call line is the line of that call in the source less the escaped newlines of literals before it |
| StripScanner.ReportedLinesRight | experiments/consteval_registry/audit_static_no_registration.py:55-60 | when no backslash of the source stands directly before a newline, every reported call line is right |
| StripScanner.EscapedNewlineShiftsLines | experiments/consteval_registry/audit_static_no_registration.py:37-46 | the failing input: one escaped newline in a literal, and the next character is reported one line too high |
| StripScanner.FindCalls | experiments/consteval_registry/audit_static_no_registration.py:55-60 | reports the line of every match, or the scanner's error |
| StripScanner.CallsIn | experiments/consteval_registry/audit_static_no_registration.py:55-60 | the loop over the matches skips none although it jumps over each match |
| StripScanner.NoCallInside | experiments/consteval_registry/audit_static_no_registration.py:11 | matches of the call pattern do not overlap |
| StripAnswers.StripIsCharacterScan | experiments/consteval_registry/audit_static_no_registration.py:14-52 | for every source the scanner answers what a reader of single characters with seven modes does, output and error alike |
| StripAnswers.CallIff | experiments/consteval_registry/audit_static_no_registration.py:11 | a match is the name, not preceded by a word character, then blanks, then a parenthesis |
| StripAnswers.ReportsAllCalls | experiments/consteval_registry/audit_static_no_registration.py:55-60 | the reported lines are those of all calls in the text, once for each, in their order |

## Left out

- Compile-time reflection itself, `display_string_of`, and the Clang branch of `hash_entity`: their answers are inputs.
- Thread interleavings and the mutexes: whole calls are modelled one after another.
- Registry invariants after an id collision: registration is not atomic there, so closure is stated for collision-free programs only.
- Registering a member function as a top-level entity, and aliases or cv-qualified forms that give one entity a second owner.
- Thunks, getters, setters, offsets and addresses of entities, which the registry stores and never looks at.
- The const and null checks of the destructor thunk: a pointer made by a constructor thunk is neither.
- Arguments that are functions, or volatile: constructing a `cmm::Value` from them does not compile.
- Extracting the accepted arguments of a constructor, and exceptions it throws: `ConstructorCalls` ends where the constructor is called.
- `get_entity` on an unknown id, which throws: the method answers an optional entity.
- `reflect_name` across the two registries: the compiled index covers every entity name, the run-time table top-level names only.
- The fixed-shape `static_single_*` and `static_two_*` builders and the type predicates.
- Float bit casts, string, span and raw pointer payloads, `void*`, `bool` and scalar borrows of the Flow bridge: their decoding verdict is a parameter.
- Mathematical values of negative enumerators narrower than 64 bits; the metadata stores them zero-extended and only their bits are compared.
- User code that deletes an object the Flow bridge owns, or exceptions thrown by constructors.
- Reads of class arguments by reference, and `cmm_flow_reflect_name` and the kind queries of the Flow bridge.
- SHA-256, JSON, file and process I/O of the campaign tools, the format check of `--compiler`, and a crash in the middle of writing campaign.json or manifest.json.
- Values of JSON fields of an unexpected type, apart from the missing fields modelled by `Entry` and `Record`.
- Benchmarks, report generators, machine metadata and the Flow wrapper text.
- StripScanner.FindCalls: what Python's regular expressions take for a word or blank character is a parameter.
- Minimizer.Minimize: the output directory and the retained witness are not modelled.
- ValueStorage.FlagsStep: says nothing about where borrowed memory of callers lies.
- FlowHandles.RunsStaySound: stops at 2^64 - 1 stores, because handles repeat after that; `WrapMisreports` shows the first wrong answer.
- InfoHash.NamesSeparateSiblings: covers names of one length that differ in one character; names of different lengths can collide.
- InfoHash.PositionsSeparateParameters: covers positions below 256, where one byte of the index differs.
- InfoHash.TypesSeparateChildren: covers type ids that differ in one of their eight bytes; FNV-1a promises nothing about others.
