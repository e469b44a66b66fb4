# Stateful: a verified model of the hierarchical state-machine engine

Stateful is a small C# library for state machines whose states and events are objects.
Behaviour is attached to *types*:

- a **state configuration** (`In<TState>()`) holds the enter and exit hooks of one state type;
- an **event rule** (`On<TState, TEvent>()`) holds an optional `When` predicate, an
  optional trigger, and optionally a transition (`Goto` or `Loop`).

The **executor** keeps the current state. On `Fire(event)` it does the following:

1. It collects every rule whose declared state and event types are ancestors-or-self of
   the runtime types.
2. It ranks those rules by inheritance distance, with rules that have a predicate before
   fallbacks at equal distance.
3. It keeps the rules whose predicates hold.
4. It refuses the event when no transition, or more than one transition of the best rank,
   remains.
5. Otherwise it runs every trigger and then takes the winning transition. A transition
   that is not a loop runs the exit hooks in reverse hook-list order, then the `Goto`
   action, then the enter hooks of the new state in hook-list order. A hook list is
   sorted largest distance first. So with the corrected distance, exits run innermost
   first and enters outermost first; as written, every distance is 0 and the order
   among a type's hooks is left open (see Findings).

Hook lists and rule lists are computed on first use and cached per runtime type.
Inheritance distances are memoised in a process-wide cache.

The repository has two versions of the engine: `src/K4os.Stateful` (newer) and
`src/Stateful` (older). Both run the same algorithm. The model is one engine with both
trees mapped onto it:

- The executor and the state side are cited from the newer tree.
- The event configurator, `TryGet`, `TryGetMode` and `EventKey` come from the older tree.
  The newer tree's copies of these files are not part of this model.

The modules follow the source's structure:

| module | models |
|---|---|
| `Outcomes` | `Option`, `Result`, and the engine's exceptions as values |
| `TypeGraph` | the type hierarchy reflection reports, as an explicit acyclic graph; `InheritsFrom`; `GetIntermediateParents` |
| `TypeDistance` | `DistanceFrom` as a recursive function, and its memoising cache as a class |
| `Collections` | `TryGet` with its five modes over a map value; `Iterate` |
| `Ordering` | `CompareTo` on integers and booleans; `Array.Sort` (an in-place insertion sort); `Array.Reverse`; `Where` and `Reverse` on sequences |
| `Machine` | states, events, callbacks as identifiers, and the trace of effects callbacks leave in the context |
| `EventKeys` | `EventKey`: construction, equality, and the unchecked 32-bit hash |
| `StateExecutors` | `StateExecutor` and the per-type hook list |
| `EventExecutors` | `EventExecutor`, its ranking, and the per-key rule list |
| `Dispatch` | the choice `OnFire` makes among the validated transitions |
| `Configuration` | the mutable configuration records, the fluent configurators, and the machine configurator |
| `Executors` | the executor class: private copies of the configuration, both caches, `OnEnter`, `OnExit`, `OnFire`, `NewExecutor` |

The user's context is modelled by its identity plus the history of effects the hooks,
triggers and `Goto` actions have had on it. A predicate or a `Goto` action is a function
of that view, the state and the event. The type distance takes a `Reading`:

- `AsWritten` is what the code computes.
- `Corrected` is what it evidently means (see Findings).

The engine is proved for both readings.

## Model

| member | source | states |
|---|---|---|
| `Collections.FactoryOrDefault` | src/Stateful/Internal/CollectionExtender.cs:47 | a missing factory yields the type's default value for every key; a given factory is used as is |
| `Collections.TryGet` | src/Stateful/Internal/CollectionExtender.cs:42-75 | The outcome depends on the mode and on whether the key is present. `CreateAndReplace` always stores and returns a fresh value. A present key fails with `ArgumentError` under `CreateOrFail` and is returned under every other mode. A missing key gives: `GetOrDefault` a fresh value that is not stored; `GetOrThrow` `KeyNotFound`; `GetOrCreate`/`CreateOrFail` a fresh value that is stored. No other key changes. |
| `Collections.Iterate` | src/Stateful/Internal/CollectionExtender.cs:14-18 | the log gains every item's effects, first item first |
| `Collections.ConcatSplit` | src/Stateful/Internal/CollectionExtender.cs:14-18 | the effects of a leading part of the items all come before those of the rest |
| `TypeGraph.InheritsTransitive` | src/K4os.Stateful/Internal/ReflectionExtender.cs:21-22 | `InheritsFrom` is reflexive and transitive |
| `TypeGraph.FirstImplementationsExactly` | src/K4os.Stateful/Internal/ReflectionExtender.cs:71-80 | the first implementations are exactly the child's interfaces that lead to the grandparent and that the base type does not already implement |
| `TypeGraph.IntermediateParents` | src/K4os.Stateful/Internal/ReflectionExtender.cs:66-87 | yields only direct parents of the child that reach the grandparent |
| `TypeGraph.IntermediateParentsExactly` | src/K4os.Stateful/Internal/ReflectionExtender.cs:66-87 | Every yielded type is the base type or an interface of the child. The base type is yielded exactly when it reaches the grandparent. An interface is yielded exactly when the grandparent is an interface and the interface is a first implementation. |
| `TypeGraph.IntermediateParentsNonEmpty` | src/K4os.Stateful/Internal/ReflectionExtender.cs:45-53 | in the type graph, a type that strictly inherits the grandparent has at least one intermediate parent, so `Min()` never runs on an empty sequence there |
| `TypeDistance.Distance` | src/K4os.Stateful/Internal/ReflectionExtender.cs:29-60 | 0 for the type itself; `ArgumentError` for unrelated types |
| `TypeDistance.MinOfParents` | src/K4os.Stateful/Internal/ReflectionExtender.cs:51-53 | a successful minimum is empty exactly when there are no parents |
| `TypeDistance.KeepSmaller` | src/K4os.Stateful/Internal/ReflectionExtender.cs:53 | one step of `Min()`: failures propagate; the result is no larger than either operand and equals one of them |
| `TypeDistance.RelatedDistanceIsDefined` | src/K4os.Stateful/Internal/ReflectionExtender.cs:45-53 | for related types the distance is defined under both readings, and as written it is 0 |
| `TypeDistance.AsWrittenDistanceIsZero` | src/K4os.Stateful/Internal/ReflectionExtender.cs:51-53 | as written, the distance is 0 if and only if the types are related |
| `TypeDistance.AsWrittenFlattensHierarchy` | src/K4os.Stateful/Internal/ReflectionExtender.cs:51-53 | as written, a direct subclass is at distance 0 from its base, the same as the base itself |
| `TypeDistance.CorrectedDistanceIsStrict` | src/K4os.Stateful/Internal/ReflectionExtender.cs:51-53 | corrected, the distance is defined, and it is 0 exactly for the type itself |
| `TypeDistance.CorrectedDistanceCountsEdges` | src/K4os.Stateful/Internal/ReflectionExtender.cs:51-53 | corrected, a strict ancestor is at distance at least 1, at most one more than any intermediate parent's distance, and exactly one more than some parent's |
| `TypeDistance.MinOfParentsIsMinimum` | src/K4os.Stateful/Internal/ReflectionExtender.cs:51-53 | the computed minimum is a lower bound of every parent's distance and is attained by one of them |
| `TypeDistance.MinOfParentsFailsEarly` | src/K4os.Stateful/Internal/ReflectionExtender.cs:51-53 | the first failing parent's error is the error of the whole minimum |
| `TypeDistance.CorrectedDistanceOnChain` | src/K4os.Stateful/Internal/ReflectionExtender.cs:51-53 | corrected, on a chain of three classes the distances are the numbers of edges, 1 and 2 |
| `TypeDistance.DistanceCache.constructor` | src/K4os.Stateful/Internal/ReflectionExtender.cs:14-15 | the cache starts empty |
| `TypeDistance.DistanceCache.DistanceFrom` | src/K4os.Stateful/Internal/ReflectionExtender.cs:29-60 | Returns exactly `Distance`, through the identity shortcut, the cache, the inheritance check and the minimum. Stored entries are never changed. A computed strict distance is stored. Every stored entry agrees with `Distance`. |
| `TypeDistance.DistanceCache.ComputeAndStore` | src/K4os.Stateful/Internal/ReflectionExtender.cs:51-59 | for a strict ancestor, returns exactly `Distance` and stores it; stored entries are never changed and all agree with `Distance` |
| `TypeDistance.StoreMinimum` | src/K4os.Stateful/Internal/ReflectionExtender.cs:51-57 | storing the minimum over the parents (plus one, corrected) under the pair keeps every cache entry equal to `Distance` |
| `TypeDistance.DistanceCache.MinOverParents` | src/K4os.Stateful/Internal/ReflectionExtender.cs:51-53 | the loop over the parents through the cache computes exactly the recursive minimum, stopping at the first failure |
| `EventKeys.NewEventKey` | src/Stateful/Internal/EventKey.cs:16-27 | fails with `ArgumentNull` exactly when a type is missing; the accessors return what was passed |
| `EventKeys.Equals` | src/Stateful/Internal/EventKey.cs:36-39 | field-wise equality holds exactly for equal keys |
| `EventKeys.EqualsObject` | src/Stateful/Internal/EventKey.cs:44-51 | false for null and for non-keys, otherwise key equality: true exactly for a boxed equal key |
| `EventKeys.GetHashCode` | src/Stateful/Internal/EventKey.cs:55-58 | the unchecked `int` result is `13 * h(state) + 7 * h(event) + 3` reduced modulo 2^32 |
| `EventKeys.EqualKeysHashAlike` | src/Stateful/Internal/EventKey.cs:36-58 | equal keys have equal hashes |
| `Ordering.CompareInts` | src/K4os.Stateful/StateMachine.StateExecutor.cs:38 | `int.CompareTo` is negative, zero or positive exactly as the first operand is below, equal to or above the second |
| `Ordering.CompareBools` | src/K4os.Stateful/StateMachine.EventExecutor.cs:59 | `bool.CompareTo` orders `false` before `true` |
| `Ordering.Sort` | src/K4os.Stateful/StateMachine.Executor.cs:118 | `Array.Sort` leaves the array ascending and a permutation of what it was |
| `Ordering.InsertLast` | src/K4os.Stateful/StateMachine.Executor.cs:118 | one pass of the sort: the next element joins the ascending prefix, and the array stays a permutation |
| `Ordering.Reverse` | src/K4os.Stateful/StateMachine.Executor.cs:119 | `Array.Reverse` leaves the array's old contents last first |
| `Ordering.ReversedMultiset` | src/K4os.Stateful/StateMachine.Executor.cs:89 | reversing keeps the elements |
| `Ordering.ReversedAscending` | src/K4os.Stateful/StateMachine.Executor.cs:118-119 | sorted then reversed is largest first |
| `Ordering.ReversedNonIncreasing` | src/K4os.Stateful/StateMachine.Executor.cs:89 | a largest-first list reversed is smallest first |
| `Ordering.FilterNonIncreasing` | src/K4os.Stateful/StateMachine.Executor.cs:86-89 | `Where` keeps a largest-first list largest first |
| `Ordering.FilterMultiset` | src/K4os.Stateful/StateMachine.Executor.cs:86 | `Where` keeps all copies of a value that passes and none of one that fails |
| `Ordering.FilterPermutation` | src/K4os.Stateful/StateMachine.Executor.cs:86 | `Where` applied to permutations of each other gives permutations of each other |
| `Machine.Run` | src/Stateful/StateMachine.EventConfigurator.cs:175-193 | `LoopHandler` returns the state it was given and does nothing; a `Goto` action records its effect |
| `StateExecutors.NewStateExecutor` | src/K4os.Stateful/StateMachine.StateExecutor.cs:16-21 | the distance is `DistanceFrom(stateType, data.StateType)`, hence 0 for the type's own configuration |
| `StateExecutors.Enter` | src/K4os.Stateful/StateMachine.StateExecutor.cs:23-27 | the enter hook runs exactly when one is configured |
| `StateExecutors.Exit` | src/K4os.Stateful/StateMachine.StateExecutor.cs:29-33 | the exit hook runs exactly when one is configured |
| `StateExecutors.Compare` | src/K4os.Stateful/StateMachine.StateExecutor.cs:38 | orders by distance only |
| `StateExecutors.CompareIsTotalPreorder` | src/K4os.Stateful/StateMachine.StateExecutor.cs:38 | `CompareTo` is a total preorder, as `Array.Sort` needs |
| `StateExecutors.Candidates` | src/K4os.Stateful/StateMachine.Executor.cs:114-117 | exactly one executor for each configuration of an ancestor-or-self, built with its distance |
| `StateExecutors.HookListMembers` | src/K4os.Stateful/StateMachine.Executor.cs:112-121 | a cached hook list holds exactly the configurations of the ancestors-or-self |
| `StateExecutors.CandidatesOnce` | src/K4os.Stateful/StateMachine.Executor.cs:114-117 | with one configuration per type, no executor occurs twice |
| `StateExecutors.OwnConfigurationLast` | src/K4os.Stateful/StateMachine.Executor.cs:112-121 | with the corrected distance, the type's own configuration is last in its hook list |
| `StateExecutors.OwnHooksInnermost` | src/K4os.Stateful/StateMachine.Executor.cs:61-75 | with the corrected distance, entering ends with the own type's enter hook, and leaving starts with its exit hook |
| `StateExecutors.AsWrittenAnyOrder` | src/K4os.Stateful/StateMachine.Executor.cs:118-119 | as written, every order of the candidates is a valid hook list |
| `StateExecutors.HierarchyCandidates` | src/K4os.Stateful/StateMachine.Executor.cs:114-117 | as written, a subclass sees its own and its base's configuration, both at distance 0 |
| `StateExecutors.OwnFirstIsHookList` | src/K4os.Stateful/StateMachine.Executor.cs:112-121 | as written, the list with a subclass's own configuration before its base's is a valid hook list |
| `StateExecutors.OwnFirstEnterTrace` | src/K4os.Stateful/StateMachine.Executor.cs:61-67 | entering through that list runs the subclass's enter hook before its base's |
| `StateExecutors.AsWrittenMayEnterOwnHookFirst` | src/K4os.Stateful/StateMachine.Executor.cs:61-67 | as written, entering a subclass state may run its own enter hook before its base's |
| `EventExecutors.NewEventExecutor` | src/K4os.Stateful/StateMachine.EventExecutor.cs:18-25 | both distances are `DistanceFrom` of the runtime types to the declared ones |
| `EventExecutors.IsTransition` | src/K4os.Stateful/StateMachine.EventExecutor.cs:28 | for a rule built by the configurator, a transition is exactly a rule with `OnExecute` set |
| `EventExecutors.Validate` | src/K4os.Stateful/StateMachine.EventExecutor.cs:31-35 | true without a predicate, otherwise the predicate's answer |
| `EventExecutors.Trigger` | src/K4os.Stateful/StateMachine.EventExecutor.cs:37-41 | the trigger runs exactly when one is configured |
| `EventExecutors.Execute` | src/K4os.Stateful/StateMachine.EventExecutor.cs:43-48 | a loop keeps the state and does nothing; a `Goto` records its action |
| `EventExecutors.CompareIsLexicographic` | src/K4os.Stateful/StateMachine.EventExecutor.cs:53-61 | `CompareTo` is the lexicographic order on (state distance, event distance, fallback), all three signs |
| `EventExecutors.PredicateBeforeFallback` | src/K4os.Stateful/StateMachine.EventExecutor.cs:53-61 | at equal distances a rule with `When` ranks strictly before a fallback |
| `EventExecutors.CompareIsTotalPreorder` | src/K4os.Stateful/StateMachine.EventExecutor.cs:53-61 | `CompareTo` is a total preorder |
| `EventExecutors.Candidates` | src/K4os.Stateful/StateMachine.Executor.cs:128-135 | exactly one executor for each rule whose state and event types are ancestors-or-self of the key's |
| `EventExecutors.RuleListMembers` | src/K4os.Stateful/StateMachine.Executor.cs:123-139 | a cached rule list holds exactly the matching rules |
| `Dispatch.Validated` | src/K4os.Stateful/StateMachine.Executor.cs:83-87 | the kept rules come from the list and their predicates hold |
| `Dispatch.Transitions` | src/K4os.Stateful/StateMachine.Executor.cs:88-89 | the kept rules are validated transitions |
| `Dispatch.Decide` | src/K4os.Stateful/StateMachine.Executor.cs:91-99 | no transition exactly when there are none; a winner is one of the transitions |
| `Dispatch.WinnerIsStrictMinimum` | src/K4os.Stateful/StateMachine.Executor.cs:88-99 | on a most-specific-first list, a rule wins if and only if it ranks strictly before every other transition |
| `Dispatch.SameDecision` | src/K4os.Stateful/StateMachine.Executor.cs:91-99 | two sorted transition lists with the same elements give the same decision |
| `Dispatch.TransitionsAscending` | src/K4os.Stateful/StateMachine.Executor.cs:86-89 | a least-specific-first rule list gives most-specific-first transitions |
| `Dispatch.TransitionsPermutation` | src/K4os.Stateful/StateMachine.Executor.cs:83-89 | rule lists with the same rules give transitions with the same rules |
| `Dispatch.DecisionIgnoresTieOrder` | src/K4os.Stateful/StateMachine.Executor.cs:83-99 | how `Array.Sort` ordered equal ranks does not change which rule fires |
| `Dispatch.TriggersLeastSpecificFirst` | src/K4os.Stateful/StateMachine.Executor.cs:101 | triggers of less specific rules run before those of more specific ones |
| `Executors.AfterTriggers` | src/K4os.Stateful/StateMachine.Executor.cs:101 | the history gains the validated rules' triggers after what it held |
| `Executors.Transit` | src/K4os.Stateful/StateMachine.Executor.cs:107-109 | exit hooks come before the action, and the new state is the action's result |
| `Executors.FireStep` | src/K4os.Stateful/StateMachine.Executor.cs:77-110 | A refused event changes neither state nor history. `NoTransition` happens exactly when no validated transition exists. The outcome is success, `NoTransition` or `Ambiguous`. The history only grows. |
| `Executors.FireFollowsMostSpecificRule` | src/K4os.Stateful/StateMachine.Executor.cs:88-109 | With a strictly most specific transition, the event is accepted. A loop keeps the state and runs only the triggers. A `Goto` runs triggers, exits, the action and enters. |
| `Executors.FireRefusesWithoutUniqueRule` | src/K4os.Stateful/StateMachine.Executor.cs:91-99 | without a strictly most specific transition, the event is refused |
| `Executors.ExitActionEnterOrder` | src/K4os.Stateful.Test/KotlinTests.cs:113-137 | after the initial enter hook, firing runs the exit hook, then the `Goto` action, then the new state's enter hook |
| `Executors.ScenarioPicksRule` | src/K4os.Stateful.Test/KotlinTests.cs:113-137 | in that scenario, the event is accepted through its single `Goto` rule |
| `Executors.ScenarioTransit` | src/K4os.Stateful.Test/KotlinTests.cs:113-137 | in that scenario, the transition runs the exit hook, the action, then the enter hook, and ends in the action's state |
| `Executors.SortDescending` | src/K4os.Stateful/StateMachine.Executor.cs:118-119 | sort then reverse gives a largest-first permutation |
| `Executors.Snapshots` | src/K4os.Stateful/StateMachine.Executor.cs:45-48 | `Select` with a copy constructor: one snapshot per record, in the records' order |
| `Executors.StateSnapshots` | src/K4os.Stateful/StateMachine.Executor.cs:45-46 | one copy per state record, in order |
| `Executors.EventSnapshots` | src/K4os.Stateful/StateMachine.Executor.cs:47-48 | one copy per rule, in order |
| `Executors.CopiedStatesDistinct` | src/K4os.Stateful/StateMachine.Configurator.cs:57 | records kept under their own types copy to a list with one entry per type |
| `Executors.SnapshotsOfConcat` | src/K4os.Stateful/StateMachine.Configurator.cs:80 | copying the flattened rule lists is flattening the copied lists |
| `Executors.CopyStates` | src/K4os.Stateful/StateMachine.Executor.cs:45-46 | every state record copied once, in dictionary order; one entry per type |
| `Executors.CopyEvents` | src/K4os.Stateful/StateMachine.Executor.cs:47-48 | every rule list copied, key after key in dictionary order |
| `Executors.CopyConfiguration` | src/K4os.Stateful/StateMachine.Executor.cs:45-48 | the executor's lists are copies of every state record and every rule; with each record under its own type, one entry per state type |
| `Executors.Executor.constructor` | src/K4os.Stateful/StateMachine.Executor.cs:38-53 | The executor holds private copies of all records and rules and starts in the given state. Its history is the initial state's enter hooks in hook-list order (largest distance first; outermost first with the corrected distance). |
| `Executors.Executor.CacheStateConfiguration` | src/K4os.Stateful/StateMachine.Executor.cs:112-121 | the result is the hook list of the type: the matching configurations, largest distance first |
| `Executors.Executor.CacheEventConfiguration` | src/K4os.Stateful/StateMachine.Executor.cs:123-139 | the result is the rule list of the key: the matching rules, least specific first |
| `Executors.Executor.HooksFor` | src/K4os.Stateful/StateMachine.Executor.cs:64-65 | returns the cached list, or computes and stores it; cached entries never change |
| `Executors.Executor.RulesFor` | src/K4os.Stateful/StateMachine.Executor.cs:84-85 | returns the cached list, or computes and stores it; cached entries never change |
| `Executors.Executor.OnEnter` | src/K4os.Stateful/StateMachine.Executor.cs:61-67 | the history gains the enter hooks of the state's type, in hook-list order |
| `Executors.Executor.OnExit` | src/K4os.Stateful/StateMachine.Executor.cs:69-75 | the history gains the exit hooks of the state's type, in reverse hook-list order |
| `Executors.Executor.Fire` | src/K4os.Stateful/StateMachine.Executor.cs:55-59 | a missing event fails with `ArgumentNull` and changes nothing; otherwise the step is `FireStep` on the cached lists |
| `Executors.Executor.OnFire` | src/K4os.Stateful/StateMachine.Executor.cs:77-110 | the new outcome, state and history are `FireStep` of the old ones on the key's cached rule list |
| `Executors.Executor.Accept` | src/K4os.Stateful/StateMachine.Executor.cs:101-109 | after the winner is chosen: all triggers run, then a loop stops there and a `Goto` gives exactly `Transit` |
| `Executors.Executor.Move` | src/K4os.Stateful/StateMachine.Executor.cs:107-109 | exit, action, enter give exactly `Transit` |
| `Executors.NewExecutor` | src/K4os.Stateful/StateMachine.Executor.cs:146-150 | Fails with `ArgumentNull` exactly when the configuration or the state is missing. Otherwise the executor holds private copies of the configuration's records and rules, is in that state, and has run its enter hooks; its other fields are the given ones. |
| `Configuration.StateConfiguration.constructor` | src/K4os.Stateful/StateMachine.StateConfigurator.cs:57 | a new record has its type and nothing set |
| `Configuration.StateConfiguration.Snapshot` | src/K4os.Stateful/StateMachine.StateConfigurator.cs:59-64 | the copy keeps the type and both hooks, and not the name |
| `Configuration.EventConfiguration.constructor` | src/Stateful/StateMachine.EventConfigurator.cs:59-63 | a new rule has its types, nothing set, and is not a loop |
| `Configuration.EventConfiguration.Snapshot` | src/Stateful/StateMachine.EventConfigurator.cs:65-73 | the copy keeps types, predicate, trigger, transition and loop flag, and not the name |
| `Configuration.StateConfigurator.constructor` | src/K4os.Stateful/StateMachine.StateConfigurator.cs:81-86 | the view refers to its machine and its record |
| `Configuration.StateConfigurator.Name` | src/K4os.Stateful/StateMachine.StateConfigurator.cs:90-98 | fails with `AlreadyDefined` once a name is set; otherwise sets it, a missing name included |
| `Configuration.StateConfigurator.OnEnter` | src/K4os.Stateful/StateMachine.StateConfigurator.cs:100-111 | Succeeds exactly when a hook is given and none is set yet. `ArgumentNull` comes first, then `AlreadyDefined`. Only the enter slot changes. |
| `Configuration.StateConfigurator.OnExit` | src/K4os.Stateful/StateMachine.StateConfigurator.cs:113-124 | the same for the exit slot |
| `Configuration.StateConfigurator.On` | src/K4os.Stateful/StateMachine.StateConfigurator.cs:126-128 | appends a fresh, empty rule for this state type through the machine configurator |
| `Configuration.EventConfigurator.constructor` | src/Stateful/StateMachine.EventConfigurator.cs:118-121 | the view refers to its rule |
| `Configuration.EventConfigurator.Name` | src/Stateful/StateMachine.EventConfigurator.cs:132-141 | Succeeds exactly when a name is given and none is set. Nothing the executor copies changes. |
| `Configuration.EventConfigurator.OnTrigger` | src/Stateful/StateMachine.EventConfigurator.cs:143-153 | Succeeds exactly when a trigger is given and none is set. Only the trigger changes. The loop invariant is kept. |
| `Configuration.EventConfigurator.When` | src/Stateful/StateMachine.EventConfigurator.cs:155-165 | Succeeds exactly when a predicate is given and none is set. Only the predicate changes. The loop invariant is kept. |
| `Configuration.EventConfigurator.Goto` | src/Stateful/StateMachine.EventConfigurator.cs:167-178 | Succeeds exactly when an action is given and no `Goto`/`Loop` is set. The rule becomes a non-loop transition. |
| `Configuration.EventConfigurator.Loop` | src/Stateful/StateMachine.EventConfigurator.cs:180-188 | Succeeds exactly when no `Goto`/`Loop` is set. The rule becomes a loop whose handler keeps the state. |
| `Configuration.Configurator.constructor` | src/K4os.Stateful/StateMachine.Configurator.cs:89-92 | a new configurator has no states and no rules |
| `Configuration.Configurator.In` | src/K4os.Stateful/StateMachine.Configurator.cs:53-59 | the type's record is created and stored on first use and is the same record afterwards; each record stays under its own type |
| `Configuration.Configurator.ConfigureState` | src/Stateful/StateMachine.Configurator.cs:42-48 | a type already configured fails with `ArgumentError`; otherwise a fresh record is stored |
| `Configuration.Configurator.On` | src/K4os.Stateful/StateMachine.Configurator.cs:61-73 | a fresh, empty rule is appended to the key's list, which is created on first use; no other key changes |
| `Configuration.Configurator.States` | src/K4os.Stateful/StateMachine.Configurator.cs:79 | every state record exactly once |
| `Configuration.Configurator.Events` | src/K4os.Stateful/StateMachine.Configurator.cs:80 | the rule lists of all keys one after another, each key once |
| `Configuration.SameStateSharesRecord` | src/K4os.Stateful.Test/KotlinTests.cs:76-83 | two `In` calls for one type share a record, so naming it twice fails |
| `Configuration.OnEnterOnlyOnce` | src/K4os.Stateful.Test/ConfigurationTests.cs:29-35 | an enter hook set through one `In` cannot be set again through another |
| `Configuration.SameEventAddsRules` | src/K4os.Stateful.Test/KotlinTests.cs:85-91 | two `On` calls for one key give two distinct rules, both registered |

## Left out

- Reflection is not modelled: `GetType()`, `IsAssignableFrom`, `BaseType` and `GetInterfaces()` are an explicit type graph passed as a parameter. `Type.GetHashCode` is a parameter of `EventKeys.GetHashCode`.
- TypeGraph.Inherits: only base types and listed interfaces make a type inherit another. `IsAssignableFrom` also accepts variant generic interfaces (an `IEvent<Derived>` assigned to an `IEvent<Base>` with `out T`), which the graph leaves out. In the source such a pair inherits but has no intermediate parent, so `Min()` at `src/K4os.Stateful/Internal/ReflectionExtender.cs:51-53` throws `InvalidOperationException` on the first `Fire` for that key. The model never matches a rule through variance.
- TypeGraph.IntermediateParentsNonEmpty: holds for the type graph only; for the variant generic pairs above the source's intermediate parents are empty.
- Exceptions thrown by user callbacks are not modelled: predicates and `Goto` actions are total functions, and hooks and triggers always complete.
- A `Goto` action that returns null is not modelled: every state is a value with a runtime type.
- The locks around the distance cache are not modelled, and neither is any other concurrency.
- `TypeDistance.DistanceCache` is owned by each executor, while the source shares one static dictionary process-wide. Every stored entry equals `Distance`, so sharing changes no result.
- Distances are unbounded naturals. 32-bit overflow of `int` distances cannot happen for real hierarchies and is not modelled.
- Dictionary enumeration order is not modelled: `Configuration.Configurator.States` and `Configuration.Configurator.Events` pick an arbitrary order, and their contracts hold for any order.
- `Ordering.Sort` is an insertion sort. `Array.Sort` is unstable, so only sortedness and permutation are promised, for this sort as for the library's. Which of equally ranked rules fires cannot depend on the tie order (`Dispatch.DecisionIgnoresTieOrder`). The order of hooks at equal distance is left open, as in the source.
- `ToString`, `TextId` and exception messages are not modelled; an error is its kind only.
- `MakeContext` and the typed context wrappers are not modelled, and neither is `StateMachineExtenders`. Callbacks see the context, state and event directly.
- `EnsureNotNull` (`ContractExtender`) is modelled as a missing `Option` value giving `ArgumentNull` in `EventKeys.NewEventKey`, `Executors.NewExecutor` and `Executors.Executor.Fire`.
- Executors.Executor.constructor: takes a configuration and a state that are present. The null checks of its lines 42-43 are made in `Executors.NewExecutor`, its only caller.
- The newer tree's `EventConfigurator` is not part of this model. The rule configurator is the older tree's `src/Stateful/StateMachine.EventConfigurator.cs`.
- The older tree does not compile consistently, and the model follows the newer tree where the two differ:
  - `src/Stateful/StateMachine.Configurator.cs:47` calls the two-argument `StateConfigurator` constructor with one argument.
  - `src/Stateful/StateMachine.StateConfigurator.cs:125-129` calls `On`, which the older configurator names `ConfigureEvent`.
- `src/K4os.Stateful.Test/KotlinTests.cs:155-174` expects the `Goto` action before the exit hooks. The code runs the exit hooks first (`src/K4os.Stateful/StateMachine.Executor.cs:107-108`). The model follows the code (`Executors.Transit`, `Executors.ExitActionEnterOrder`).
- `TryGetMode.GetOrDefault`, `GetOrThrow` and `CreateAndReplace` are modelled in `Collections.TryGet` although the engine itself only uses `GetOrCreate` and `CreateOrFail`.

## Findings

| source | as written | input that shows it | evidently intended | confidence | as-written member | corrected member |
|---|---|---|---|---|---|---|
| src/K4os.Stateful/Internal/ReflectionExtender.cs:51-53 (also src/Stateful/Internal/ReflectionExtender.cs:52-54) | the distance is the minimum of the intermediate parents' distances, with no 1 added for the edge to the parent, so every related pair is at distance 0 | `StateA : State`: `DistanceFrom(StateA, State)` is 0, the same as `DistanceFrom(State, State)`. The hook list of a `StateA` may then put `StateA`'s own hooks before `State`'s, against the order expected by `src/K4os.Stateful.Test/KotlinTests.cs:140-153` (`StateExecutors.AsWrittenMayEnterOwnHookFirst`). | one more than the closest intermediate parent's distance, so that 0 means the type itself and deeper ancestors are farther away; then a state's own enter hook runs last and its exit hook first (`StateExecutors.OwnHooksInnermost`) | high, not executed | `TypeDistance.AsWrittenFlattensHierarchy` | `TypeDistance.CorrectedDistanceIsStrict` |
