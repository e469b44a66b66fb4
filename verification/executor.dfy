/** `Executor`: a running state machine. It keeps its own copy of the configuration, the
    current state, and two caches filled on first use: the hook list per runtime state
    type and the rule list per (state type, event type). The context's history is the
    trace of effects the callbacks have had. */
module Executors {
  import opened Outcomes
  import opened TypeGraph
  import opened TypeDistance
  import opened Machine
  import opened Ordering
  import opened Collections
  import opened EventKeys
  import opened Dispatch
  import opened Configuration
  import SE = StateExecutors
  import EE = EventExecutors

  /** What one `Fire` leaves behind: its outcome, the state, the context's history. */
  datatype Step = Step(outcome: Outcome, state: StateValue, trace: seq<Effect>)

  /** The hook list cached for a state type; none before it is cached. */
  function HooksOf(hooks: map<Tag, seq<SE.StateExecutor>>, t: Tag): (r: seq<SE.StateExecutor>)
    ensures t in hooks ==> r == hooks[t]
  {
    if t in hooks then hooks[t] else []
  }

  /** The history after the triggers of the validated rules, in rule-list order. */
  function AfterTriggers(trace: seq<Effect>, validated: seq<EE.EventExecutor>, state: StateValue, event: EventValue)
    : (r: seq<Effect>)
    ensures |trace| <= |r| && r[..|trace|] == trace
  {
    var r := trace + Concat(validated, EE.TriggerWith(state, event));
    assert r[..|trace|] == trace;
    r
  }

  /** Leaving `state` by a non-loop transition: its exit hooks in reverse hook-list order,
      the transition's action, then the enter hooks of the new state in hook-list order
      (innermost exits and outermost enters first under the corrected distance). */
  function Transit(cb: Callbacks, context: ContextId, trace: seq<Effect>, state: StateValue, event: EventValue,
                   first: EE.EventExecutor, hooks: map<Tag, seq<SE.StateExecutor>>): (s: Step)
    requires first.configuration.onExecute.Some?
    ensures var exited := trace + Concat(Reversed(HooksOf(hooks, state.tag)), SE.ExitWith(state));
      && s.outcome == Pass
      && |exited| <= |s.trace| && s.trace[..|exited|] == exited
      && s.state == EE.Execute(cb, first, ContextView(context, exited), state, event).0
  {
    var exited := trace + Concat(Reversed(HooksOf(hooks, state.tag)), SE.ExitWith(state));
    var step := EE.Execute(cb, first, ContextView(context, exited), state, event);
    var entered := exited + step.1 + Concat(HooksOf(hooks, step.0.tag), SE.EnterWith(step.0));
    assert entered[..|exited|] == exited;
    Step(Pass, step.0, entered)
  }

  /** One `OnFire` on a rule list and the hook lists: the predicates are asked, the
      decision is taken, then the triggers run; a loop ends there, any other transition
      leaves the state, runs its action and enters the new state. A refused event changes
      nothing. */
  function FireStep(cb: Callbacks, context: ContextId, trace: seq<Effect>, state: StateValue, event: EventValue,
                    rules: seq<EE.EventExecutor>, hooks: map<Tag, seq<SE.StateExecutor>>): (s: Step)
    ensures s.outcome != Pass ==> s.state == state && s.trace == trace
    ensures s.outcome == Fail(NoTransition) <==>
              Transitions(Validated(cb, ContextView(context, trace), state, event, rules)) == []
    ensures s.outcome == Pass || s.outcome == Fail(NoTransition) || s.outcome == Fail(Ambiguous)
    ensures |trace| <= |s.trace| && s.trace[..|trace|] == trace
  {
    var validated := Validated(cb, ContextView(context, trace), state, event, rules);
    match Decide(Transitions(validated))
    case NoTransitionDefined => Step(Fail(NoTransition), state, trace)
    case AmbiguousTransitions => Step(Fail(Ambiguous), state, trace)
    case Winner(first) =>
      var triggered := AfterTriggers(trace, validated, state, event);
      if EE.IsLoop(first) then Step(Pass, state, triggered)
      else
        var s := Transit(cb, context, triggered, state, event, first, hooks);
        assert s.trace[..|trace|] == trace by {
          assert |triggered| <= |s.trace| && s.trace[..|triggered|] == triggered;
          assert s.trace[..|trace|] == s.trace[..|triggered|][..|trace|];
        }
        s
  }

  /** An event is accepted exactly when one validated transition ranks strictly before all
      the others. That rule decides: a loop keeps the state and runs only the triggers; a
      `Goto` moves to what its action returns, after the triggers and the exit hooks. */
  lemma FireFollowsMostSpecificRule(cb: Callbacks, context: ContextId, trace: seq<Effect>, state: StateValue,
                                    event: EventValue, rules: seq<EE.EventExecutor>,
                                    hooks: map<Tag, seq<SE.StateExecutor>>, w: EE.EventExecutor)
    requires NonIncreasing(rules, EE.Compare)
    requires StrictMinimum(w, multiset(Transitions(Validated(cb, ContextView(context, trace), state, event, rules))))
    ensures var validated := Validated(cb, ContextView(context, trace), state, event, rules);
      var triggered := AfterTriggers(trace, validated, state, event);
      var s := FireStep(cb, context, trace, state, event, rules, hooks);
      && s.outcome == Pass
      && (EE.IsLoop(w) ==> s.state == state && s.trace == triggered)
      && (!EE.IsLoop(w) ==> w.configuration.onExecute.Some? && s == Transit(cb, context, triggered, state, event, w, hooks))
  {
    var validated := Validated(cb, ContextView(context, trace), state, event, rules);
    TransitionsAscending(cb, ContextView(context, trace), state, event, rules);
    WinnerIsStrictMinimum(Transitions(validated), w);
    assert Decide(Transitions(validated)) == Winner(w);
  }

  /** An event is refused when no rule, or more than one rule of the best rank, would
      decide the next state. */
  lemma FireRefusesWithoutUniqueRule(cb: Callbacks, context: ContextId, trace: seq<Effect>, state: StateValue,
                                     event: EventValue, rules: seq<EE.EventExecutor>,
                                     hooks: map<Tag, seq<SE.StateExecutor>>)
    requires NonIncreasing(rules, EE.Compare)
    requires forall w :: !StrictMinimum(w, multiset(Transitions(Validated(cb, ContextView(context, trace), state, event, rules))))
    ensures FireStep(cb, context, trace, state, event, rules, hooks).outcome != Pass
  {
    var t := Transitions(Validated(cb, ContextView(context, trace), state, event, rules));
    TransitionsAscending(cb, ContextView(context, trace), state, event, rules);
    if Decide(t).Winner? {
      WinnerIsStrictMinimum(t, Decide(t).rule);
    }
  }

  /** A `StateA` (tag 1) with enter hook 0 and exit hook 1, a `StateB` (tag 2) with enter
      hook 2, and one rule for (`StateA`, `EventA` (tag 3)) whose `Goto` action 5 returns a
      `StateB`. */
  const ScenarioCallbacks: Callbacks := Callbacks((p, v, s, ev) => false, (t, v, s, ev) => StateValue(2, 0))
  const ScenarioRule: EE.EventExecutor := EE.EventExecutor(EventEntry(1, 3, None, None, Some(Goto(5)), false), 1, 3, 0, 0)
  const ScenarioExitHook: SE.StateExecutor := SE.StateExecutor(StateEntry(1, Some(0), Some(1)), 1, 0)
  const ScenarioEnterHook: SE.StateExecutor := SE.StateExecutor(StateEntry(2, Some(2), None), 2, 0)
  const ScenarioHooks: map<Tag, seq<SE.StateExecutor>> := map[1 := [ScenarioExitHook], 2 := [ScenarioEnterHook]]

  /** The only rule is a transition and wins. */
  lemma ScenarioPicksRule()
    ensures var a, e := StateValue(1, 0), EventValue(3, 0);
      FireStep(ScenarioCallbacks, 0, [Entered(0, a)], a, e, [ScenarioRule], ScenarioHooks)
        == Transit(ScenarioCallbacks, 0, [Entered(0, a)], a, e, ScenarioRule, ScenarioHooks)
  {
    var a, e := StateValue(1, 0), EventValue(3, 0);
    var rule := ScenarioRule;
    var trace := [Entered(0, a)];
    var validated := Validated(ScenarioCallbacks, ContextView(0, trace), a, e, [rule]);
    assert [rule][1..] == [];
    assert validated == [rule];
    assert Filter(validated, EE.IsTransitionRule()) == [rule];
    assert Transitions(validated) == [rule];
    ConcatSingle(rule, EE.TriggerWith(a, e));
    assert AfterTriggers(trace, validated, a, e) == trace;
  }

  /** Leaving A runs its exit hook, then the action, then B's enter hook. */
  lemma ScenarioTransit()
    ensures var a, b, e := StateValue(1, 0), StateValue(2, 0), EventValue(3, 0);
      Transit(ScenarioCallbacks, 0, [Entered(0, a)], a, e, ScenarioRule, ScenarioHooks)
        == Step(Pass, b, [Entered(0, a), Exited(1, a), Transited(5, a, e), Entered(2, b)])
  {
    var a, b, e := StateValue(1, 0), StateValue(2, 0), EventValue(3, 0);
    var xa, xb := ScenarioExitHook, ScenarioEnterHook;
    assert HooksOf(ScenarioHooks, 1) == [xa] && HooksOf(ScenarioHooks, 2) == [xb];
    assert Reversed([xa]) == [xa];
    ConcatSingle(xa, SE.ExitWith(a));
    var exited := [Entered(0, a)] + [Exited(1, a)];
    assert EE.Execute(ScenarioCallbacks, ScenarioRule, ContextView(0, exited), a, e) == (b, [Transited(5, a, e)]);
    ConcatSingle(xb, SE.EnterWith(b));
  }

  /** Firing an `EventA` in `StateA`, after the initial enter hook, runs the exit hook,
      then the action, then the new state's enter hook. */
  lemma ExitActionEnterOrder()
    ensures var a, b, e := StateValue(1, 0), StateValue(2, 0), EventValue(3, 0);
      FireStep(ScenarioCallbacks, 0, [Entered(0, a)], a, e, [ScenarioRule], ScenarioHooks)
        == Step(Pass, b, [Entered(0, a), Exited(1, a), Transited(5, a, e), Entered(2, b)])
  {
    ScenarioPicksRule();
    ScenarioTransit();
  }

  /** Every cached hook list is the hook list of its state type. */
  ghost predicate HooksCached(g: Graph, reading: Reading, entries: seq<StateEntry>, cache: map<Tag, seq<SE.StateExecutor>>) {
    forall t | t in cache :: SE.IsHookList(g, reading, entries, t, cache[t])
  }

  /** Every cached rule list is the rule list of its key. */
  ghost predicate RulesCached(g: Graph, reading: Reading, entries: seq<EventEntry>, cache: map<EventKey, seq<EE.EventExecutor>>) {
    forall key | key in cache :: EE.IsRuleList(g, reading, entries, key, cache[key])
  }

  lemma StoreHooks(g: Graph, reading: Reading, entries: seq<StateEntry>, cache: map<Tag, seq<SE.StateExecutor>>,
                   t: Tag, list: seq<SE.StateExecutor>)
    requires HooksCached(g, reading, entries, cache) && SE.IsHookList(g, reading, entries, t, list)
    ensures HooksCached(g, reading, entries, cache[t := list])
  {
  }

  lemma StoreRules(g: Graph, reading: Reading, entries: seq<EventEntry>, cache: map<EventKey, seq<EE.EventExecutor>>,
                   key: EventKey, list: seq<EE.EventExecutor>)
    requires RulesCached(g, reading, entries, cache) && EE.IsRuleList(g, reading, entries, key, list)
    ensures RulesCached(g, reading, entries, cache[key := list])
  {
  }

  /** Every key of `before` keeps its value in `after`. */
  ghost predicate Grows<K, V>(before: map<K, V>, after: map<K, V>) {
    forall k | k in before :: k in after && after[k] == before[k]
  }

  /** `Array.Sort(result); Array.Reverse(result)` on a freshly built list: the same
      elements, largest first. */
  method SortDescending<T(!new)>(items: seq<T>, cmp: (T, T) -> int) returns (r: seq<T>)
    requires IsTotalPreorder(cmp)
    ensures multiset(r) == multiset(items) && NonIncreasing(r, cmp)
  {
    var a := new T[|items|](k requires 0 <= k < |items| => items[k]);
    assert a[..] == items;
    Sort(a, cmp);
    ghost var sorted := a[..];
    Reverse(a);
    ReversedMultiset(sorted);
    ReversedAscending(sorted, cmp);
    r := a[..];
  }

  /** `Select(r => new …Configuration(r))`: one snapshot per record, in order. */
  function Snapshots<C, E>(rs: seq<C>, snap: C ~> E): (r: seq<E>)
    requires forall x | x in rs :: snap.requires(x)
    reads set x, o | x in rs && o in snap.reads(x) :: o
    ensures |r| == |rs| && forall k | 0 <= k < |rs| :: r[k] == snap(rs[k])
  {
    if rs == [] then [] else [snap(rs[0])] + Snapshots(rs[1..], snap)
  }

  /** `States.Select(s => new StateConfiguration(s))`. */
  function StateSnapshots(rs: seq<StateConfiguration>): (r: seq<StateEntry>)
    reads set x | x in rs
    ensures |r| == |rs| && forall k | 0 <= k < |rs| :: r[k] == rs[k].Snapshot()
  {
    Snapshots(rs, (x: StateConfiguration) reads x => x.Snapshot())
  }

  /** `Events.Select(e => new EventConfiguration(e))`. */
  function EventSnapshots(rs: seq<EventConfiguration>): (r: seq<EventEntry>)
    reads set x | x in rs
    ensures |r| == |rs| && forall k | 0 <= k < |rs| :: r[k] == rs[k].Snapshot()
  {
    Snapshots(rs, (x: EventConfiguration) reads x => x.Snapshot())
  }

  /** The configurator's state records as values. */
  ghost function StateTable(c: Configurator): map<Tag, StateEntry>
    reads c, c.states.Values
  {
    map t | t in c.states :: c.states[t].Snapshot()
  }

  /** The configurator's rule lists as values. */
  ghost function EventTable(c: Configurator): map<EventKey, seq<EventEntry>>
    reads c, set key, x | key in c.events && x in c.events[key] :: x
  {
    map key | key in c.events :: EventSnapshots(c.events[key])
  }

  /** `list` is the values of `table`, each once, in the order of `keys`. */
  ghost predicate ListsTable<K, V>(table: map<K, V>, keys: seq<K>, list: seq<V>) {
    && |keys| == |list| == |table|
    && (forall k | 0 <= k < |keys| :: keys[k] in table && list[k] == table[keys[k]])
    && Distinct(keys)
    && (forall t | t in table :: t in keys)
  }

  /** `list` is the rule lists of `table` one after another, in the order of `keys`. */
  ghost predicate FlattensTable<K, V>(table: map<K, seq<V>>, keys: seq<K>, list: seq<V>) {
    && |keys| == |table|
    && (forall k | 0 <= k < |keys| :: keys[k] in table)
    && Distinct(keys)
    && (forall t | t in table :: t in keys)
    && list == Concat(keys, Lookup(table))
  }

  /** Copies of the state records of a configurator whose records sit under their own
      types have pairwise different types. */
  lemma CopiedStatesDistinct(table: map<Tag, StateEntry>, keys: seq<Tag>, list: seq<StateEntry>)
    requires ListsTable(table, keys, list)
    requires forall t | t in table :: table[t].stateType == t
    ensures SE.DistinctTypes(list)
  {
    forall i, j | 0 <= i < j < |list| ensures list[i].stateType != list[j].stateType {
      assert list[i].stateType == keys[i] && list[j].stateType == keys[j];
    }
  }

  /** Snapshots taken of the flattened rule lists are the flattened snapshot lists. */
  lemma {:induction false} SnapshotsOfConcat(c: Configurator, keys: seq<EventKey>)
    requires forall k | 0 <= k < |keys| :: keys[k] in c.events
    ensures EventSnapshots(Concat(keys, Lookup(c.events))) == Concat(keys, Lookup(EventTable(c)))
    decreases |keys|
  {
    if keys != [] {
      var init := keys[..|keys| - 1];
      var last := keys[|keys| - 1];
      SnapshotsOfConcat(c, init);
      var a, b := Concat(init, Lookup(c.events)), c.events[last];
      assert Concat(keys, Lookup(c.events)) == a + b;
      SnapshotsAppend(a, b);
      assert Lookup(EventTable(c))(last) == EventSnapshots(b);
    }
  }

  /** Copying two lists one after the other is copying each of them. */
  lemma SnapshotsAppend(a: seq<EventConfiguration>, b: seq<EventConfiguration>)
    ensures EventSnapshots(a + b) == EventSnapshots(a) + EventSnapshots(b)
  {
    var l, r := EventSnapshots(a + b), EventSnapshots(a) + EventSnapshots(b);
    assert |l| == |r|;
    forall k | 0 <= k < |l| ensures l[k] == r[k] {
      if k < |a| {
        assert (a + b)[k] == a[k];
      } else {
        assert (a + b)[k] == b[k - |a|];
      }
    }
  }

  /** The rule lists the configurator hands out, copied, flatten its rule table. */
  lemma EventsCopied(c: Configurator, order: seq<EventKey>, rules: seq<EventConfiguration>)
    requires |order| == |c.events| && (forall key | key in c.events :: key in order)
    requires forall key | key in order :: key in c.events
    requires Distinct(order)
    requires rules == Concat(order, Lookup(c.events))
    ensures FlattensTable(EventTable(c), order, EventSnapshots(rules))
  {
    SnapshotsOfConcat(c, order);
    assert EventTable(c).Keys == c.events.Keys;
  }

  /** `configuration.States.Select(s => new StateConfiguration(s)).ToArray()`. */
  method CopyStates(c: Configurator) returns (states: seq<StateEntry>, ghost keys: seq<Tag>)
    ensures ListsTable(old(StateTable(c)), keys, states)
    ensures old(c.Valid()) ==> SE.DistinctTypes(states)
  {
    var records;
    records, keys := c.States();
    states := StateSnapshots(records);
    var table := StateTable(c);
    assert table.Keys == c.states.Keys;
    assert ListsTable(table, keys, states);
    if c.Valid() {
      CopiedStatesDistinct(table, keys, states);
    }
  }

  /** `configuration.Events.Select(e => new EventConfiguration(e)).ToArray()`. */
  method CopyEvents(c: Configurator) returns (events: seq<EventEntry>, ghost order: seq<EventKey>)
    ensures FlattensTable(old(EventTable(c)), order, events)
  {
    ghost var table := EventTable(c);
    var rules;
    rules, order := c.Events();
    assert EventTable(c) == table;
    events := EventSnapshots(rules);
    EventsCopied(c, order, rules);
  }

  /** What the executor's private lists are: a copy of every state record, one per type
      when the records sit under their own types, and a copy of every rule list, key
      after key; both in the dictionary's order. */
  ghost predicate CopiesOf(stateTable: map<Tag, StateEntry>, eventTable: map<EventKey, seq<EventEntry>>,
                           valid: bool, states: seq<StateEntry>, events: seq<EventEntry>) {
    && (exists keys :: ListsTable(stateTable, keys, states))
    && (exists keys :: FlattensTable(eventTable, keys, events))
    && (valid ==> SE.DistinctTypes(states))
  }

  /** Lines 45-48 of the executor's constructor: both copies. */
  method CopyConfiguration(c: Configurator) returns (states: seq<StateEntry>, events: seq<EventEntry>)
    ensures CopiesOf(old(StateTable(c)), old(EventTable(c)), old(c.Valid()), states, events)
  {
    ghost var keys, order;
    states, keys := CopyStates(c);
    events, order := CopyEvents(c);
    assert ListsTable(old(StateTable(c)), keys, states);
    assert FlattensTable(old(EventTable(c)), order, events);
  }

  class Executor {
    const graph: Graph
    const reading: Reading
    const distances: DistanceCache
    const callbacks: Callbacks
    const context: ContextId
    const stateConfigList: seq<StateEntry>
    const eventConfigList: seq<EventEntry>
    var state: StateValue
    var stateConfigCache: map<Tag, seq<SE.StateExecutor>>
    var eventConfigCache: map<EventKey, seq<EE.EventExecutor>>
    var trace: seq<Effect>

    /** The distance cache belongs to the executor's type graph, and every cached list is
        what `CacheStateConfiguration` or `CacheEventConfiguration` builds for its key. */
    ghost predicate Valid()
      reads this, distances
    {
      && distances.graph == graph && distances.reading == reading && distances.Valid()
      && HooksCached(graph, reading, stateConfigList, stateConfigCache)
      && RulesCached(graph, reading, eventConfigList, eventConfigCache)
    }

    /** `new Executor(configuration, context, state)`: private copies of the state records
        and of the rules, then the enter hooks of the initial state. */
    constructor (graph: Graph, reading: Reading, configuration: Configurator, callbacks: Callbacks,
                 context: ContextId, state: StateValue)
      ensures Valid() && fresh(distances)
      ensures this.graph == graph && this.reading == reading && this.callbacks == callbacks
      ensures this.context == context && this.state == state
      ensures CopiesOf(old(StateTable(configuration)), old(EventTable(configuration)), old(configuration.Valid()),
                       stateConfigList, eventConfigList)
      ensures eventConfigCache == map[] && state.tag in stateConfigCache
      ensures trace == Concat(stateConfigCache[state.tag], SE.EnterWith(state))
    {
      var entries, rules := CopyConfiguration(configuration);
      this.graph := graph;
      this.reading := reading;
      this.callbacks := callbacks;
      this.context := context;
      this.stateConfigList := entries;
      this.eventConfigList := rules;
      this.state := state;
      this.stateConfigCache := map[];
      this.eventConfigCache := map[];
      this.trace := [];
      this.distances := new DistanceCache(graph, reading);
      new;
      ghost var t0 := trace;
      assert t0 == [];
      OnEnter();
      assert trace == t0 + Concat(stateConfigCache[state.tag], SE.EnterWith(state));
      assert t0 + Concat(stateConfigCache[state.tag], SE.EnterWith(state)) == Concat(stateConfigCache[state.tag], SE.EnterWith(state));
    }

    /** `CacheStateConfiguration`: every state record of an ancestor-or-self of
        `stateType`, with its distance through the cache, sorted and reversed. */
    method CacheStateConfiguration(stateType: Tag) returns (r: seq<SE.StateExecutor>)
      requires Valid()
      modifies distances
      ensures Valid()
      ensures SE.IsHookList(graph, reading, stateConfigList, stateType, r)
    {
      var found: seq<SE.StateExecutor> := [];
      for i := 0 to |stateConfigList|
        invariant Valid()
        invariant found == SE.Candidates(graph, reading, stateConfigList[..i], stateType)
      {
        var s := stateConfigList[i];
        assert stateConfigList[..i + 1][..i] == stateConfigList[..i];
        if Inherits(graph, stateType, s.stateType) {
          var d := distances.DistanceFrom(stateType, s.stateType);
          assert d == Ok(RelatedDistance(graph, stateType, s.stateType, reading));
          found := found + [SE.StateExecutor(s, stateType, d.value)];
        }
      }
      assert stateConfigList[..|stateConfigList|] == stateConfigList;
      SE.CompareIsTotalPreorder();
      r := SortDescending(found, SE.Compare);
    }

    /** `CacheEventConfiguration`: every rule whose state and event types are
        ancestors-or-self of the key's, with both distances through the cache, sorted and
        reversed. */
    method CacheEventConfiguration(key: EventKey) returns (r: seq<EE.EventExecutor>)
      requires Valid()
      modifies distances
      ensures Valid()
      ensures EE.IsRuleList(graph, reading, eventConfigList, key, r)
    {
      var found: seq<EE.EventExecutor> := [];
      for i := 0 to |eventConfigList|
        invariant Valid()
        invariant found == EE.Candidates(graph, reading, eventConfigList[..i], key)
      {
        var e := eventConfigList[i];
        assert eventConfigList[..i + 1][..i] == eventConfigList[..i];
        if Inherits(graph, key.stateType, e.stateType) && Inherits(graph, key.eventType, e.eventType) {
          var ds := distances.DistanceFrom(key.stateType, e.stateType);
          var de := distances.DistanceFrom(key.eventType, e.eventType);
          assert ds == Ok(RelatedDistance(graph, key.stateType, e.stateType, reading));
          assert de == Ok(RelatedDistance(graph, key.eventType, e.eventType, reading));
          found := found + [EE.EventExecutor(e, key.stateType, key.eventType, ds.value, de.value)];
        }
      }
      assert eventConfigList[..|eventConfigList|] == eventConfigList;
      EE.CompareIsTotalPreorder();
      r := SortDescending(found, EE.Compare);
    }

    /** `_stateConfigCache.TryGet(stateType, GetOrCreate, CacheStateConfiguration)`, with
        the get-or-create step written out: the factory is a method that fills the
        distance cache, which `Collections.TryGet`'s function-valued factory cannot be. */
    method HooksFor(stateType: Tag) returns (r: seq<SE.StateExecutor>)
      requires Valid()
      modifies this, distances
      ensures Valid()
      ensures stateType in stateConfigCache && r == stateConfigCache[stateType]
      ensures Grows(old(stateConfigCache), stateConfigCache)
      ensures eventConfigCache == old(eventConfigCache) && state == old(state) && trace == old(trace)
    {
      if stateType in stateConfigCache {
        return stateConfigCache[stateType];
      }
      r := CacheStateConfiguration(stateType);
      StoreHooks(graph, reading, stateConfigList, stateConfigCache, stateType, r);
      stateConfigCache := stateConfigCache[stateType := r];
    }

    /** `_eventConfigCache.TryGet(eventKey, GetOrCreate, CacheEventConfiguration)`, written
        out for the same reason as `HooksFor`. */
    method RulesFor(key: EventKey) returns (r: seq<EE.EventExecutor>)
      requires Valid()
      modifies this, distances
      ensures Valid()
      ensures key in eventConfigCache && r == eventConfigCache[key]
      ensures Grows(old(eventConfigCache), eventConfigCache)
      ensures stateConfigCache == old(stateConfigCache) && state == old(state) && trace == old(trace)
    {
      if key in eventConfigCache {
        return eventConfigCache[key];
      }
      r := CacheEventConfiguration(key);
      StoreRules(graph, reading, eventConfigList, eventConfigCache, key, r);
      eventConfigCache := eventConfigCache[key := r];
    }

    /** `OnEnter`: the enter hooks of the current state type, in hook-list order (largest
        distance first). */
    method OnEnter()
      requires Valid()
      modifies this, distances
      ensures Valid()
      ensures state.tag in stateConfigCache
      ensures trace == old(trace) + Concat(stateConfigCache[state.tag], SE.EnterWith(state))
      ensures Grows(old(stateConfigCache), stateConfigCache)
      ensures eventConfigCache == old(eventConfigCache) && state == old(state)
    {
      var configs := HooksFor(state.tag);
      trace := Iterate(configs, SE.EnterWith(state), trace);
    }

    /** `OnExit`: the exit hooks of the current state type, in reverse hook-list order. */
    method OnExit()
      requires Valid()
      modifies this, distances
      ensures Valid()
      ensures state.tag in stateConfigCache
      ensures trace == old(trace) + Concat(Reversed(stateConfigCache[state.tag]), SE.ExitWith(state))
      ensures Grows(old(stateConfigCache), stateConfigCache)
      ensures eventConfigCache == old(eventConfigCache) && state == old(state)
    {
      var configs := HooksFor(state.tag);
      trace := Iterate(Reversed(configs), SE.ExitWith(state), trace);
    }

    /** `Fire`: the event must be given; then one `OnFire` step. */
    method Fire(event: Option<EventValue>) returns (r: Outcome)
      requires Valid()
      modifies this, distances
      ensures Valid()
      ensures event.None? ==>
                && r == Fail(ArgumentNull) && state == old(state) && trace == old(trace)
                && stateConfigCache == old(stateConfigCache) && eventConfigCache == old(eventConfigCache)
      ensures event.Some? ==>
                var key := EventKey(old(state).tag, event.value.tag);
                && key in eventConfigCache
                && Step(r, state, trace)
                   == FireStep(callbacks, context, old(trace), old(state), event.value, eventConfigCache[key], stateConfigCache)
      ensures Grows(old(stateConfigCache), stateConfigCache) && Grows(old(eventConfigCache), eventConfigCache)
    {
      if event.None? {
        return Fail(ArgumentNull);
      }
      r := OnFire(event.value);
    }

    /** `OnFire`. */
    method OnFire(event: EventValue) returns (r: Outcome)
      requires Valid()
      modifies this, distances
      ensures Valid()
      ensures var key := EventKey(old(state).tag, event.tag);
              && key in eventConfigCache
              && Step(r, state, trace)
                 == FireStep(callbacks, context, old(trace), old(state), event, eventConfigCache[key], stateConfigCache)
      ensures Grows(old(stateConfigCache), stateConfigCache) && Grows(old(eventConfigCache), eventConfigCache)
    {
      var key := EventKey(state.tag, event.tag);
      var rules := RulesFor(key);
      var configs := Validated(callbacks, ContextView(context, trace), state, event, rules);
      var transitions := Transitions(configs);
      if |transitions| == 0 {
        assert Decide(transitions) == NoTransitionDefined;
        return Fail(NoTransition);
      }
      var first := transitions[0];
      if |transitions| > 1 && EE.Compare(transitions[1], first) <= 0 {
        assert Decide(transitions) == AmbiguousTransitions;
        return Fail(Ambiguous);
      }
      assert Decide(transitions) == Winner(first);
      Accept(configs, first, event);
      r := Pass;
    }

    /** What `OnFire` does once `first` has won: the triggers of every validated rule, then,
        unless `first` is a loop, the move to its target. */
    method Accept(configs: seq<EE.EventExecutor>, first: EE.EventExecutor, event: EventValue)
      requires Valid() && EE.IsTransition(first)
      modifies this, distances
      ensures Valid()
      ensures var triggered := AfterTriggers(old(trace), configs, old(state), event);
              Step(Pass, state, trace)
              == if EE.IsLoop(first) then Step(Pass, old(state), triggered)
                 else Transit(callbacks, context, triggered, old(state), event, first, stateConfigCache)
      ensures Grows(old(stateConfigCache), stateConfigCache) && eventConfigCache == old(eventConfigCache)
    {
      ghost var trace0 := trace;
      trace := Iterate(configs, EE.TriggerWith(state, event), trace);
      assert trace == AfterTriggers(trace0, configs, state, event);
      if !EE.IsLoop(first) {
        Move(first, event);
      }
    }

    /** The last lines of `OnFire`, for a transition that is not a loop: `OnExit`, the
        transition's action, `OnEnter`. */
    method Move(first: EE.EventExecutor, event: EventValue)
      requires Valid() && first.configuration.onExecute.Some?
      modifies this, distances
      ensures Valid()
      ensures Step(Pass, state, trace) == Transit(callbacks, context, old(trace), old(state), event, first, stateConfigCache)
      ensures Grows(old(stateConfigCache), stateConfigCache) && eventConfigCache == old(eventConfigCache)
    {
      ghost var from := state;
      OnExit();
      ghost var hooks1 := stateConfigCache;
      var step := EE.Execute(callbacks, first, ContextView(context, trace), state, event);
      trace := trace + step.1;
      state := step.0;
      OnEnter();
      assert HooksOf(stateConfigCache, from.tag) == hooks1[from.tag];
    }
  }

  /** `NewExecutor(configuration, context, state)`: the configuration and the initial
      state must be given. */
  method NewExecutor(graph: Graph, reading: Reading, configuration: Option<Configurator>, callbacks: Callbacks,
                     context: ContextId, state: Option<StateValue>) returns (r: Result<Executor>)
    ensures r.Err? <==> configuration.None? || state.None?
    ensures r.Err? ==> r.error == ArgumentNull
    ensures r.Ok? ==>
              && fresh(r.value) && r.value.Valid() && r.value.state == state.value
              && r.value.graph == graph && r.value.reading == reading
              && r.value.callbacks == callbacks && r.value.context == context
              && CopiesOf(old(StateTable(configuration.value)), old(EventTable(configuration.value)),
                          old(configuration.value.Valid()), r.value.stateConfigList, r.value.eventConfigList)
              && r.value.eventConfigCache == map[] && state.value.tag in r.value.stateConfigCache
              && r.value.trace == Concat(r.value.stateConfigCache[state.value.tag], SE.EnterWith(state.value))
  {
    if configuration.None? || state.None? {
      return Err(ArgumentNull);
    }
    var x := new Executor(graph, reading, configuration.value, callbacks, context, state.value);
    r := Ok(x);
  }
}
