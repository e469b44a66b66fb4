/** The configuration side: the mutable records the fluent configurators fill in, and the
    machine configurator that keeps one record per state type and a list of rules per
    (state type, event type).

    Every slot of a record is written at most once: setting a slot that is already set
    fails with `AlreadyDefined` (`InvalidOperationException`) and changes nothing, and a
    missing callback fails with `ArgumentNull`. Callbacks are identifiers (see `Machine`). */
module Configuration {
  import opened Outcomes
  import opened TypeGraph
  import opened Machine
  import opened EventKeys
  import opened Collections

  /** `StateConfiguration`: the hooks of one state type. */
  class StateConfiguration {
    const stateType: Tag
    var name: Option<string>
    var onEnter: Option<HookId>
    var onExit: Option<HookId>

    /** `new StateConfiguration(stateType)`: nothing set yet. */
    constructor (stateType: Tag)
      ensures this.stateType == stateType
      ensures name == None && onEnter == None && onExit == None
    {
      this.stateType := stateType;
      name := None;
      onEnter := None;
      onExit := None;
    }

    /** `new StateConfiguration(other)`: the executor's private copy keeps the type and both
        hooks, and not the name. */
    function Snapshot(): (e: StateEntry)
      reads this
      ensures e.stateType == stateType && e.onEnter == onEnter && e.onExit == onExit
    {
      StateEntry(stateType, onEnter, onExit)
    }
  }

  /** `EventConfiguration`: one rule for a (state type, event type). */
  class EventConfiguration {
    const stateType: Tag
    const eventType: Tag
    var name: Option<string>
    var onValidate: Option<PredicateId>
    var onTrigger: Option<TriggerId>
    var onExecute: Option<Transition>
    var isLoop: bool

    /** The loop flag says whether the transition is `Loop`; every configurator operation
        keeps this. */
    ghost predicate Valid()
      reads this
    {
      LoopConsistent(Snapshot())
    }

    /** `new EventConfiguration(stateType, eventType)`: nothing set, not a loop. */
    constructor (stateType: Tag, eventType: Tag)
      ensures this.stateType == stateType && this.eventType == eventType
      ensures name == None && onValidate == None && onTrigger == None && onExecute == None && !isLoop
      ensures Valid()
    {
      this.stateType := stateType;
      this.eventType := eventType;
      name := None;
      onValidate := None;
      onTrigger := None;
      onExecute := None;
      isLoop := false;
    }

    /** `new EventConfiguration(other)`: the executor's private copy keeps the types, the
        predicate, the trigger, the transition and the loop flag, and not the name. */
    function Snapshot(): (e: EventEntry)
      reads this
      ensures e.stateType == stateType && e.eventType == eventType
      ensures e.onValidate == onValidate && e.onTrigger == onTrigger
      ensures e.onExecute == onExecute && e.isLoop == isLoop
    {
      EventEntry(stateType, eventType, onValidate, onTrigger, onExecute, isLoop)
    }
  }

  /** `StateConfigurator<TActualState>`: the fluent view of one state record. */
  class StateConfigurator {
    const machine: Configurator
    const record: StateConfiguration

    constructor (machine: Configurator, record: StateConfiguration)
      ensures this.machine == machine && this.record == record
    {
      this.machine := machine;
      this.record := record;
    }

    /** `Name`: fails once a name is set. A missing name is accepted and leaves the name
        unset. */
    method Name(name: Option<string>) returns (r: Outcome)
      modifies record
      ensures old(record.name).Some? ==> r == Fail(AlreadyDefined) && record.name == old(record.name)
      ensures old(record.name).None? ==> r == Pass && record.name == name
      ensures record.onEnter == old(record.onEnter) && record.onExit == old(record.onExit)
    {
      if record.name.Some? {
        return Fail(AlreadyDefined);
      }
      record.name := name;
      r := Pass;
    }

    /** `OnEnter`: the hook must be given and must not be set yet. */
    method OnEnter(action: Option<HookId>) returns (r: Outcome)
      modifies record
      ensures action.None? ==> r == Fail(ArgumentNull)
      ensures action.Some? && old(record.onEnter).Some? ==> r == Fail(AlreadyDefined)
      ensures r == Pass <==> action.Some? && old(record.onEnter).None?
      ensures record.onEnter == (if r == Pass then action else old(record.onEnter))
      ensures record.name == old(record.name) && record.onExit == old(record.onExit)
    {
      if action.None? {
        return Fail(ArgumentNull);
      }
      if record.onEnter.Some? {
        return Fail(AlreadyDefined);
      }
      record.onEnter := action;
      r := Pass;
    }

    /** `OnExit`: the hook must be given and must not be set yet. */
    method OnExit(action: Option<HookId>) returns (r: Outcome)
      modifies record
      ensures action.None? ==> r == Fail(ArgumentNull)
      ensures action.Some? && old(record.onExit).Some? ==> r == Fail(AlreadyDefined)
      ensures r == Pass <==> action.Some? && old(record.onExit).None?
      ensures record.onExit == (if r == Pass then action else old(record.onExit))
      ensures record.name == old(record.name) && record.onEnter == old(record.onEnter)
    {
      if action.None? {
        return Fail(ArgumentNull);
      }
      if record.onExit.Some? {
        return Fail(AlreadyDefined);
      }
      record.onExit := action;
      r := Pass;
    }

    /** `On<TActualEvent>()`: a new rule for this state type and `eventType`, through the
        machine configurator. */
    method On(eventType: Tag) returns (c: EventConfigurator)
      modifies machine
      ensures machine.events == old(machine.events)[EventKey(record.stateType, eventType) :=
                old(machine.RulesFor(EventKey(record.stateType, eventType))) + [c.record]]
      ensures machine.states == old(machine.states) && (old(machine.Valid()) ==> machine.Valid())
      ensures fresh(c) && fresh(c.record) && c.record.Valid()
      ensures c.record.stateType == record.stateType && c.record.eventType == eventType
      ensures c.record.onValidate == None && c.record.onTrigger == None && c.record.onExecute == None
    {
      c := machine.On(record.stateType, eventType);
    }
  }

  /** `EventConfigurator<TActualState, TActualEvent>`: the fluent view of one rule. */
  class EventConfigurator {
    const record: EventConfiguration

    constructor (record: EventConfiguration)
      ensures this.record == record
    {
      this.record := record;
    }

    /** `Name`: the name must be given and must not be set yet. */
    method Name(name: Option<string>) returns (r: Outcome)
      modifies record
      ensures name.None? ==> r == Fail(ArgumentNull)
      ensures name.Some? && old(record.name).Some? ==> r == Fail(AlreadyDefined)
      ensures r == Pass <==> name.Some? && old(record.name).None?
      ensures record.name == (if r == Pass then name else old(record.name))
      ensures record.Snapshot() == old(record.Snapshot())
    {
      if name.None? {
        return Fail(ArgumentNull);
      }
      if record.name.Some? {
        return Fail(AlreadyDefined);
      }
      record.name := name;
      r := Pass;
    }

    /** `OnTrigger`: the action must be given and must not be set yet. */
    method OnTrigger(action: Option<TriggerId>) returns (r: Outcome)
      modifies record
      ensures action.None? ==> r == Fail(ArgumentNull)
      ensures action.Some? && old(record.onTrigger).Some? ==> r == Fail(AlreadyDefined)
      ensures r == Pass <==> action.Some? && old(record.onTrigger).None?
      ensures record.Snapshot() == old(record.Snapshot()).(onTrigger := if r == Pass then action else old(record.onTrigger))
      ensures record.name == old(record.name)
      ensures old(record.Valid()) ==> record.Valid()
    {
      if action.None? {
        return Fail(ArgumentNull);
      }
      if record.onTrigger.Some? {
        return Fail(AlreadyDefined);
      }
      record.onTrigger := action;
      r := Pass;
    }

    /** `When`: the predicate must be given and must not be set yet. */
    method When(condition: Option<PredicateId>) returns (r: Outcome)
      modifies record
      ensures condition.None? ==> r == Fail(ArgumentNull)
      ensures condition.Some? && old(record.onValidate).Some? ==> r == Fail(AlreadyDefined)
      ensures r == Pass <==> condition.Some? && old(record.onValidate).None?
      ensures record.Snapshot() == old(record.Snapshot()).(onValidate := if r == Pass then condition else old(record.onValidate))
      ensures record.name == old(record.name)
      ensures old(record.Valid()) ==> record.Valid()
    {
      if condition.None? {
        return Fail(ArgumentNull);
      }
      if record.onValidate.Some? {
        return Fail(AlreadyDefined);
      }
      record.onValidate := condition;
      r := Pass;
    }

    /** `Goto`: the action must be given, and neither `Goto` nor `Loop` may have been
        configured; the rule becomes a non-loop transition. */
    method Goto(action: Option<TransitionId>) returns (r: Outcome)
      modifies record
      ensures action.None? ==> r == Fail(ArgumentNull)
      ensures action.Some? && old(record.onExecute).Some? ==> r == Fail(AlreadyDefined)
      ensures r == Pass <==> action.Some? && old(record.onExecute).None?
      ensures r == Pass ==> record.Snapshot() == old(record.Snapshot()).(onExecute := Some(Transition.Goto(action.value)), isLoop := false)
      ensures r != Pass ==> record.Snapshot() == old(record.Snapshot())
      ensures record.name == old(record.name)
      ensures old(record.Valid()) ==> record.Valid()
    {
      if action.None? {
        return Fail(ArgumentNull);
      }
      if record.onExecute.Some? {
        return Fail(AlreadyDefined);
      }
      record.onExecute := Some(Transition.Goto(action.value));
      record.isLoop := false;
      r := Pass;
    }

    /** `Loop`: neither `Goto` nor `Loop` may have been configured; the rule becomes a loop
        transition whose handler keeps the state. */
    method Loop() returns (r: Outcome)
      modifies record
      ensures r == Pass <==> old(record.onExecute).None?
      ensures r != Pass ==> r == Fail(AlreadyDefined) && record.Snapshot() == old(record.Snapshot())
      ensures r == Pass ==> record.Snapshot() == old(record.Snapshot()).(onExecute := Some(LoopHandler), isLoop := true)
      ensures record.name == old(record.name)
      ensures old(record.Valid()) ==> record.Valid()
    {
      if record.onExecute.Some? {
        return Fail(AlreadyDefined);
      }
      record.onExecute := Some(LoopHandler);
      record.isLoop := true;
      r := Pass;
    }
  }

  /** `key => rules[key]`, with no rules for a key that is absent. */
  function Lookup<K, V>(m: map<K, seq<V>>): (f: K -> seq<V>)
    ensures forall k | k in m :: f(k) == m[k]
  {
    k => if k in m then m[k] else []
  }

  /** `Configurator`: one record per state type, a list of rules per event key. */
  class Configurator {
    var states: map<Tag, StateConfiguration>
    var events: map<EventKey, seq<EventConfiguration>>

    /** Each state record sits under its own type. */
    ghost predicate Valid()
      reads this
    {
      forall t | t in states :: states[t].stateType == t
    }

    /** `NewConfigurator()`. */
    constructor ()
      ensures states == map[] && events == map[] && Valid()
    {
      states := map[];
      events := map[];
    }

    /** The rules registered so far under `key`. */
    function RulesFor(key: EventKey): seq<EventConfiguration>
      reads this
    {
      if key in events then events[key] else []
    }

    /** `In<TActualState>()`: the record of the state type, created and stored on first use,
        the same record on every later use. */
    method In(stateType: Tag) returns (c: StateConfigurator)
      modifies this
      ensures stateType in old(states) ==> states == old(states) && c.record == states[stateType]
      ensures stateType !in old(states) ==>
                && fresh(c.record) && states == old(states)[stateType := c.record]
                && c.record.stateType == stateType
                && c.record.name == None && c.record.onEnter == None && c.record.onExit == None
      ensures events == old(events)
      ensures fresh(c) && c.machine == this
      ensures old(Valid()) ==> Valid()
    {
      // The record is allocated before the lookup because `TryGet`'s factory is a function;
      // on a hit it is dropped unseen, so only a miss stores a fresh record, as in the source.
      var created := new StateConfiguration(stateType);
      var r, m := TryGet(states, stateType, GetOrCreate, Some(_ => created), created);
      states := m;
      c := new StateConfigurator(this, r.value);
    }

    /** `ConfigureState<TActualState>()` (older tree): like `In`, but a state type may be
        configured only once. */
    method ConfigureState(stateType: Tag) returns (r: Result<StateConfigurator>)
      modifies this
      ensures stateType in old(states) ==> r == Err(ArgumentError) && states == old(states)
      ensures stateType !in old(states) ==>
                && r.Ok? && fresh(r.value) && fresh(r.value.record) && r.value.machine == this
                && states == old(states)[stateType := r.value.record]
                && r.value.record.stateType == stateType
                && r.value.record.name == None && r.value.record.onEnter == None && r.value.record.onExit == None
      ensures events == old(events)
      ensures old(Valid()) ==> Valid()
    {
      // Allocated before the lookup, as in `In`; on a hit it is dropped unseen.
      var created := new StateConfiguration(stateType);
      var found, m := TryGet(states, stateType, CreateOrFail, Some(_ => created), created);
      states := m;
      if found.Err? {
        return Err(found.error);
      }
      var c := new StateConfigurator(this, found.value);
      r := Ok(c);
    }

    /** `On<TActualState, TActualEvent>()` (`ConfigureEvent` in the older tree): a fresh,
        empty rule appended to the key's list, which is created on first use. */
    method On(stateType: Tag, eventType: Tag) returns (c: EventConfigurator)
      modifies this
      ensures events == old(events)[EventKey(stateType, eventType) := old(RulesFor(EventKey(stateType, eventType))) + [c.record]]
      ensures states == old(states) && (old(Valid()) ==> Valid())
      ensures fresh(c) && fresh(c.record) && c.record.Valid()
      ensures c.record.stateType == stateType && c.record.eventType == eventType
      ensures c.record.name == None && c.record.onValidate == None && c.record.onTrigger == None
      ensures c.record.onExecute == None && !c.record.isLoop
    {
      var key := EventKey(stateType, eventType);
      var list, m := TryGet(events, key, GetOrCreate, Some(_ => []), []);
      var data := new EventConfiguration(stateType, eventType);
      events := m[key := list.value + [data]];
      c := new EventConfigurator(data);
    }

    /** `States`: every state record, each once, in an order the dictionary chooses;
        `keys` is that order. */
    method States() returns (r: seq<StateConfiguration>, ghost keys: seq<Tag>)
      ensures |r| == |keys| == |states|
      ensures forall k | 0 <= k < |keys| :: keys[k] in states && r[k] == states[keys[k]]
      ensures Distinct(keys)
      ensures forall t | t in states :: t in keys
    {
      r := [];
      keys := [];
      var rest := states.Keys;
      while rest != {}
        invariant rest <= states.Keys
        invariant |r| == |keys| && |keys| + |rest| == |states|
        invariant forall k | 0 <= k < |keys| :: keys[k] in states && keys[k] !in rest && r[k] == states[keys[k]]
        invariant Distinct(keys)
        invariant forall t | t in states :: t in keys || t in rest
        decreases rest
      {
        var t :| t in rest;
        DistinctAppend(keys, t);
        r := r + [states[t]];
        keys := keys + [t];
        rest := rest - {t};
      }
    }

    /** `Events`: the rule lists of all keys one after another, each list in the order its
        rules were added; the order of the keys is the dictionary's. */
    method Events() returns (r: seq<EventConfiguration>, ghost order: seq<EventKey>)
      ensures |order| == |events| && (forall key | key in events :: key in order)
      ensures forall key | key in order :: key in events
      ensures Distinct(order)
      ensures r == Concat(order, Lookup(events))
    {
      r := [];
      order := [];
      var rest := events.Keys;
      while rest != {}
        invariant rest <= events.Keys
        invariant |order| + |rest| == |events|
        invariant forall key | key in events :: key in order || key in rest
        invariant forall key | key in order :: key in events && key !in rest
        invariant Distinct(order)
        invariant r == Concat(order, Lookup(events))
        decreases rest
      {
        var key :| key in rest;
        DistinctAppend(order, key);
        assert (order + [key])[..|order|] == order;
        r := r + events[key];
        order := order + [key];
        rest := rest - {key};
      }
    }
  }

  /** Two `In` calls for the same type hand out the same record: naming it through one
      view makes naming it through the other fail. */
  method SameStateSharesRecord(stateType: Tag) returns (first: Outcome, second: Outcome)
    ensures first == Pass && second == Fail(AlreadyDefined)
  {
    var machine := new Configurator();
    var x := machine.In(stateType);
    var y := machine.In(stateType);
    first := x.Name(Some("x"));
    second := y.Name(Some("y"));
  }

  /** An enter hook cannot be set twice, even through two `In` calls. */
  method OnEnterOnlyOnce(stateType: Tag, hook1: HookId, hook2: HookId) returns (first: Outcome, second: Outcome)
    ensures first == Pass && second == Fail(AlreadyDefined)
  {
    var machine := new Configurator();
    var x := machine.In(stateType);
    first := x.OnEnter(Some(hook1));
    var y := machine.In(stateType);
    second := y.OnEnter(Some(hook2));
  }

  /** Two `On` calls for the same key give two distinct rules, both registered in order. */
  method SameEventAddsRules(stateType: Tag, eventType: Tag) returns (distinct: bool, count: nat)
    ensures distinct && count == 2
  {
    var machine := new Configurator();
    var x := machine.On(stateType, eventType);
    var y := machine.On(stateType, eventType);
    distinct := x.record != y.record;
    count := |machine.RulesFor(EventKey(stateType, eventType))|;
  }
}
