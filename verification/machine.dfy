/** The vocabulary shared by configuration and execution: state and event values, the
    user callbacks as opaque identifiers, and the trace of effects the callbacks leave.

    A callback is named by an identifier. What a hook or a trigger does to the user's
    context is recorded as an `Effect` appended to the trace; a predicate or a `Goto`
    action computes its answer from the context, which is its identity and everything that
    has happened to it so far (`ContextView`). */
module Machine {
  import opened Outcomes
  import opened TypeGraph

  type ContextId = nat
  type HookId = nat        // an `OnEnter` or `OnExit` action
  type TriggerId = nat     // an `OnTrigger` action
  type PredicateId = nat   // a `When` predicate
  type TransitionId = nat  // a `Goto` action

  /** A state object: its runtime type (`GetType()`) and its identity. */
  datatype StateValue = StateValue(tag: Tag, id: nat)

  /** An event object: its runtime type and its identity. */
  datatype EventValue = EventValue(tag: Tag, id: nat)

  /** Something a callback did to the context. */
  datatype Effect =
    | Entered(hook: HookId, state: StateValue)
    | Exited(hook: HookId, state: StateValue)
    | Triggered(trigger: TriggerId, state: StateValue, event: EventValue)
    | Transited(transition: TransitionId, state: StateValue, event: EventValue)

  /** The context as a callback sees it. */
  datatype ContextView = ContextView(context: ContextId, history: seq<Effect>)

  /** What a rule's `OnExecute` holds: a user `Goto` action, or `LoopHandler`. */
  datatype Transition = Goto(action: TransitionId) | LoopHandler

  /** The answers of the user's predicates and `Goto` actions. */
  datatype Callbacks = Callbacks(
    validate: (PredicateId, ContextView, StateValue, EventValue) -> bool,
    goto: (TransitionId, ContextView, StateValue, EventValue) -> StateValue)

  /** Runs a rule's `OnExecute`: the next state, and the effect the action has.
      `LoopHandler` returns the state it was given and does nothing else. */
  function Run(cb: Callbacks, t: Transition, view: ContextView, state: StateValue, event: EventValue)
    : (r: (StateValue, seq<Effect>))
    ensures t == LoopHandler ==> r == (state, [])
    ensures t.Goto? ==> r.1 == [Transited(t.action, state, event)]
  {
    match t
    case LoopHandler => (state, [])
    case Goto(action) => (cb.goto(action, view, state, event), [Transited(action, state, event)])
  }

  /** The executor's own copy of a state configuration (`new StateConfiguration(other)`):
      type and hooks; the name is not part of it. */
  datatype StateEntry = StateEntry(stateType: Tag, onEnter: Option<HookId>, onExit: Option<HookId>)

  /** The executor's own copy of an event rule (`new EventConfiguration(other)`): types,
      predicate, trigger, transition and loop flag; the name is not part of it. */
  datatype EventEntry = EventEntry(
    stateType: Tag, eventType: Tag,
    onValidate: Option<PredicateId>, onTrigger: Option<TriggerId>,
    onExecute: Option<Transition>, isLoop: bool)

  /** What every rule built by `Goto`/`Loop` satisfies: the loop flag is set exactly when
      the transition is `LoopHandler`. */
  predicate LoopConsistent(e: EventEntry) {
    e.isLoop <==> e.onExecute == Some(LoopHandler)
  }
}
