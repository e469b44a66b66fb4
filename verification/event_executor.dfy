/** `EventExecutor`: one event rule as seen from a given (runtime state type, runtime
    event type), with both type distances fixed at construction. Rules rank by state
    distance, then event distance, then rules with a `When` predicate before fallbacks. */
module EventExecutors {
  import opened Outcomes
  import opened TypeGraph
  import opened TypeDistance
  import opened Machine
  import opened Ordering
  import opened EventKeys

  datatype EventExecutor = EventExecutor(
    configuration: EventEntry, stateType: Tag, eventType: Tag,
    stateDistance: nat, eventDistance: nat)

  /** `new EventExecutor(stateType, eventType, configuration)`: both distances are taken
      from `DistanceFrom` once, here. */
  function NewEventExecutor(g: Graph, reading: Reading, stateType: Tag, eventType: Tag, data: EventEntry)
    : (r: EventExecutor)
    requires Inherits(g, stateType, data.stateType) && Inherits(g, eventType, data.eventType)
    ensures r.configuration == data && r.stateType == stateType && r.eventType == eventType
    ensures Distance(g, stateType, data.stateType, reading) == Ok(r.stateDistance)
    ensures Distance(g, eventType, data.eventType, reading) == Ok(r.eventDistance)
  {
    EventExecutor(data, stateType, eventType,
      RelatedDistance(g, stateType, data.stateType, reading),
      RelatedDistance(g, eventType, data.eventType, reading))
  }

  /** `IsFallback`: a rule without a `When` predicate. */
  predicate IsFallback(x: EventExecutor) {
    x.configuration.onValidate.None?
  }

  /** `IsLoop`. */
  predicate IsLoop(x: EventExecutor) {
    x.configuration.isLoop
  }

  /** `IsTransition`: the rule decides the next state, by a `Goto` or a `Loop`. For a rule
      built by the configurator the loop flag adds nothing: a transition is exactly a rule
      with `OnExecute` set. */
  predicate IsTransition(x: EventExecutor)
    ensures LoopConsistent(x.configuration) ==> (IsTransition(x) <==> x.configuration.onExecute.Some?)
  {
    x.configuration.onExecute.Some? || x.configuration.isLoop
  }

  /** `Validate`: true without a predicate, otherwise whatever the predicate answers. */
  function Validate(cb: Callbacks, x: EventExecutor, view: ContextView, state: StateValue, event: EventValue)
    : (r: bool)
    ensures x.configuration.onValidate.None? ==> r
    ensures x.configuration.onValidate.Some? ==> r == cb.validate(x.configuration.onValidate.value, view, state, event)
  {
    match x.configuration.onValidate
    case None => true
    case Some(p) => cb.validate(p, view, state, event)
  }

  /** `Trigger`: the trigger runs when one is configured; otherwise nothing happens. */
  function Trigger(x: EventExecutor, state: StateValue, event: EventValue): (r: seq<Effect>)
    ensures r == [] <==> x.configuration.onTrigger.None?
    ensures x.configuration.onTrigger.Some? ==> r == [Triggered(x.configuration.onTrigger.value, state, event)]
  {
    match x.configuration.onTrigger
    case None => []
    case Some(t) => [Triggered(t, state, event)]
  }

  /** `Execute`: runs `OnExecute` unguarded; the executor calls it only for a transition
      that is not a loop, and then `OnExecute` is a `Goto`. A loop rule's handler would
      return the state unchanged and do nothing. */
  function Execute(cb: Callbacks, x: EventExecutor, view: ContextView, state: StateValue, event: EventValue)
    : (r: (StateValue, seq<Effect>))
    requires x.configuration.onExecute.Some?
    ensures LoopConsistent(x.configuration) && IsLoop(x) ==> r == (state, [])
    ensures LoopConsistent(x.configuration) && !IsLoop(x) ==>
              r.1 == [Transited(x.configuration.onExecute.value.action, state, event)]
  {
    Run(cb, x.configuration.onExecute.value, view, state, event)
  }

  /** `CompareTo`: state distance, then event distance, then `IsFallback` (`false` first). */
  function Compare(a: EventExecutor, b: EventExecutor): int {
    var c := CompareInts(a.stateDistance, b.stateDistance);
    if c != 0 then c
    else
      var c := CompareInts(a.eventDistance, b.eventDistance);
      if c != 0 then c
      else CompareBools(IsFallback(a), IsFallback(b))
  }

  /** The rank of a rule as a triple, and the lexicographic order on triples: an
      independent statement of what `Compare` decides. */
  function Rank(x: EventExecutor): (nat, nat, nat) {
    (x.stateDistance, x.eventDistance, if IsFallback(x) then 1 else 0)
  }

  predicate RankBelow(p: (nat, nat, nat), q: (nat, nat, nat)) {
    || p.0 < q.0
    || (p.0 == q.0 && p.1 < q.1)
    || (p.0 == q.0 && p.1 == q.1 && p.2 < q.2)
  }

  /** `Compare` is the lexicographic order on ranks. */
  lemma CompareIsLexicographic(a: EventExecutor, b: EventExecutor)
    ensures Compare(a, b) < 0 <==> RankBelow(Rank(a), Rank(b))
    ensures Compare(a, b) == 0 <==> Rank(a) == Rank(b)
    ensures Compare(a, b) > 0 <==> RankBelow(Rank(b), Rank(a))
  {
  }

  /** At equal distances a rule with a predicate ranks strictly before a fallback. */
  lemma PredicateBeforeFallback(a: EventExecutor, b: EventExecutor)
    requires a.stateDistance == b.stateDistance && a.eventDistance == b.eventDistance
    requires !IsFallback(a) && IsFallback(b)
    ensures Compare(a, b) < 0
  {
  }

  /** `CompareTo` is a total preorder, as `Array.Sort` needs. */
  lemma CompareIsTotalPreorder()
    ensures IsTotalPreorder(Compare)
  {
    forall a, b ensures Compare(a, b) < 0 <==> Compare(b, a) > 0 {
      CompareIsLexicographic(a, b);
      CompareIsLexicographic(b, a);
    }
    forall a, b, c | Compare(a, b) <= 0 && Compare(b, c) <= 0
      ensures Compare(a, c) <= 0
    {
      CompareIsLexicographic(a, b);
      CompareIsLexicographic(b, c);
      CompareIsLexicographic(a, c);
    }
  }

  /** `e => e.Validate(Context, State, @event)`, `e => e.IsTransition` and
      `e => e.Trigger(Context, State, @event)`. */
  function ValidatesUnder(cb: Callbacks, view: ContextView, state: StateValue, event: EventValue)
    : EventExecutor -> bool
  {
    x => Validate(cb, x, view, state, event)
  }

  function IsTransitionRule(): EventExecutor -> bool {
    x => IsTransition(x)
  }

  function TriggerWith(state: StateValue, event: EventValue): EventExecutor -> seq<Effect> {
    x => Trigger(x, state, event)
  }

  /** `_eventConfigList.Where(IsMatchingEvent).Select(e => new EventExecutor(stateType,
      eventType, e))`: one executor per rule whose declared state and event types are
      ancestors-or-self of the key's, in configuration order. */
  function Candidates(g: Graph, reading: Reading, entries: seq<EventEntry>, key: EventKey): (r: seq<EventExecutor>)
    ensures forall x | x in r ::
              x.configuration in entries
              && Inherits(g, key.stateType, x.configuration.stateType)
              && Inherits(g, key.eventType, x.configuration.eventType)
              && x == NewEventExecutor(g, reading, key.stateType, key.eventType, x.configuration)
    ensures forall e | e in entries && Inherits(g, key.stateType, e.stateType) && Inherits(g, key.eventType, e.eventType) ::
              NewEventExecutor(g, reading, key.stateType, key.eventType, e) in r
    decreases |entries|
  {
    if entries == [] then []
    else
      var init := entries[..|entries| - 1];
      var e := entries[|entries| - 1];
      assert forall f | f in init :: f in entries;
      assert forall f | f in entries :: f in init || f == e;
      Candidates(g, reading, init, key)
      + (if Inherits(g, key.stateType, e.stateType) && Inherits(g, key.eventType, e.eventType)
         then [NewEventExecutor(g, reading, key.stateType, key.eventType, e)] else [])
  }

  /** What a cached rule list for a key is: the candidates, sorted by `Compare` and
      reversed, so least specific first; the order among equal ranks is not determined. */
  ghost predicate IsRuleList(g: Graph, reading: Reading, entries: seq<EventEntry>, key: EventKey, list: seq<EventExecutor>) {
    multiset(list) == multiset(Candidates(g, reading, entries, key)) && NonIncreasing(list, Compare)
  }

  /** A rule list holds exactly the rules matching the key. */
  lemma RuleListMembers(g: Graph, reading: Reading, entries: seq<EventEntry>, key: EventKey, list: seq<EventExecutor>)
    requires IsRuleList(g, reading, entries, key, list)
    ensures forall x | x in list ::
              x.configuration in entries
              && Inherits(g, key.stateType, x.configuration.stateType)
              && Inherits(g, key.eventType, x.configuration.eventType)
    ensures forall e | e in entries && Inherits(g, key.stateType, e.stateType) && Inherits(g, key.eventType, e.eventType) ::
              NewEventExecutor(g, reading, key.stateType, key.eventType, e) in list
  {
    var c := Candidates(g, reading, entries, key);
    assert forall x :: x in list <==> x in multiset(list);
    assert forall x :: x in c <==> x in multiset(c);
  }
}
