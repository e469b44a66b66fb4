/** How `Fire` chooses what to do with an event, given the cached rule list for the
    current (state type, event type): the rules whose predicates hold are kept in list
    order (least specific first); of those, the transitions are read most specific first;
    the first of them wins, unless there is none or the second ranks no lower. */
module Dispatch {
  import opened Ordering
  import opened Machine
  import opened EventExecutors

  datatype Decision = NoTransitionDefined | AmbiguousTransitions | Winner(rule: EventExecutor)

  /** `.Where(e => e.Validate(Context, State, @event))`. */
  function Validated(cb: Callbacks, view: ContextView, state: StateValue, event: EventValue, rules: seq<EventExecutor>)
    : (r: seq<EventExecutor>)
    ensures forall k | 0 <= k < |r| :: r[k] in rules && Validate(cb, r[k], view, state, event)
  {
    Filter(rules, ValidatesUnder(cb, view, state, event))
  }

  /** `configs.Where(e => e.IsTransition).Reverse()`. */
  function Transitions(validated: seq<EventExecutor>): (r: seq<EventExecutor>)
    ensures forall k | 0 <= k < |r| :: r[k] in validated && IsTransition(r[k])
  {
    var t := Filter(validated, IsTransitionRule());
    assert forall k | 0 <= k < |t| :: t[k] in validated && IsTransition(t[k]);
    Reversed(t)
  }

  /** The checks on the first and second transition: none at all is an error, and so is a
      second one that ranks no lower than the first. */
  function Decide(transitions: seq<EventExecutor>): (r: Decision)
    ensures r == NoTransitionDefined <==> transitions == []
    ensures r.Winner? ==> r.rule in transitions
  {
    if |transitions| == 0 then NoTransitionDefined
    else if |transitions| > 1 && Compare(transitions[1], transitions[0]) <= 0 then AmbiguousTransitions
    else Winner(transitions[0])
  }

  /** `w` ranks strictly before every other element of `m`, copies of itself included. */
  ghost predicate StrictMinimum(w: EventExecutor, m: multiset<EventExecutor>) {
    w in m && forall x | x in m - multiset{w} :: Compare(w, x) < 0
  }

  /** Rank order facts used below, each from the lexicographic reading of `Compare`. */
  lemma RankAfter(a: EventExecutor, b: EventExecutor, c: EventExecutor)
    requires Compare(a, b) < 0 && Compare(b, c) <= 0
    ensures Compare(a, c) < 0
  {
    CompareIsLexicographic(a, b);
    CompareIsLexicographic(b, c);
    CompareIsLexicographic(a, c);
  }

  lemma RankFlip(a: EventExecutor, b: EventExecutor)
    ensures Compare(a, b) < 0 <==> Compare(b, a) > 0
  {
    CompareIsLexicographic(a, b);
    CompareIsLexicographic(b, a);
  }

  /** When the second transition ranks strictly after the first, so does every later one. */
  lemma {:induction false} FirstBeatsRest(t: seq<EventExecutor>)
    requires Ascending(t, Compare) && |t| > 0
    requires |t| == 1 || Compare(t[1], t[0]) > 0
    ensures forall x | x in t[1..] :: Compare(t[0], x) < 0
  {
    forall x | x in t[1..] ensures Compare(t[0], x) < 0 {
      var j :| 0 <= j < |t[1..]| && t[1..][j] == x;
      RankFlip(t[0], t[1]);
      if j > 0 {
        assert Compare(t[1], t[j + 1]) <= 0;
        RankAfter(t[0], t[1], t[j + 1]);
      }
    }
  }

  /** A strict minimum of an ascending list sits at its head. */
  lemma MinimumAtHead(t: seq<EventExecutor>, w: EventExecutor)
    requires Ascending(t, Compare) && StrictMinimum(w, multiset(t))
    ensures t != [] && t[0] == w
  {
    if t[0] != w {
      assert t[0] in multiset(t) - multiset{w};
      var i :| 0 <= i < |t| && t[i] == w;
      assert Compare(t[0], t[i]) <= 0;
      RankFlip(w, t[0]);
      assert false;
    }
  }

  /** On a list sorted most specific first, the rule `Decide` picks is exactly the unique
      most specific one: a winner exists if and only if one rule ranks strictly before all
      the others, and then it is that rule. */
  lemma WinnerIsStrictMinimum(transitions: seq<EventExecutor>, w: EventExecutor)
    requires Ascending(transitions, Compare)
    ensures Decide(transitions) == Winner(w) <==> StrictMinimum(w, multiset(transitions))
  {
    var t := transitions;
    if t != [] {
      assert t == [t[0]] + t[1..];
      assert multiset(t) - multiset{t[0]} == multiset(t[1..]);
      if Decide(t) == Winner(w) {
        FirstBeatsRest(t);
      }
      if StrictMinimum(w, multiset(t)) {
        MinimumAtHead(t, w);
        if |t| > 1 {
          assert t[1] in multiset(t) - multiset{w};
          RankFlip(t[0], t[1]);
        }
      }
    }
  }

  /** The decision depends only on which transitions there are, not on their order among
      equal ranks. */
  lemma SameDecision(t1: seq<EventExecutor>, t2: seq<EventExecutor>)
    requires Ascending(t1, Compare) && Ascending(t2, Compare)
    requires multiset(t1) == multiset(t2)
    ensures Decide(t1) == Decide(t2)
  {
    var d1, d2 := Decide(t1), Decide(t2);
    if d1.Winner? {
      WinnerIsStrictMinimum(t1, d1.rule);
      WinnerIsStrictMinimum(t2, d1.rule);
    } else if d2.Winner? {
      WinnerIsStrictMinimum(t1, d2.rule);
      WinnerIsStrictMinimum(t2, d2.rule);
    } else if t1 == [] {
      assert |multiset(t2)| == 0;
    } else {
      assert |multiset(t2)| != 0;
    }
  }

  /** A rule list sorted least specific first yields transitions sorted most specific
      first. */
  lemma TransitionsAscending(cb: Callbacks, view: ContextView, state: StateValue, event: EventValue,
                             rules: seq<EventExecutor>)
    requires NonIncreasing(rules, Compare)
    ensures Ascending(Transitions(Validated(cb, view, state, event, rules)), Compare)
  {
    var v := Validated(cb, view, state, event, rules);
    FilterNonIncreasing(rules, ValidatesUnder(cb, view, state, event), Compare);
    FilterNonIncreasing(v, IsTransitionRule(), Compare);
    CompareIsTotalPreorder();
    ReversedNonIncreasing(Filter(v, IsTransitionRule()), Compare);
  }

  /** Rule lists holding the same rules yield the same transitions. */
  lemma TransitionsPermutation(cb: Callbacks, view: ContextView, state: StateValue, event: EventValue,
                               rules1: seq<EventExecutor>, rules2: seq<EventExecutor>)
    requires multiset(rules1) == multiset(rules2)
    ensures multiset(Transitions(Validated(cb, view, state, event, rules1)))
         == multiset(Transitions(Validated(cb, view, state, event, rules2)))
  {
    var v1 := Validated(cb, view, state, event, rules1);
    var v2 := Validated(cb, view, state, event, rules2);
    FilterPermutation(rules1, rules2, ValidatesUnder(cb, view, state, event));
    FilterPermutation(v1, v2, IsTransitionRule());
    ReversedMultiset(Filter(v1, IsTransitionRule()));
    ReversedMultiset(Filter(v2, IsTransitionRule()));
  }

  /** Which rule fires does not depend on how `Array.Sort` ordered rules of equal rank: two
      rule lists holding the same rules, each least specific first, lead to the same
      decision for any answers of the predicates. */
  lemma DecisionIgnoresTieOrder(cb: Callbacks, view: ContextView, state: StateValue, event: EventValue,
                                rules1: seq<EventExecutor>, rules2: seq<EventExecutor>)
    requires multiset(rules1) == multiset(rules2)
    requires NonIncreasing(rules1, Compare) && NonIncreasing(rules2, Compare)
    ensures Decide(Transitions(Validated(cb, view, state, event, rules1)))
         == Decide(Transitions(Validated(cb, view, state, event, rules2)))
  {
    TransitionsAscending(cb, view, state, event, rules1);
    TransitionsAscending(cb, view, state, event, rules2);
    TransitionsPermutation(cb, view, state, event, rules1, rules2);
    SameDecision(Transitions(Validated(cb, view, state, event, rules1)),
                 Transitions(Validated(cb, view, state, event, rules2)));
  }

  /** Triggers run in rule-list order, so on a list sorted least specific first the
      triggers of less specific rules run before those of more specific ones. */
  lemma TriggersLeastSpecificFirst(cb: Callbacks, view: ContextView, state: StateValue, event: EventValue,
                                   rules: seq<EventExecutor>)
    requires NonIncreasing(rules, Compare)
    ensures NonIncreasing(Validated(cb, view, state, event, rules), Compare)
  {
    FilterNonIncreasing(rules, ValidatesUnder(cb, view, state, event), Compare);
  }
}
