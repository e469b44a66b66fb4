/** `StateExecutor`: one state configuration as seen from a given runtime state type, with
    the type distance between the two fixed at construction. The executor keeps, per
    runtime state type, the list of these for every configured ancestor-or-self type. */
module StateExecutors {
  import opened Outcomes
  import opened TypeGraph
  import opened TypeDistance
  import opened Machine
  import opened Ordering
  import opened Collections

  datatype StateExecutor = StateExecutor(configuration: StateEntry, stateType: Tag, distance: nat)

  /** `new StateExecutor(stateType, data)`: the distance is `DistanceFrom(stateType,
      data.StateType)`, hence 0 for the configuration of the type itself. */
  function NewStateExecutor(g: Graph, reading: Reading, stateType: Tag, data: StateEntry): (r: StateExecutor)
    requires Inherits(g, stateType, data.stateType)
    ensures r.configuration == data && r.stateType == stateType
    ensures Distance(g, stateType, data.stateType, reading) == Ok(r.distance)
    ensures stateType == data.stateType ==> r.distance == 0
  {
    StateExecutor(data, stateType, RelatedDistance(g, stateType, data.stateType, reading))
  }

  /** `Enter`: the enter hook runs when one is configured; otherwise nothing happens. */
  function Enter(x: StateExecutor, state: StateValue): (r: seq<Effect>)
    ensures r == [] <==> x.configuration.onEnter.None?
    ensures x.configuration.onEnter.Some? ==> r == [Entered(x.configuration.onEnter.value, state)]
  {
    match x.configuration.onEnter
    case None => []
    case Some(hook) => [Entered(hook, state)]
  }

  /** `Exit`: the exit hook runs when one is configured; otherwise nothing happens. */
  function Exit(x: StateExecutor, state: StateValue): (r: seq<Effect>)
    ensures r == [] <==> x.configuration.onExit.None?
    ensures x.configuration.onExit.Some? ==> r == [Exited(x.configuration.onExit.value, state)]
  {
    match x.configuration.onExit
    case None => []
    case Some(hook) => [Exited(hook, state)]
  }

  /** `s => s.Enter(Context, State)` and `s => s.Exit(Context, State)`. */
  function EnterWith(state: StateValue): StateExecutor -> seq<Effect> {
    x => Enter(x, state)
  }

  function ExitWith(state: StateValue): StateExecutor -> seq<Effect> {
    x => Exit(x, state)
  }

  /** `CompareTo`: by distance only. */
  function Compare(a: StateExecutor, b: StateExecutor): (r: int)
    ensures r < 0 <==> a.distance < b.distance
    ensures r == 0 <==> a.distance == b.distance
  {
    CompareInts(a.distance, b.distance)
  }

  /** `CompareTo` is a total preorder, as `Array.Sort` needs. */
  lemma CompareIsTotalPreorder()
    ensures IsTotalPreorder(Compare)
  {
  }

  /** `_stateConfigList.Where(s => stateType.InheritsFrom(s.StateType)).Select(s => new
      StateExecutor(stateType, s))`: one executor per configuration of an ancestor-or-self
      of `t`, in configuration order. */
  function Candidates(g: Graph, reading: Reading, entries: seq<StateEntry>, t: Tag): (r: seq<StateExecutor>)
    ensures forall x | x in r ::
              x.configuration in entries && Inherits(g, t, x.configuration.stateType)
              && x == NewStateExecutor(g, reading, t, x.configuration)
    ensures forall e | e in entries && Inherits(g, t, e.stateType) :: NewStateExecutor(g, reading, t, e) in r
    decreases |entries|
  {
    if entries == [] then []
    else
      var init := entries[..|entries| - 1];
      var e := entries[|entries| - 1];
      assert forall f | f in init :: f in entries;
      assert forall f | f in entries :: f in init || f == e;
      Candidates(g, reading, init, t)
      + (if Inherits(g, t, e.stateType) then [NewStateExecutor(g, reading, t, e)] else [])
  }

  /** What a cached hook list for runtime type `t` is: the candidates, sorted by `Compare`
      and reversed, so farthest ancestor first; the order among equal distances is not
      determined. */
  ghost predicate IsHookList(g: Graph, reading: Reading, entries: seq<StateEntry>, t: Tag, list: seq<StateExecutor>) {
    multiset(list) == multiset(Candidates(g, reading, entries, t)) && NonIncreasing(list, Compare)
  }

  /** A hook list holds exactly the configurations of the ancestors-or-self of `t`. */
  lemma HookListMembers(g: Graph, reading: Reading, entries: seq<StateEntry>, t: Tag, list: seq<StateExecutor>)
    requires IsHookList(g, reading, entries, t, list)
    ensures forall x | x in list ::
              x.configuration in entries && Inherits(g, t, x.configuration.stateType)
              && x == NewStateExecutor(g, reading, t, x.configuration)
    ensures forall e | e in entries && Inherits(g, t, e.stateType) :: NewStateExecutor(g, reading, t, e) in list
  {
    var c := Candidates(g, reading, entries, t);
    assert forall x :: x in list <==> x in multiset(list);
    assert forall x :: x in c <==> x in multiset(c);
  }

  /** Configuration lists taken from the state dictionary hold one entry per type. */
  ghost predicate DistinctTypes(entries: seq<StateEntry>) {
    forall i, j | 0 <= i < j < |entries| :: entries[i].stateType != entries[j].stateType
  }

  /** With one configuration per type, no executor is built twice. */
  lemma {:induction false} CandidatesOnce(g: Graph, reading: Reading, entries: seq<StateEntry>, t: Tag, x: StateExecutor)
    requires DistinctTypes(entries)
    ensures multiset(Candidates(g, reading, entries, t))[x] <= 1
    decreases |entries|
  {
    if entries != [] {
      var init := entries[..|entries| - 1];
      var e := entries[|entries| - 1];
      CandidatesOnce(g, reading, init, t, x);
    }
  }

  /** A value found at two positions occurs at least twice. */
  lemma TwoPositions<T>(s: seq<T>, i: nat, j: nat)
    requires i < j < |s| && s[i] == s[j]
    ensures multiset(s)[s[i]] >= 2
  {
    assert s == s[..i] + [s[i]] + s[i + 1..j] + [s[j]] + s[j + 1..];
  }

  /** With the corrected distance and one configuration per type, the configuration of the
      runtime type itself is the last in its hook list: its enter hook runs after every
      ancestor's, and its exit hook before them. */
  lemma OwnConfigurationLast(g: Graph, entries: seq<StateEntry>, t: Tag, list: seq<StateExecutor>, i: nat)
    requires DistinctTypes(entries) && IsHookList(g, Corrected, entries, t, list)
    requires i < |list| && list[i].configuration.stateType == t
    ensures i == |list| - 1
  {
    HookListMembers(g, Corrected, entries, t, list);
    var n := |list|;
    if i < n - 1 {
      var x := list[i];
      var y := list[n - 1];
      assert x in list && y in list;
      assert x == NewStateExecutor(g, Corrected, t, x.configuration);
      assert y == NewStateExecutor(g, Corrected, t, y.configuration);
      assert x.distance == 0;
      assert Compare(x, y) >= 0;
      assert Distance(g, t, y.configuration.stateType, Corrected) == Ok(0);
      CorrectedDistanceIsStrict(g, t, y.configuration.stateType);
      var k :| 0 <= k < |entries| && entries[k] == x.configuration;
      var l :| 0 <= l < |entries| && entries[l] == y.configuration;
      assert k == l;
      assert x == y;
      TwoPositions(list, i, n - 1);
      CandidatesOnce(g, Corrected, entries, t, x);
      assert false;
    }
  }

  /** The executor built from the own type's configuration closes the hook list. */
  lemma OwnExecutorLast(g: Graph, entries: seq<StateEntry>, t: Tag, list: seq<StateExecutor>, own: StateEntry)
    requires DistinctTypes(entries) && IsHookList(g, Corrected, entries, t, list)
    requires own in entries && own.stateType == t
    ensures list != [] && list[|list| - 1] == NewStateExecutor(g, Corrected, t, own)
  {
    var x := NewStateExecutor(g, Corrected, t, own);
    assert x in list by {
      HookListMembers(g, Corrected, entries, t, list);
    }
    var i :| 0 <= i < |list| && list[i] == x;
    OwnConfigurationLast(g, entries, t, list, i);
  }

  /** Entering a state ends with the enter hook of its own type, when it has one; leaving it
      starts with its own exit hook. */
  lemma OwnHooksInnermost(g: Graph, entries: seq<StateEntry>, list: seq<StateExecutor>, state: StateValue, own: StateEntry)
    requires DistinctTypes(entries) && IsHookList(g, Corrected, entries, state.tag, list)
    requires own in entries && own.stateType == state.tag
    ensures own.onEnter.Some? ==>
              var trace := Concat(list, EnterWith(state));
              |trace| > 0 && trace[|trace| - 1] == Entered(own.onEnter.value, state)
    ensures own.onExit.Some? ==>
              var trace := Concat(Reversed(list), ExitWith(state));
              |trace| > 0 && trace[0] == Exited(own.onExit.value, state)
  {
    OwnExecutorLast(g, entries, state.tag, list, own);
    var x := NewStateExecutor(g, Corrected, state.tag, own);
    var n := |list|;
    assert Concat(list, EnterWith(state)) == Concat(list[..n - 1], EnterWith(state)) + Enter(x, state) by {
      ConcatSplit(list, n - 1, EnterWith(state));
      assert list[n - 1..] == [x];
      ConcatSingle(x, EnterWith(state));
    }
    var rev := Reversed(list);
    assert Concat(rev, ExitWith(state)) == Exit(x, state) + Concat(rev[1..], ExitWith(state)) by {
      ConcatSplit(rev, 1, ExitWith(state));
      assert rev[..1] == [x];
      ConcatSingle(x, ExitWith(state));
    }
  }

  /** As written every distance is 0, so any order of the candidates is a valid hook list:
      nothing makes the own type's hooks innermost. */
  lemma AsWrittenAnyOrder(g: Graph, entries: seq<StateEntry>, t: Tag, list: seq<StateExecutor>)
    requires multiset(list) == multiset(Candidates(g, AsWritten, entries, t))
    ensures IsHookList(g, AsWritten, entries, t, list)
  {
    var c := Candidates(g, AsWritten, entries, t);
    forall x | x in list ensures x.distance == 0 {
      assert x in multiset(c);
      AsWrittenDistanceIsZero(g, t, x.configuration.stateType);
    }
  }

  /** `State` (tag 0) with enter hook 0 and `StateA` (tag 1) with enter hook 1. */
  const HierarchyHooks: seq<StateEntry> := [StateEntry(0, Some(0), None), StateEntry(1, Some(1), None)]

  /** As written, both configurations apply to a `StateA` at distance 0. */
  lemma HierarchyCandidates()
    ensures Candidates(StateHierarchy, AsWritten, HierarchyHooks, 1)
         == [StateExecutor(HierarchyHooks[0], 1, 0), StateExecutor(HierarchyHooks[1], 1, 0)]
  {
    assert Inherits(StateHierarchy, 1, 0);
    AsWrittenDistanceIsZero(StateHierarchy, 1, 0);
    assert HierarchyHooks[..1] == [HierarchyHooks[0]] && HierarchyHooks[..1][..0] == [];
  }

  /** `StateA`'s own configuration first, then `State`'s, both at distance 0. */
  const OwnFirst: seq<StateExecutor> := [StateExecutor(HierarchyHooks[1], 1, 0), StateExecutor(HierarchyHooks[0], 1, 0)]

  /** As written, the own-first order is a valid hook list for a `StateA`. */
  lemma OwnFirstIsHookList()
    ensures IsHookList(StateHierarchy, AsWritten, HierarchyHooks, 1, OwnFirst)
  {
    HierarchyCandidates();
    assert multiset(OwnFirst) == multiset([OwnFirst[1], OwnFirst[0]]);
    AsWrittenAnyOrder(StateHierarchy, HierarchyHooks, 1, OwnFirst);
  }

  /** Entering through the own-first list runs `StateA`'s enter hook, then `State`'s. */
  lemma OwnFirstEnterTrace(state: StateValue)
    ensures Concat(OwnFirst, EnterWith(state)) == [Entered(1, state), Entered(0, state)]
  {
    ConcatSplit(OwnFirst, 1, EnterWith(state));
    assert OwnFirst[..1] == [OwnFirst[0]] && OwnFirst[1..] == [OwnFirst[1]];
    ConcatSingle(OwnFirst[0], EnterWith(state));
    ConcatSingle(OwnFirst[1], EnterWith(state));
  }

  /** As written, entering a `StateA` may run `StateA`'s own enter hook before `State`'s:
      the list with the own configuration first is a valid hook list. */
  lemma AsWrittenMayEnterOwnHookFirst()
    ensures var state := StateValue(1, 0);
      && IsHookList(StateHierarchy, AsWritten, HierarchyHooks, 1, OwnFirst)
      && Concat(OwnFirst, EnterWith(state)) == [Entered(1, state), Entered(0, state)]
  {
    OwnFirstIsHookList();
    OwnFirstEnterTrace(StateValue(1, 0));
  }
}
