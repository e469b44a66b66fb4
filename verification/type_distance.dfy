/** `DistanceFrom`: how far a runtime type is from a declared ancestor, memoised.

    The code takes the minimum of the intermediate parents' own distances and never adds
    the edge to the parent, so every related pair ends up at distance 0. The model keeps
    that reading (`AsWritten`) and also the evidently intended one (`Corrected`), which
    counts one per edge; the dispatch engine is proved for any distance function. */
module TypeDistance {
  import opened Outcomes
  import opened TypeGraph

  datatype Reading = AsWritten | Corrected

  /** The distance from `child` to `grandparent` as `DistanceFrom` computes it. */
  function Distance(g: Graph, child: Tag, grandparent: Tag, reading: Reading): (r: Result<nat>)
    ensures child == grandparent ==> r == Ok(0)
    ensures !Inherits(g, child, grandparent) ==> r == Err(ArgumentError)
    decreases child, 1, 0
  {
    if child == grandparent then Ok(0)
    else if !Inherits(g, child, grandparent) then Err(ArgumentError)
    else
      var parents := IntermediateParents(g, child, grandparent);
      match MinOfParents(g, child, parents, |parents|, grandparent, reading)
      case Err(e) => Err(e)
      case Ok(None) => Err(EmptySequence)
      case Ok(Some(d)) => Ok(if reading == Corrected then d + 1 else d)
  }

  /** `parents.Select(t => t.DistanceFrom(grandparent)).Min()` over the first `n`
      parents, evaluated from left to right: the first failure propagates, `None` stands
      for "no element yet". */
  function MinOfParents(g: Graph, child: Tag, parents: seq<Tag>, n: nat, grandparent: Tag, reading: Reading)
    : (r: Result<Option<nat>>)
    requires n <= |parents|
    requires forall k | 0 <= k < |parents| :: parents[k] < child
    ensures r.Ok? ==> (r.value.None? <==> n == 0)
    decreases child, 0, n
  {
    if n == 0 then Ok(None)
    else
      KeepSmaller(MinOfParents(g, child, parents, n - 1, grandparent, reading),
                  Distance(g, parents[n - 1], grandparent, reading))
  }

  /** One step of `Min()`: the running minimum against the next element, failures first. */
  function KeepSmaller(acc: Result<Option<nat>>, d: Result<nat>): (r: Result<Option<nat>>)
    ensures acc.Err? ==> r == acc
    ensures acc.Ok? && d.Err? ==> r == Err(d.error)
    ensures acc.Ok? && d.Ok? ==>
              && r.Ok? && r.value.Some?
              && r.value.value <= d.value && (acc.value.Some? ==> r.value.value <= acc.value.value)
              && (r.value.value == d.value || r.value == acc.value)
  {
    match acc
    case Err(e) => Err(e)
    case Ok(best) =>
      match d
      case Err(e) => Err(e)
      case Ok(v) => Ok(Some(if best.Some? && best.value <= v then best.value else v))
  }

  /** For related types the distance is defined: the minimum is never taken over an empty
      set of parents and no recursive call meets an unrelated pair. */
  lemma {:induction false} RelatedDistanceIsDefined(g: Graph, child: Tag, grandparent: Tag, reading: Reading)
    requires Inherits(g, child, grandparent)
    ensures Distance(g, child, grandparent, reading).Ok?
    ensures reading == AsWritten ==> Distance(g, child, grandparent, reading) == Ok(0)
    decreases child, 1, 0
  {
    if child != grandparent {
      var parents := IntermediateParents(g, child, grandparent);
      IntermediateParentsNonEmpty(g, child, grandparent);
      MinOfParentsDefined(g, child, parents, |parents|, grandparent, reading);
    }
  }

  lemma {:induction false} MinOfParentsDefined(g: Graph, child: Tag, parents: seq<Tag>, n: nat, grandparent: Tag,
                                               reading: Reading)
    requires n <= |parents|
    requires forall k | 0 <= k < |parents| :: parents[k] < child && Inherits(g, parents[k], grandparent)
    ensures MinOfParents(g, child, parents, n, grandparent, reading).Ok?
    ensures reading == AsWritten && n > 0 ==> MinOfParents(g, child, parents, n, grandparent, reading) == Ok(Some(0))
    decreases child, 0, n
  {
    if n > 0 {
      MinOfParentsDefined(g, child, parents, n - 1, grandparent, reading);
      RelatedDistanceIsDefined(g, parents[n - 1], grandparent, reading);
    }
  }

  /** The distance of a related pair, which is always defined. */
  function RelatedDistance(g: Graph, child: Tag, grandparent: Tag, reading: Reading): (d: nat)
    requires Inherits(g, child, grandparent)
    ensures Distance(g, child, grandparent, reading) == Ok(d)
  {
    RelatedDistanceIsDefined(g, child, grandparent, reading);
    Distance(g, child, grandparent, reading).value
  }

  /** As written, every related pair is at distance 0: the hierarchy is flattened. */
  lemma AsWrittenDistanceIsZero(g: Graph, child: Tag, grandparent: Tag)
    ensures Inherits(g, child, grandparent) <==> Distance(g, child, grandparent, AsWritten) == Ok(0)
  {
    if Inherits(g, child, grandparent) {
      RelatedDistanceIsDefined(g, child, grandparent, AsWritten);
    }
  }

  /** A two-type hierarchy: tag 1 (`StateA`) derives from tag 0 (`State`). */
  const StateHierarchy: Graph := [TypeInfo(None, [], false), TypeInfo(Some(0), [], false)]

  /** As written, `StateA` is as close to `State` as `State` itself, one edge notwithstanding. */
  lemma AsWrittenFlattensHierarchy()
    ensures Distance(StateHierarchy, 1, 0, AsWritten) == Distance(StateHierarchy, 0, 0, AsWritten) == Ok(0)
  {
    assert IntermediateParents(StateHierarchy, 1, 0) == [0];
  }

  /** Corrected, the distance is 0 exactly for the type itself and at least 1 for every
      strict ancestor. */
  lemma CorrectedDistanceIsStrict(g: Graph, child: Tag, grandparent: Tag)
    requires Inherits(g, child, grandparent)
    ensures Distance(g, child, grandparent, Corrected).Ok?
    ensures Distance(g, child, grandparent, Corrected) == Ok(0) <==> child == grandparent
  {
    RelatedDistanceIsDefined(g, child, grandparent, Corrected);
  }

  /** Corrected, the distance is one more than the closest intermediate parent's: it is no
      larger than one plus any parent's distance, and the parent at index `w` attains it. */
  lemma {:induction false} CorrectedDistanceCountsEdges(g: Graph, child: Tag, grandparent: Tag) returns (w: nat)
    requires Inherits(g, child, grandparent) && child != grandparent
    ensures var d := Distance(g, child, grandparent, Corrected);
      var parents := IntermediateParents(g, child, grandparent);
      && d.Ok? && d.value >= 1
      && (forall k | 0 <= k < |parents| ::
            Distance(g, parents[k], grandparent, Corrected).Ok?
            && d.value <= Distance(g, parents[k], grandparent, Corrected).value + 1)
      && w < |parents| && Distance(g, parents[w], grandparent, Corrected) == Ok(d.value - 1)
  {
    var parents := IntermediateParents(g, child, grandparent);
    var best := MinOfParents(g, child, parents, |parents|, grandparent, Corrected);
    assert best.Ok? && best.value.Some? by {
      IntermediateParentsNonEmpty(g, child, grandparent);
      MinOfParentsDefined(g, child, parents, |parents|, grandparent, Corrected);
    }
    var m := best.value.value;
    assert Distance(g, child, grandparent, Corrected) == Ok(m + 1) by {
      DistanceOfParents(g, child, grandparent, Corrected, best.value);
    }
    w := MinOfParentsIsMinimum(g, child, parents, |parents|, grandparent, Corrected, m);
  }

  /** A minimum that was computed is no larger than any of the first `n` parents'
      distances, and the parent at index `w` attains it. */
  lemma {:induction false} MinOfParentsIsMinimum(g: Graph, child: Tag, parents: seq<Tag>, n: nat, grandparent: Tag,
                                                 reading: Reading, m: nat) returns (w: nat)
    requires n <= |parents|
    requires forall k | 0 <= k < |parents| :: parents[k] < child
    requires MinOfParents(g, child, parents, n, grandparent, reading) == Ok(Some(m))
    ensures forall k | 0 <= k < n ::
              Distance(g, parents[k], grandparent, reading).Ok? && m <= Distance(g, parents[k], grandparent, reading).value
    ensures w < n && Distance(g, parents[w], grandparent, reading) == Ok(m)
    decreases n
  {
    var acc := MinOfParents(g, child, parents, n - 1, grandparent, reading);
    if acc.Ok? && acc.value.Some? {
      var v := MinOfParentsIsMinimum(g, child, parents, n - 1, grandparent, reading, acc.value.value);
      w := if Distance(g, parents[n - 1], grandparent, reading) == Ok(m) then n - 1 else v;
    } else {
      w := n - 1;
    }
  }

  /** A failure among the first `i` parents is the failure of the whole minimum. */
  lemma {:induction false} MinOfParentsFailsEarly(g: Graph, child: Tag, parents: seq<Tag>, i: nat, grandparent: Tag,
                                                  reading: Reading)
    requires i <= |parents|
    requires forall k | 0 <= k < |parents| :: parents[k] < child
    requires MinOfParents(g, child, parents, i, grandparent, reading).Err?
    ensures MinOfParents(g, child, parents, |parents|, grandparent, reading)
         == MinOfParents(g, child, parents, i, grandparent, reading)
    decreases |parents| - i
  {
    if i < |parents| {
      MinOfParentsFailsEarly(g, child, parents, i + 1, grandparent, reading);
    }
  }

  /** `Distance` for a related pair, in terms of the minimum over its intermediate parents. */
  lemma DistanceOfParents(g: Graph, child: Tag, grandparent: Tag, reading: Reading, best: Option<nat>)
    requires child != grandparent && Inherits(g, child, grandparent)
    requires forall k | 0 <= k < |IntermediateParents(g, child, grandparent)| ::
               IntermediateParents(g, child, grandparent)[k] < child
    requires MinOfParents(g, child, IntermediateParents(g, child, grandparent),
                          |IntermediateParents(g, child, grandparent)|, grandparent, reading) == Ok(best)
    ensures best.None? ==> Distance(g, child, grandparent, reading) == Err(EmptySequence)
    ensures best.Some? ==>
      Distance(g, child, grandparent, reading) == Ok(if reading == Corrected then best.value + 1 else best.value)
  {
  }

  /** Storing the distance computed from the parents' minimum keeps a memo in agreement. */
  lemma StoreMinimum(g: Graph, reading: Reading, memo: map<(Tag, Tag), nat>, child: Tag, grandparent: Tag, best: nat)
    requires Agrees(g, reading, memo)
    requires child != grandparent && Inherits(g, child, grandparent)
    requires forall k | 0 <= k < |IntermediateParents(g, child, grandparent)| ::
               IntermediateParents(g, child, grandparent)[k] < child
    requires MinOfParents(g, child, IntermediateParents(g, child, grandparent),
                          |IntermediateParents(g, child, grandparent)|, grandparent, reading) == Ok(Some(best))
    ensures Agrees(g, reading, memo[(child, grandparent) := if reading == Corrected then best + 1 else best])
  {
    DistanceOfParents(g, child, grandparent, reading, Some(best));
    StoreAgrees(g, reading, memo, child, grandparent, if reading == Corrected then best + 1 else best);
  }

  /** A three-level chain `C -> B -> A` (tags 2, 1, 0): corrected, the distances are the
      numbers of edges, 1 and 2. */
  const ChainHierarchy: Graph :=
    [TypeInfo(None, [], false), TypeInfo(Some(0), [], false), TypeInfo(Some(1), [], false)]

  lemma CorrectedDistanceOnChain()
    ensures Distance(ChainHierarchy, 1, 0, Corrected) == Ok(1)
    ensures Distance(ChainHierarchy, 2, 0, Corrected) == Ok(2)
  {
    assert IntermediateParents(ChainHierarchy, 1, 0) == [0];
    assert Inherits(ChainHierarchy, 1, 0);
    assert IntermediateParents(ChainHierarchy, 2, 0) == [1];
  }

  /** Every entry of a distance memo holds the distance the recursion computes. */
  ghost predicate Agrees(g: Graph, reading: Reading, memo: map<(Tag, Tag), nat>) {
    forall key {:trigger memo[key]} | key in memo :: Distance(g, key.0, key.1, reading) == Ok(memo[key])
  }

  lemma StoreAgrees(g: Graph, reading: Reading, memo: map<(Tag, Tag), nat>, child: Tag, grandparent: Tag, d: nat)
    requires Agrees(g, reading, memo) && Distance(g, child, grandparent, reading) == Ok(d)
    ensures Agrees(g, reading, memo[(child, grandparent) := d])
  {
  }

  /** The process-wide distance cache of `ReflectionExtender`, for one type graph. */
  class DistanceCache {
    const graph: Graph
    const reading: Reading
    var memo: map<(Tag, Tag), nat>

    /** Every stored distance is the one the recursion computes. */
    ghost predicate Valid()
      reads this
    {
      Agrees(graph, reading, memo)
    }

    constructor (graph: Graph, reading: Reading)
      ensures Valid() && this.graph == graph && this.reading == reading && memo == map[]
    {
      this.graph := graph;
      this.reading := reading;
      memo := map[];
    }

    /** `DistanceFrom(child, grandparent)`: the identity shortcut, then the cache, then the
        inheritance check, then the minimum over the intermediate parents, stored. */
    method DistanceFrom(child: Tag, grandparent: Tag) returns (r: Result<nat>)
      requires Valid()
      modifies this
      ensures Valid()
      ensures r == Distance(graph, child, grandparent, reading)
      ensures forall key | key in old(memo) :: key in memo && memo[key] == old(memo)[key]
      ensures r.Ok? && child != grandparent ==> (child, grandparent) in memo
      decreases child, 2
    {
      if child == grandparent {
        return Ok(0);
      }
      if (child, grandparent) in memo {
        return Ok(memo[(child, grandparent)]);
      }
      if !Inherits(graph, child, grandparent) {
        return Err(ArgumentError);
      }
      r := ComputeAndStore(child, grandparent);
    }

    /** The uncached case of `DistanceFrom` for a related pair: the minimum over the
        intermediate parents, plus one when corrected, stored under the pair. */
    method ComputeAndStore(child: Tag, grandparent: Tag) returns (r: Result<nat>)
      requires Valid() && child != grandparent && Inherits(graph, child, grandparent)
      modifies this
      ensures Valid()
      ensures r == Distance(graph, child, grandparent, reading)
      ensures forall key | key in old(memo) :: key in memo && memo[key] == old(memo)[key]
      ensures r.Ok? ==> (child, grandparent) in memo
      decreases child, 1
    {
      var parents := IntermediateParents(graph, child, grandparent);
      var best := MinOverParents(child, parents, grandparent);
      if best.Err? {
        return Err(best.error);
      }
      if best.value.None? {
        DistanceOfParents(graph, child, grandparent, reading, best.value);
        return Err(EmptySequence);
      }
      var result := if reading == Corrected then best.value.value + 1 else best.value.value;
      StoreMinimum(graph, reading, memo, child, grandparent, best.value.value);
      memo := memo[(child, grandparent) := result];
      r := Ok(result);
    }

    /** The `Select(...).Min()` step of `DistanceFrom`: each parent's distance, through the
        cache, folded into the running minimum; the first failure ends the walk. */
    method MinOverParents(child: Tag, parents: seq<Tag>, grandparent: Tag) returns (r: Result<Option<nat>>)
      requires Valid()
      requires forall k | 0 <= k < |parents| :: parents[k] < child
      modifies this
      ensures Valid()
      ensures r == MinOfParents(graph, child, parents, |parents|, grandparent, reading)
      ensures forall key | key in old(memo) :: key in memo && memo[key] == old(memo)[key]
      decreases child, 0
    {
      var best: Option<nat> := None;
      var i := 0;
      while i < |parents|
        invariant 0 <= i <= |parents|
        invariant Valid()
        invariant MinOfParents(graph, child, parents, i, grandparent, reading) == Ok(best)
        invariant forall key | key in old(memo) :: key in memo && memo[key] == old(memo)[key]
      {
        var d := DistanceFrom(parents[i], grandparent);
        var acc := KeepSmaller(Ok(best), d);
        if acc.Err? {
          MinOfParentsFailsEarly(graph, child, parents, i + 1, grandparent, reading);
          return acc;
        }
        best := acc.value;
        i := i + 1;
      }
      r := Ok(best);
    }
  }
}
