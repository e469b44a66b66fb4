/** Comparators, sortedness, and the two in-place array operations the executor applies
    to every freshly built hook or rule list: `Array.Sort` (with the elements' own
    `CompareTo`) followed by `Array.Reverse`.

    `Array.Sort` is not stable, so nothing is promised about the relative order of
    elements that compare equal: the sort is specified by sortedness and permutation only. */
module Ordering {

  /** What `IComparable<T>.CompareTo` is expected to be: reflexive zero, antisymmetric in
      sign, transitive. */
  ghost predicate IsTotalPreorder<T(!new)>(cmp: (T, T) -> int) {
    && (forall x :: cmp(x, x) == 0)
    && (forall x, y :: cmp(x, y) < 0 <==> cmp(y, x) > 0)
    && (forall x, y, z :: cmp(x, y) <= 0 && cmp(y, z) <= 0 ==> cmp(x, z) <= 0)
  }

  /** `int.CompareTo`: -1, 0 or 1 as `a` is below, equal to or above `b`. */
  function CompareInts(a: int, b: int): (r: int)
    ensures r < 0 <==> a < b
    ensures r == 0 <==> a == b
    ensures r > 0 <==> a > b
    ensures -1 <= r <= 1
  {
    if a < b then -1 else if a == b then 0 else 1
  }

  /** `bool.CompareTo`: `false` sorts before `true`. */
  function CompareBools(a: bool, b: bool): (r: int)
    ensures r < 0 <==> !a && b
    ensures r == 0 <==> a == b
    ensures r > 0 <==> a && !b
  {
    if a == b then 0 else if b then -1 else 1
  }

  /** Sorted by `cmp`, smallest first (what `Array.Sort` leaves behind). */
  ghost predicate Ascending<T>(s: seq<T>, cmp: (T, T) -> int) {
    forall i, j | 0 <= i < j < |s| :: cmp(s[i], s[j]) <= 0
  }

  /** Sorted by `cmp`, largest first (what `Array.Reverse` makes of an ascending array). */
  ghost predicate NonIncreasing<T>(s: seq<T>, cmp: (T, T) -> int) {
    forall i, j | 0 <= i < j < |s| :: cmp(s[i], s[j]) >= 0
  }

  /** `Enumerable.Reverse`: the same elements, last first. */
  function Reversed<T>(s: seq<T>): (r: seq<T>)
    ensures |r| == |s|
  {
    seq(|s|, k requires 0 <= k < |s| => s[|s| - 1 - k])
  }

  /** `Enumerable.Where`: the elements that satisfy `p`, in their original order. */
  function Filter<T>(s: seq<T>, p: T -> bool): (r: seq<T>)
    ensures |r| <= |s|
    ensures forall k | 0 <= k < |r| :: r[k] in s && p(r[k])
  {
    if s == [] then []
    else if p(s[0]) then [s[0]] + Filter(s[1..], p)
    else Filter(s[1..], p)
  }

  /** The strict variant of transitivity that a total preorder also satisfies. */
  lemma StrictTransitive<T(!new)>(cmp: (T, T) -> int, x: T, y: T, z: T)
    requires IsTotalPreorder(cmp)
    requires cmp(x, y) < 0 && cmp(y, z) <= 0
    ensures cmp(x, z) < 0
  {
  }

  /** `Array.Sort`: an insertion sort, leaving the array ascending and a permutation of
      what it held. */
  method Sort<T(!new)>(a: array<T>, cmp: (T, T) -> int)
    requires IsTotalPreorder(cmp)
    modifies a
    ensures Ascending(a[..], cmp)
    ensures multiset(a[..]) == multiset(old(a[..]))
  {
    var i := 0;
    while i < a.Length
      invariant 0 <= i <= a.Length
      invariant Ascending(a[..i], cmp)
      invariant multiset(a[..]) == multiset(old(a[..]))
    {
      InsertLast(a, i, cmp);
      i := i + 1;
    }
    assert a[..a.Length] == a[..];
  }

  /** Moves `a[i]` down into the sorted prefix `a[..i]`. */
  method InsertLast<T(!new)>(a: array<T>, i: nat, cmp: (T, T) -> int)
    requires IsTotalPreorder(cmp)
    requires i < a.Length && Ascending(a[..i], cmp)
    modifies a
    ensures Ascending(a[..i + 1], cmp)
    ensures multiset(a[..]) == multiset(old(a[..]))
  {
    var j := i;
    assert Inserting(a[..], i, j, cmp);
    while j > 0 && cmp(a[j - 1], a[j]) > 0
      invariant 0 <= j <= i
      invariant multiset(a[..]) == multiset(old(a[..]))
      invariant Inserting(a[..], i, j, cmp)
    {
      SwapStep(a[..], i, j, cmp);
      SwapNeighbours(a, j);
      j := j - 1;
    }
    InsertedAscending(a[..], i, j, cmp);
  }

  /** Exchanges `a[j - 1]` and `a[j]`. */
  method SwapNeighbours<T>(a: array<T>, j: nat)
    requires 0 < j < a.Length
    modifies a
    ensures a[..] == old(a[..])[j - 1 := old(a[j])][j := old(a[j - 1])]
  {
    a[j - 1], a[j] := a[j], a[j - 1];
  }

  /** The insertion invariant: apart from the moving element `s[j]`, the prefix
      `s[..i + 1]` is ascending, and the moving element is below everything it passed. */
  ghost predicate Inserting<T>(s: seq<T>, i: nat, j: nat, cmp: (T, T) -> int)
    requires j <= i < |s|
  {
    && (forall p, q | 0 <= p < q <= i && p != j && q != j :: cmp(s[p], s[q]) <= 0)
    && (forall q | j < q <= i :: cmp(s[j], s[q]) < 0)
  }

  /** Swapping the moved element `s[j]` with a larger left neighbour keeps the insertion
      invariant, one position further left. */
  lemma SwapStep<T(!new)>(s: seq<T>, i: nat, j: nat, cmp: (T, T) -> int)
    requires IsTotalPreorder(cmp)
    requires 0 < j <= i < |s| && Inserting(s, i, j, cmp)
    requires cmp(s[j - 1], s[j]) > 0
    ensures var t := s[j - 1 := s[j]][j := s[j - 1]];
      multiset(t) == multiset(s) && Inserting(t, i, j - 1, cmp)
  {
  }

  /** Once the moved element `s[j]` is no smaller than its left neighbour, the prefix
      `s[..i + 1]` is ascending. */
  lemma InsertedAscending<T(!new)>(s: seq<T>, i: nat, j: nat, cmp: (T, T) -> int)
    requires IsTotalPreorder(cmp)
    requires j <= i < |s| && Inserting(s, i, j, cmp)
    requires j == 0 || cmp(s[j - 1], s[j]) <= 0
    ensures Ascending(s[..i + 1], cmp)
  {
    forall p, q | 0 <= p < q <= i
      ensures cmp(s[p], s[q]) <= 0
    {
      if q == j {
        if p < j - 1 {
          assert cmp(s[p], s[j - 1]) <= 0;
        }
      } else if p == j {
        assert cmp(s[j], s[q]) < 0;
      }
    }
  }

  /** `Array.Reverse`: swaps the two halves' mirrored elements in place. */
  method Reverse<T>(a: array<T>)
    modifies a
    ensures a[..] == Reversed(old(a[..]))
  {
    var n := a.Length;
    var i := 0;
    while i < n / 2
      invariant 0 <= i <= n / 2
      invariant forall k | 0 <= k < i :: a[k] == old(a[n - 1 - k]) && a[n - 1 - k] == old(a[k])
      invariant forall k | i <= k < n - i :: a[k] == old(a[k])
    {
      a[i], a[n - 1 - i] := a[n - 1 - i], a[i];
      i := i + 1;
    }
  }

  /** Reversing keeps the elements. */
  lemma {:induction false} ReversedMultiset<T>(s: seq<T>)
    ensures multiset(Reversed(s)) == multiset(s)
    decreases |s|
  {
    if s != [] {
      var n := |s|;
      ReversedMultiset(s[1..]);
      assert Reversed(s) == Reversed(s[1..]) + [s[0]];
      assert s == [s[0]] + s[1..];
    }
  }

  /** An ascending sequence read backwards is non-increasing: after `Sort` and `Reverse`
      the largest element comes first. */
  lemma ReversedAscending<T(!new)>(s: seq<T>, cmp: (T, T) -> int)
    requires IsTotalPreorder(cmp) && Ascending(s, cmp)
    ensures NonIncreasing(Reversed(s), cmp)
  {
    var r := Reversed(s);
    forall i, j | 0 <= i < j < |r|
      ensures cmp(r[i], r[j]) >= 0
    {
      assert cmp(s[|s| - 1 - j], s[|s| - 1 - i]) <= 0;
    }
  }

  /** A non-increasing sequence read backwards is ascending: reversing the filtered rule
      list puts the most specific rule first. */
  lemma ReversedNonIncreasing<T(!new)>(s: seq<T>, cmp: (T, T) -> int)
    requires IsTotalPreorder(cmp) && NonIncreasing(s, cmp)
    ensures Ascending(Reversed(s), cmp)
  {
    var r := Reversed(s);
    forall i, j | 0 <= i < j < |r|
      ensures cmp(r[i], r[j]) <= 0
    {
      assert cmp(s[|s| - 1 - j], s[|s| - 1 - i]) >= 0;
    }
  }

  /** The head of a non-increasing sequence is no smaller than anything after it. */
  lemma HeadDominates<T>(s: seq<T>, cmp: (T, T) -> int)
    requires NonIncreasing(s, cmp) && s != []
    ensures forall x | x in s[1..] :: cmp(s[0], x) >= 0
  {
    forall x | x in s[1..] ensures cmp(s[0], x) >= 0 {
      var k :| 0 <= k < |s[1..]| && s[1..][k] == x;
      assert s[k + 1] == x;
    }
  }

  /** The tail of a non-increasing sequence is non-increasing. */
  lemma TailNonIncreasing<T>(s: seq<T>, cmp: (T, T) -> int)
    requires NonIncreasing(s, cmp) && s != []
    ensures NonIncreasing(s[1..], cmp)
  {
    forall i, j | 0 <= i < j < |s[1..]| ensures cmp(s[1..][i], s[1..][j]) >= 0 {
      assert s[1..][i] == s[i + 1] && s[1..][j] == s[j + 1];
    }
  }

  /** Filtering keeps a non-increasing sequence non-increasing: the survivors keep their
      relative order. */
  lemma {:induction false} FilterNonIncreasing<T>(s: seq<T>, p: T -> bool, cmp: (T, T) -> int)
    requires NonIncreasing(s, cmp)
    ensures NonIncreasing(Filter(s, p), cmp)
    decreases |s|
  {
    if s != [] {
      TailNonIncreasing(s, cmp);
      FilterNonIncreasing(s[1..], p, cmp);
      if p(s[0]) {
        var t := Filter(s[1..], p);
        HeadDominates(s, cmp);
        assert forall k | 0 <= k < |t| :: cmp(s[0], t[k]) >= 0;
        var r := [s[0]] + t;
        assert Filter(s, p) == r;
        forall i, j | 0 <= i < j < |r| ensures cmp(r[i], r[j]) >= 0 {
          assert r[j] == t[j - 1];
          if i > 0 {
            assert r[i] == t[i - 1];
          }
        }
      }
    }
  }

  /** How many copies of each value a filter keeps: all of them, or none. */
  lemma {:induction false} FilterMultiset<T>(s: seq<T>, p: T -> bool, x: T)
    ensures multiset(Filter(s, p))[x] == if p(x) then multiset(s)[x] else 0
    decreases |s|
  {
    if s != [] {
      FilterMultiset(s[1..], p, x);
      assert s == [s[0]] + s[1..];
    }
  }

  /** Filtering two permutations of each other gives permutations of each other: which
      elements survive does not depend on the order. */
  lemma FilterPermutation<T>(s: seq<T>, t: seq<T>, p: T -> bool)
    requires multiset(s) == multiset(t)
    ensures multiset(Filter(s, p)) == multiset(Filter(t, p))
  {
    forall x ensures multiset(Filter(s, p))[x] == multiset(Filter(t, p))[x] {
      FilterMultiset(s, p, x);
      FilterMultiset(t, p, x);
    }
  }
}
