/** The type hierarchy that .NET reflection supplies to the engine, as an explicit graph.

    A type is a `Tag`. The graph describes the tags `0 .. |g| - 1`; every other tag is a
    class with neither base type nor interfaces. Each described type has an optional base
    type, the list of interfaces it reports (what `GetInterfaces()` returns, so closed under
    the interfaces of its base type and of its interfaces) and an interface flag. Parents always carry smaller tags than their children, which keeps the
    graph acyclic and gives every recursion over it a measure. */
module TypeGraph {
  import opened Outcomes

  type Tag = nat

  datatype TypeInfo = TypeInfo(base: Option<Tag>, interfaces: seq<Tag>, isInterface: bool)

  /** The shape .NET guarantees: acyclic (parents below children), interfaces have no base
      type, a base type is a class, and the interface list holds interfaces only. The list
      is closed, as `GetInterfaces()` reports it: it holds the interfaces of the base type
      and of every listed interface too. */
  predicate WellFormed(g: seq<TypeInfo>) {
    forall t | 0 <= t < |g| :: WellFormedAt(g, t)
  }

  predicate WellFormedAt(g: seq<TypeInfo>, t: nat)
    requires t < |g|
  {
    var info := g[t];
    && (info.base.Some? ==> info.base.value < t && !g[info.base.value].isInterface)
    && (info.isInterface ==> info.base.None?)
    && (forall k | 0 <= k < |info.interfaces| ::
          info.interfaces[k] < t && g[info.interfaces[k]].isInterface)
    && (info.base.Some? ==> forall i | i in g[info.base.value].interfaces :: i in info.interfaces)
    && (forall k | 0 <= k < |info.interfaces| ::
          forall i | i in g[info.interfaces[k]].interfaces :: i in info.interfaces)
  }

  type Graph = g: seq<TypeInfo> | WellFormed(g) witness []

  /** What reflection reports for a type. */
  function Info(g: Graph, t: Tag): (info: TypeInfo)
    ensures info.base.Some? ==> info.base.value < t
    ensures info.isInterface ==> info.base.None?
    ensures forall k | 0 <= k < |info.interfaces| :: info.interfaces[k] < t
  {
    if t < |g| then assert WellFormedAt(g, t); g[t] else TypeInfo(None, [], false)
  }

  /** The base type of a type is a class; the interfaces it lists are interfaces. */
  lemma ParentKinds(g: Graph, t: Tag)
    ensures var info := Info(g, t);
      && (info.base.Some? ==> !IsInterface(g, info.base.value))
      && (forall k | 0 <= k < |info.interfaces| :: IsInterface(g, info.interfaces[k]))
  {
    if t < |g| {
      assert WellFormedAt(g, t);
    }
  }

  predicate IsInterface(g: Graph, t: Tag) {
    Info(g, t).isInterface
  }

  /** `InheritsFrom`: `child` is `parent`, or derives from it or implements it through
      some chain of base types and interfaces (`IsAssignableFrom`). */
  predicate Inherits(g: Graph, child: Tag, parent: Tag)
    decreases child
  {
    || child == parent
    || (var info := Info(g, child);
        || (info.base.Some? && Inherits(g, info.base.value, parent))
        || (exists k | 0 <= k < |info.interfaces| :: Inherits(g, info.interfaces[k], parent)))
  }

  /** Inheritance is a preorder: reflexive, and transitive along any chain. */
  lemma {:induction false} InheritsTransitive(g: Graph, a: Tag, b: Tag, c: Tag)
    requires Inherits(g, a, b) && Inherits(g, b, c)
    ensures Inherits(g, a, a) && Inherits(g, a, c)
    decreases a
  {
    if a != b {
      var info := Info(g, a);
      if info.base.Some? && Inherits(g, info.base.value, b) {
        InheritsTransitive(g, info.base.value, b, c);
      } else {
        var k :| 0 <= k < |info.interfaces| && Inherits(g, info.interfaces[k], b);
        InheritsTransitive(g, info.interfaces[k], b, c);
        assert Inherits(g, info.interfaces[k], c);
      }
    }
  }

  /** Everything an interface inherits from is an interface: interfaces have no base type
      and only list interfaces. */
  lemma {:induction false} InterfaceAncestorsAreInterfaces(g: Graph, i: Tag, p: Tag)
    requires IsInterface(g, i) && Inherits(g, i, p)
    ensures IsInterface(g, p)
    decreases i
  {
    if i != p {
      var info := Info(g, i);
      ParentKinds(g, i);
      var k :| 0 <= k < |info.interfaces| && Inherits(g, info.interfaces[k], p);
      InterfaceAncestorsAreInterfaces(g, info.interfaces[k], p);
    }
  }

  /** The interfaces of `ifaces` that lead to `grandparent` and that `base` does not already
      implement (`IsFirstImplementationOf`), in their original order. */
  function FirstImplementations(g: Graph, base: Option<Tag>, ifaces: seq<Tag>, grandparent: Tag): seq<Tag> {
    if ifaces == [] then []
    else
      var n := |ifaces| - 1;
      var kept := FirstImplementations(g, base, ifaces[..n], grandparent);
      var i := ifaces[n];
      if Inherits(g, i, grandparent) && (base.None? || !Inherits(g, base.value, i)) then kept + [i]
      else kept
  }

  /** The interfaces kept are exactly those that lead to `grandparent` and that `base` does
      not already implement. */
  lemma {:induction false} FirstImplementationsExactly(g: Graph, base: Option<Tag>, ifaces: seq<Tag>, grandparent: Tag)
    ensures forall i :: i in FirstImplementations(g, base, ifaces, grandparent) <==>
              (i in ifaces && Inherits(g, i, grandparent) && (base.None? || !Inherits(g, base.value, i)))
    decreases |ifaces|
  {
    if ifaces != [] {
      var n := |ifaces| - 1;
      FirstImplementationsExactly(g, base, ifaces[..n], grandparent);
      assert ifaces == ifaces[..n] + [ifaces[n]];
    }
  }

  /** `GetIntermediateParents`: the direct parents of `child` through which `grandparent`
      can be reached. Interfaces are considered only when `grandparent` is an interface;
      the base type comes last. A null base type inherits nothing. */
  function IntermediateParents(g: Graph, child: Tag, grandparent: Tag): (r: seq<Tag>)
    ensures forall k | 0 <= k < |r| :: r[k] < child && Inherits(g, r[k], grandparent)
  {
    var info := Info(g, child);
    var ifaces := if IsInterface(g, grandparent) then FirstImplementations(g, info.base, info.interfaces, grandparent) else [];
    var base := if info.base.Some? && Inherits(g, info.base.value, grandparent) then [info.base.value] else [];
    FirstImplementationsExactly(g, info.base, info.interfaces, grandparent);
    assert forall k | 0 <= k < |ifaces| :: ifaces[k] in info.interfaces;
    ifaces + base
  }

  /** Which direct parents `GetIntermediateParents` yields: the base type exactly when it
      reaches `grandparent`, and an interface exactly when `grandparent` is an interface,
      the interface reaches it and the base type does not already implement it. */
  lemma IntermediateParentsExactly(g: Graph, child: Tag, grandparent: Tag)
    ensures var r := IntermediateParents(g, child, grandparent);
      var info := Info(g, child);
      && (forall p | p in r :: info.base == Some(p) || p in info.interfaces)
      && (info.base.Some? ==> (info.base.value in r <==> Inherits(g, info.base.value, grandparent)))
      && (forall i | i in info.interfaces ::
            (i in r <==> IsInterface(g, grandparent) && Inherits(g, i, grandparent)
                         && (info.base.None? || !Inherits(g, info.base.value, i))))
  {
    var info := Info(g, child);
    FirstImplementationsExactly(g, info.base, info.interfaces, grandparent);
    ParentKinds(g, child);
  }

  /** For a type that strictly inherits `grandparent`, at least one intermediate parent is
      found, so the minimum in `DistanceFrom` is never taken over nothing. */
  lemma IntermediateParentsNonEmpty(g: Graph, child: Tag, grandparent: Tag)
    requires Inherits(g, child, grandparent) && child != grandparent
    ensures |IntermediateParents(g, child, grandparent)| > 0
  {
    var info := Info(g, child);
    ParentKinds(g, child);
    IntermediateParentsExactly(g, child, grandparent);
    var r := IntermediateParents(g, child, grandparent);
    if info.base.Some? && Inherits(g, info.base.value, grandparent) {
      assert info.base.value in r;
    } else {
      var k :| 0 <= k < |info.interfaces| && Inherits(g, info.interfaces[k], grandparent);
      var i := info.interfaces[k];
      InterfaceAncestorsAreInterfaces(g, i, grandparent);
      if info.base.Some? && Inherits(g, info.base.value, i) {
        InheritsTransitive(g, info.base.value, i, grandparent);
        assert false;
      }
      assert i in r;
    }
  }
}
