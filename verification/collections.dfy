/** `CollectionExtender` and `TryGetMode`: the five-mode dictionary lookup the engine uses
    for its configuration dictionaries and caches, and `Iterate`, the `foreach` that runs
    an action on every element.

    A dictionary is a `map` value: `TryGet` returns the dictionary as it stands afterwards,
    and its caller stores that back into its own field. Actions are modelled by what they
    leave behind: each one yields the effects it has, in order. */
module Collections {
  import opened Outcomes

  /** The retrieval modes of `TryGet`. */
  datatype TryGetMode =
    | GetOrDefault      // the stored value, or a fresh one that is not stored
    | GetOrThrow        // the stored value, or KeyNotFoundException
    | GetOrCreate       // the stored value, or a fresh one that is stored and returned
    | CreateOrFail      // a fresh value that is stored, or ArgumentException if the key exists
    | CreateAndReplace  // a fresh value that is stored, whatever was there

  /** `factory ?? DefaultValue`: a missing factory yields `zero`, the stand-in for
      `default(TValue)`, for every key. */
  function FactoryOrDefault<K(!new), V>(factory: Option<K -> V>, zero: V): (f: K -> V)
    ensures factory.Some? ==> f == factory.value
    ensures factory.None? ==> forall key :: f(key) == zero
  {
    if factory.Some? then factory.value else (key: K) => zero
  }

  /** `TryGet(map, key, mode, factory)`. */
  method TryGet<K(!new), V>(m: map<K, V>, key: K, mode: TryGetMode, factory: Option<K -> V>, zero: V)
    returns (r: Result<V>, m': map<K, V>)
    // the mode decides the outcome
    ensures mode == CreateAndReplace ==> r == Ok(FactoryOrDefault(factory, zero)(key))
    ensures mode != CreateAndReplace && key in m ==>
              r == (if mode == CreateOrFail then Err(ArgumentError) else Ok(m[key]))
    ensures mode == GetOrDefault && key !in m ==> r == Ok(FactoryOrDefault(factory, zero)(key))
    ensures mode == GetOrThrow && key !in m ==> r == Err(KeyNotFound)
    ensures (mode == GetOrCreate || mode == CreateOrFail) && key !in m ==>
              r == Ok(FactoryOrDefault(factory, zero)(key))
    // a failure, a read, or a value that is not kept leaves the dictionary as it was
    ensures r.Err? || mode == GetOrDefault || mode == GetOrThrow || (key in m && mode != CreateAndReplace) ==> m' == m
    // otherwise the dictionary gains the returned value under `key`, and nothing else changes
    ensures r.Ok? && mode != GetOrDefault && mode != GetOrThrow ==> key in m' && m'[key] == r.value
    ensures forall k | k != key :: (k in m' <==> k in m) && (k in m ==> m'[k] == m[k])
  {
    var f := FactoryOrDefault(factory, zero);
    if mode == CreateAndReplace {
      var v := f(key);
      m' := m[key := v];
      return Ok(v), m';
    }
    m' := m;
    if key in m {
      if mode == CreateOrFail {
        return Err(ArgumentError), m';
      }
      return Ok(m[key]), m';
    }
    match mode
    case GetOrDefault =>
      r := Ok(f(key));
    case GetOrThrow =>
      r := Err(KeyNotFound);
    case _ =>
      var v := f(key);
      m' := m[key := v];
      r := Ok(v);
  }

  /** The effects of running `action` on every item, first item first. */
  function Concat<T, E>(items: seq<T>, action: T -> seq<E>): (r: seq<E>)
    ensures items == [] ==> r == []
    decreases |items|
  {
    if items == [] then []
    else Concat(items[..|items| - 1], action) + action(items[|items| - 1])
  }

  /** `Iterate`: `foreach (var item in collection) action(item)`. */
  method Iterate<T, E>(items: seq<T>, action: T -> seq<E>, log: seq<E>) returns (log': seq<E>)
    ensures log' == log + Concat(items, action)
  {
    log' := log;
    for i := 0 to |items|
      invariant log' == log + Concat(items[..i], action)
    {
      assert items[..i + 1][..i] == items[..i];
      log' := log' + action(items[i]);
    }
    assert items[..|items|] == items;
  }

  /** The items' effects come in the items' order: whatever is split off the front runs
      first. */
  lemma {:induction false} ConcatSplit<T, E>(items: seq<T>, k: nat, action: T -> seq<E>)
    requires k <= |items|
    ensures Concat(items, action) == Concat(items[..k], action) + Concat(items[k..], action)
    decreases |items|
  {
    if k == |items| {
      assert items[..k] == items;
      assert items[k..] == [];
    } else {
      var n := |items|;
      ConcatSplit(items[..n - 1], k, action);
      assert items[..n - 1][..k] == items[..k];
      assert items[k..][..|items[k..]| - 1] == items[..n - 1][k..];
      assert items[k..][|items[k..]| - 1] == items[n - 1];
    }
  }

  /** One item's effects are exactly what the action does for it. */
  lemma ConcatSingle<T, E>(x: T, action: T -> seq<E>)
    ensures Concat([x], action) == action(x)
  {
    assert [x][..0] == [];
  }

  /** No value occurs twice: the order in which a dictionary's keys were read. */
  ghost predicate Distinct<T>(s: seq<T>) {
    forall i, j | 0 <= i < j < |s| :: s[i] != s[j]
  }

  /** Appending a new value keeps a sequence free of repeats. */
  lemma DistinctAppend<T>(s: seq<T>, x: T)
    requires Distinct(s) && x !in s
    ensures Distinct(s + [x])
  {
    forall i, j | 0 <= i < j < |s| + 1 ensures (s + [x])[i] != (s + [x])[j] {
      if j == |s| {
        assert (s + [x])[i] == s[i];
      }
    }
  }
}
