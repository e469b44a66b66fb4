/** `EventKey`: the (state type, event type) pair under which rules are registered and
    cached, compared by value. */
module EventKeys {
  import opened Outcomes
  import opened TypeGraph

  datatype EventKey = EventKey(stateType: Tag, eventType: Tag)

  /** `new EventKey(stateType, eventType)`: both types must be present (`EnsureNotNull`).
      The accessors give back exactly what was passed in. */
  function NewEventKey(stateType: Option<Tag>, eventType: Option<Tag>): (r: Result<EventKey>)
    ensures r.Ok? <==> stateType.Some? && eventType.Some?
    ensures r.Err? ==> r.error == ArgumentNull
    ensures r.Ok? ==> r.value.stateType == stateType.value && r.value.eventType == eventType.value
  {
    if stateType.None? || eventType.None? then Err(ArgumentNull)
    else Ok(EventKey(stateType.value, eventType.value))
  }

  /** `Equals(EventKey)`: field-wise equality, which is exactly value equality of keys. */
  predicate Equals(a: EventKey, b: EventKey)
    ensures Equals(a, b) <==> a == b
  {
    a.stateType == b.stateType && a.eventType == b.eventType
  }

  /** What `Equals(object)` may be handed: null, a boxed key, or any other object. */
  datatype Boxed = NullReference | BoxedKey(key: EventKey) | OtherObject(id: nat)

  /** `Equals(object)`: false for null and for anything that is not an `EventKey`,
      otherwise the typed equality. */
  predicate EqualsObject(a: EventKey, other: Boxed)
    ensures EqualsObject(a, other) <==> other == BoxedKey(a)
  {
    if other.NullReference? then false
    else if !other.BoxedKey? then false
    else Equals(a, other.key)
  }

  const TwoTo32: int := 0x1_0000_0000
  const TwoTo31: int := 0x8000_0000

  /** A C# `int`. */
  type Int32 = x: int | -TwoTo31 <= x < TwoTo31

  /** Unchecked 32-bit two's-complement wrap-around of an exact result. */
  function Wrap32(x: int): (r: Int32)
    ensures r == x - TwoTo32 * ((x + TwoTo31) / TwoTo32)
  {
    (x + TwoTo31) % TwoTo32 - TwoTo31
  }

  /** `GetHashCode`: `13 * h(state) + 7 * h(event) + 3` in unchecked `int` arithmetic, where
      `h` is what `Type.GetHashCode` returns. The result is that value reduced modulo
      2^32 into the `int` range. */
  function GetHashCode(k: EventKey, h: Tag -> Int32): (r: Int32)
    ensures (r - (13 * h(k.stateType) + 7 * h(k.eventType) + 3)) % TwoTo32 == 0
  {
    var s := Wrap32(h(k.stateType) * 13);
    var e := Wrap32(h(k.eventType) * 7);
    var sum := Wrap32(s + e);
    var r := Wrap32(sum + 3);
    WrapSum(h(k.stateType) * 13, h(k.eventType) * 7, s, e, sum, r);
    r
  }

  lemma WrapSum(a: int, b: int, s: int, e: int, sum: int, r: int)
    requires s == Wrap32(a) && e == Wrap32(b) && sum == Wrap32(s + e) && r == Wrap32(sum + 3)
    ensures (r - (a + b + 3)) % TwoTo32 == 0
  {
    var q := (a + TwoTo31) / TwoTo32 + (b + TwoTo31) / TwoTo32
             + (s + e + TwoTo31) / TwoTo32 + (sum + 3 + TwoTo31) / TwoTo32;
    assert r - (a + b + 3) == TwoTo32 * (-q);
    MultipleMod(-q);
  }

  lemma MultipleMod(q: int)
    ensures (TwoTo32 * q) % TwoTo32 == 0
  {
  }

  /** Keys that are `Equals` hash alike, so they can share a dictionary slot. */
  lemma EqualKeysHashAlike(a: EventKey, b: EventKey, h: Tag -> Int32)
    requires Equals(a, b)
    ensures GetHashCode(a, h) == GetHashCode(b, h)
  {
  }
}
