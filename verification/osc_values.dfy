/** The arguments an inbound OSC notification carries, together with the few
    pieces of Python semantics the handlers rely on: `bool(v)`, `a == b`, and
    the range check followed by a dictionary lookup that picks a channel. */
module OscValues {
  import opened Wrappers

  /** Number of mirrored channels; the mirror keys them 0 .. NumChannels - 1. */
  const NumChannels: nat := 9

  /** One argument of an OSC message as the handler receives it: None, an int,
      a float, a bool or a string. */
  datatype Value = Nil | Int(i: int) | Float(r: real) | Bool(b: bool) | Str(s: string)

  /** The number a value stands for in a Python comparison: `bool` is a
      subtype of `int`, while strings and None are not numbers. */
  function Numeric(v: Value): (r: Option<real>)
    ensures r.Some? <==> (v.Int? || v.Float? || v.Bool?)
  {
    match v
    case Int(i) => Some(i as real)
    case Float(x) => Some(x)
    case Bool(b) => Some(if b then 1.0 else 0.0)
    case _ => None
  }

  /** Python's `bool(v)`. */
  predicate Truthy(v: Value) {
    match v
    case Nil => false
    case Int(i) => i != 0
    case Float(x) => x != 0.0
    case Bool(b) => b
    case Str(s) => s != ""
  }

  /** Python's `a == b`: numbers compare by value whatever their type,
      every other value only equals a value of its own kind. */
  predicate PyEq(a: Value, b: Value) {
    if Numeric(a).Some? && Numeric(b).Some? then Numeric(a) == Numeric(b) else a == b
  }

  /** The only falsy values are None, the empty string and numeric zero. */
  lemma FalsyValues(v: Value)
    ensures !Truthy(v) <==> v == Nil || v == Str("") || PyEq(v, Int(0))
  {
  }

  /** The channel a handler writes to when given `v` as its track index.
      The handler first checks `0 <= v < 9` and then looks `v` up in a
      dictionary keyed by the integers 0 .. 8, which finds a key exactly when
      `v == k` for one of them. A string or None makes the comparison raise,
      a non-integral float in range makes the lookup raise; in both cases
      nothing has been written yet, so both give None here. */
  function ChannelOf(v: Value): (r: Option<nat>)
    ensures r.Some? ==> r.value < NumChannels && PyEq(v, Int(r.value))
    ensures r.None? ==> forall k: nat :: k < NumChannels ==> !PyEq(v, Int(k))
  {
    match Numeric(v)
    case Some(x) =>
      if 0.0 <= x < NumChannels as real && x == x.Floor as real then Some(x.Floor as nat) else None
    case None => None
  }
}
