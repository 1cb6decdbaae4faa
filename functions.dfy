/**
 * The small numeric helpers: the variadic `min`, `max`, `argmin` and
 * `argmax`, the `plus` and `multiplies` adapters that update the element
 * they are applied to, and `sqr`.
 *
 * A variadic call `f<T, nargs>(x, ...)` is modelled by the sequence of its
 * `nargs` values, `x` first; values are mathematical integers.
 */
module Functions {

  /** `min`: a value of the sequence that is no larger than any of them. */
  method Min(values: seq<int>) returns (best: int)
    requires |values| >= 1
    ensures best in values
    ensures forall k :: 0 <= k < |values| ==> best <= values[k]
  {
    best := values[0];
    for i := 1 to |values|
      invariant best in values[..i]
      invariant forall k :: 0 <= k < i ==> best <= values[k]
    {
      if values[i] < best {
        best := values[i];
      }
    }
  }

  /** `max`: a value of the sequence that is no smaller than any of them. */
  method Max(values: seq<int>) returns (best: int)
    requires |values| >= 1
    ensures best in values
    ensures forall k :: 0 <= k < |values| ==> best >= values[k]
  {
    best := values[0];
    for i := 1 to |values|
      invariant best in values[..i]
      invariant forall k :: 0 <= k < i ==> best >= values[k]
    {
      if values[i] > best {
        best := values[i];
      }
    }
  }

  /**
   * `argmin`: the index of the first minimal value. The strict comparison
   * keeps the earliest of equal values.
   */
  method ArgMin(values: seq<int>) returns (result: nat)
    requires |values| >= 1
    ensures result < |values|
    ensures forall k :: 0 <= k < |values| ==> values[result] <= values[k]
    ensures forall k :: 0 <= k < result ==> values[k] > values[result]
  {
    var best := values[0];
    result := 0;
    for i := 1 to |values|
      invariant result < i && best == values[result]
      invariant forall k :: 0 <= k < i ==> best <= values[k]
      invariant forall k :: 0 <= k < result ==> values[k] > best
    {
      if values[i] < best {
        result := i;
        best := values[i];
      }
    }
  }

  /** `argmax`: the index of the first maximal value. */
  method ArgMax(values: seq<int>) returns (result: nat)
    requires |values| >= 1
    ensures result < |values|
    ensures forall k :: 0 <= k < |values| ==> values[result] >= values[k]
    ensures forall k :: 0 <= k < result ==> values[k] < values[result]
  {
    var best := values[0];
    result := 0;
    for i := 1 to |values|
      invariant result < i && best == values[result]
      invariant forall k :: 0 <= k < i ==> best >= values[k]
      invariant forall k :: 0 <= k < result ==> values[k] < best
    {
      if values[i] > best {
        result := i;
        best := values[i];
      }
    }
  }

  /** `plus(v)`: applied to an element, adds `v` to it and to nothing else. */
  class Plus {
    const val: int

    constructor(val: int)
      ensures this.val == val
    {
      this.val := val;
    }

    method Apply(a: array<int>, k: nat)
      requires k < a.Length
      modifies a
      ensures a[..] == old(a[..])[k := old(a[k]) + val]
    {
      a[k] := a[k] + val;
    }
  }

  /** `multiplies(v)`: applied to an element, multiplies it by `v` and leaves the rest. */
  class Multiplies {
    const val: int

    constructor(val: int)
      ensures this.val == val
    {
      this.val := val;
    }

    method Apply(a: array<int>, k: nat)
      requires k < a.Length
      modifies a
      ensures a[..] == old(a[..])[k := old(a[k]) * val]
    {
      a[k] := a[k] * val;
    }
  }

  /** `sqr`: never negative, and zero only at zero. */
  function Sqr(x: int): (r: int)
    ensures r >= 0
    ensures r == 0 <==> x == 0
    ensures x != 0 ==> r >= if x < 0 then -x else x
  {
    x * x
  }

  /** `sqr` ignores the sign and grows with the magnitude. */
  lemma SqrMonotone(x: int, y: int)
    requires 0 <= x <= y
    ensures Sqr(x) <= Sqr(y) && Sqr(-y) == Sqr(y)
  {
    assert x * x <= x * y <= y * y;
  }
}
