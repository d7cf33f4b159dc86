/** Values shared by every module of the model: an optional value (Python's
    `None` or a value), the minimum and maximum of a non-empty sequence, and
    Python's integer division and remainder, and list filtering. */
module Base {

  datatype Option<T> = None | Some(value: T)

  /** Python's `min(xs)` over a non-empty list of integers. */
  function Min(xs: seq<int>): (m: int)
    requires |xs| > 0
    ensures m in xs
    ensures forall i :: 0 <= i < |xs| ==> m <= xs[i]
  {
    if |xs| == 1 then xs[0]
    else
      var rest := Min(xs[1..]);
      assert forall i :: 1 <= i < |xs| ==> xs[i] == xs[1..][i - 1];
      if xs[0] <= rest then xs[0] else rest
  }

  /** Python's `max(xs)` over a non-empty list of integers. */
  function Max(xs: seq<int>): (m: int)
    requires |xs| > 0
    ensures m in xs
    ensures forall i :: 0 <= i < |xs| ==> xs[i] <= m
  {
    if |xs| == 1 then xs[0]
    else
      var rest := Max(xs[1..]);
      assert forall i :: 1 <= i < |xs| ==> xs[i] == xs[1..][i - 1];
      if xs[0] >= rest then xs[0] else rest
  }

  /** Python 2 integer `/` rounds toward negative infinity. */
  function FloorDiv(a: int, d: int): int
    requires d != 0
  {
    if d > 0 then a / d else (-a) / (-d)
  }

  /** Python `%`: the remainder takes the sign of the divisor. */
  function FloorMod(a: int, d: int): int
    requires d != 0
  {
    if d > 0 then a % d else -((-a) % (-d))
  }

  /** `[x for x in xs if p(x)]`: the elements that satisfy `p`, in order. */
  function Filter<T>(xs: seq<T>, p: T -> bool): (r: seq<T>)
    ensures |r| <= |xs|
  {
    if |xs| == 0 then []
    else Filter(xs[..|xs| - 1], p) + (if p(xs[|xs| - 1]) then [xs[|xs| - 1]] else [])
  }

  lemma AppendAssoc<T>(a: seq<T>, b: seq<T>, c: seq<T>)
    ensures (a + b) + c == a + (b + c)
  {
  }

  lemma PrefixOfAppend<T>(a: seq<T>, b: seq<T>)
    ensures a <= a + b
  {
    assert (a + b)[..|a|] == a;
  }

  /** Filtering keeps the order: filtering two lists one after the other
      is filtering each. */
  lemma {:induction false} FilterAppend<T>(a: seq<T>, b: seq<T>, p: T -> bool)
    ensures Filter(a + b, p) == Filter(a, p) + Filter(b, p)
    decreases |b|
  {
    if |b| == 0 {
      assert a + b == a;
    } else {
      var b' := b[..|b| - 1];
      FilterAppend(a, b', p);
      assert (a + b)[..|a + b| - 1] == a + b';
    }
  }

  /** Every element kept satisfies `p` and comes from the list. */
  lemma {:induction false} FilterSound<T>(xs: seq<T>, p: T -> bool)
    ensures forall i :: 0 <= i < |Filter(xs, p)| ==> p(Filter(xs, p)[i]) && Filter(xs, p)[i] in xs
  {
    if |xs| > 0 {
      var init := xs[..|xs| - 1];
      FilterSound(init, p);
      assert forall x :: x in init ==> x in xs;
    }
  }

  /** No element that satisfies `p` is dropped. */
  lemma {:induction false} FilterComplete<T>(xs: seq<T>, p: T -> bool, k: nat)
    requires k < |xs| && p(xs[k])
    ensures xs[k] in Filter(xs, p)
  {
    var init := xs[..|xs| - 1];
    if k < |xs| - 1 {
      assert init[k] == xs[k];
      FilterComplete(init, p, k);
    }
  }

  /** A list whose every element satisfies `p` is kept whole. */
  lemma {:induction false} FilterAll<T>(xs: seq<T>, p: T -> bool)
    requires forall i :: 0 <= i < |xs| ==> p(xs[i])
    ensures Filter(xs, p) == xs
  {
    if |xs| > 0 {
      var init := xs[..|xs| - 1];
      FilterAll(init, p);
      assert init + [xs[|xs| - 1]] == xs;
    }
  }
}
