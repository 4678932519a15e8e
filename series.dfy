/**
 * The two positional pandas operations the feature stage builds on, for a
 * series without missing values: `pct_change(periods=p)` and `shift(-p)`.
 * Both work by position, not by date.
 */
module Series {
  import opened Wrappers

  /** No zero divisor: pandas would produce an infinity, which is not modelled. */
  predicate NonZero(xs: seq<real>)
  {
    forall i :: 0 <= i < |xs| ==> xs[i] != 0.0
  }

  /** The simple return from `base` to `later`. */
  function Growth(base: real, later: real): real
    requires base != 0.0
  {
    later / base - 1.0
  }

  /** `pct_change(periods=p)`: the return over the previous `p` positions, missing for the first `p`. */
  function PctChange(xs: seq<real>, p: nat): (r: seq<Option<real>>)
    requires NonZero(xs)
    ensures |r| == |xs|
    ensures forall t :: 0 <= t < |r| ==> (r[t].Some? <==> t >= p)
    ensures forall t :: p <= t < |r| ==> r[t].value + 1.0 == xs[t] / xs[t - p]
  {
    seq(|xs|, t requires 0 <= t < |xs| => if t >= p then Some(Growth(xs[t - p], xs[t])) else None)
  }

  /** `shift(-p)`: each position takes the value `p` positions later; the last `p` become missing. */
  function ShiftBack<T>(s: seq<Option<T>>, p: nat): (r: seq<Option<T>>)
    ensures |r| == |s|
    ensures forall t :: 0 <= t < |s| - p ==> r[t] == s[t + p]
    ensures forall t :: |s| - p <= t < |s| && 0 <= t ==> r[t].None?
  {
    seq(|s|, t requires 0 <= t < |s| => if t + p < |s| then s[t + p] else None)
  }

  /** Shifting back by p and then by q is shifting back by p + q. */
  lemma ShiftBackCompose<T>(s: seq<Option<T>>, p: nat, q: nat)
    ensures ShiftBack(ShiftBack(s, p), q) == ShiftBack(s, p + q)
  {
    var l, r := ShiftBack(ShiftBack(s, p), q), ShiftBack(s, p + q);
    forall t | 0 <= t < |s|
      ensures l[t] == r[t]
    {
      if t + q < |s| && t + q + p < |s| {
        assert l[t] == ShiftBack(s, p)[t + q];
      }
    }
  }

  /**
   * `pct_change(periods=h).shift(-h)`: the return from position t to position
   * t + h, stored at t; missing at the last `h` positions and never zero there.
   */
  function ForwardReturn(xs: seq<real>, h: nat): (r: seq<Option<real>>)
    requires NonZero(xs)
    ensures |r| == |xs|
    ensures forall t :: 0 <= t < |xs| ==>
      r[t] == if t + h < |xs| then Some(Growth(xs[t], xs[t + h])) else None
  {
    ShiftBack(PctChange(xs, h), h)
  }

  /** The number of defined entries. */
  function CountDefined<T>(s: seq<Option<T>>): nat
  {
    if s == [] then 0
    else CountDefined(s[..|s| - 1]) + (if s[|s| - 1].Some? then 1 else 0)
  }

  /** A series defined exactly from position m on has |s| - m defined entries. */
  lemma {:induction false} CountDefinedFrom<T>(s: seq<Option<T>>, m: nat)
    requires m <= |s|
    requires forall t :: 0 <= t < |s| ==> (s[t].Some? <==> t >= m)
    ensures CountDefined(s) == |s| - m
  {
    if |s| > m {
      CountDefinedFrom(s[..|s| - 1], m);
    } else {
      CountDefinedNone(s);
    }
  }

  /** A series defined exactly before position m has m defined entries. */
  lemma {:induction false} CountDefinedBefore<T>(s: seq<Option<T>>, m: nat)
    requires m <= |s|
    requires forall t :: 0 <= t < |s| ==> (s[t].Some? <==> t < m)
    ensures CountDefined(s) == m
  {
    if |s| > m {
      CountDefinedBefore(s[..|s| - 1], m);
    } else if s != [] {
      CountDefinedAll(s[..|s| - 1]);
    }
  }

  lemma {:induction false} CountDefinedNone<T>(s: seq<Option<T>>)
    requires forall t :: 0 <= t < |s| ==> s[t].None?
    ensures CountDefined(s) == 0
  {
    if s != [] {
      CountDefinedNone(s[..|s| - 1]);
    }
  }

  lemma {:induction false} CountDefinedAll<T>(s: seq<Option<T>>)
    requires forall t :: 0 <= t < |s| ==> s[t].Some?
    ensures CountDefined(s) == |s|
  {
    if s != [] {
      CountDefinedAll(s[..|s| - 1]);
    }
  }

  /** Forward-return censoring: exactly |xs| - h positions (none when |xs| <= h) carry a value. */
  lemma ForwardReturnDefinedCount(xs: seq<real>, h: nat)
    requires NonZero(xs)
    ensures CountDefined(ForwardReturn(xs, h)) == if |xs| > h then |xs| - h else 0
  {
    var m := if |xs| > h then |xs| - h else 0;
    CountDefinedBefore(ForwardReturn(xs, h), m);
  }
}
