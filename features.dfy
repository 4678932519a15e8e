/** The feature helpers of src/features.py. */
module Features {
  import opened Wrappers
  import opened Series

  /** The momentum window, fixed at 252 trading days in `momentum_12m`. */
  const MomentumWindow: nat := 252

  /**
   * `momentum_12m`: the trailing return of the adjusted close over the
   * previous 252 positions; missing for the first 252.
   */
  function Momentum12m(adjClose: seq<real>): (m: seq<Option<real>>)
    requires NonZero(adjClose)
    ensures |m| == |adjClose|
    ensures forall t :: 0 <= t < |m| ==> (m[t].Some? <==> t >= MomentumWindow)
    ensures forall t :: MomentumWindow <= t < |m| ==>
      m[t].value == Growth(adjClose[t - MomentumWindow], adjClose[t])
  {
    PctChange(adjClose, MomentumWindow)
  }

  /** No lookahead: momentum at t is unchanged by any change to the series after t. */
  lemma MomentumNoLookahead(xs: seq<real>, ys: seq<real>, t: nat)
    requires NonZero(xs) && NonZero(ys)
    requires t < |xs| && t < |ys|
    requires xs[..t + 1] == ys[..t + 1]
    ensures Momentum12m(xs)[t] == Momentum12m(ys)[t]
  {
    assert xs[t] == xs[..t + 1][t] && ys[t] == ys[..t + 1][t];
    if t >= MomentumWindow {
      var u := t - MomentumWindow;
      assert xs[u] == xs[..t + 1][u] && ys[u] == ys[..t + 1][u];
    }
  }

  /** The momentum series up to t is the one computed from the history up to t alone. */
  lemma MomentumCausal(xs: seq<real>, t: nat)
    requires NonZero(xs)
    requires t < |xs|
    ensures NonZero(xs[..t + 1])
    ensures Momentum12m(xs)[..t + 1] == Momentum12m(xs[..t + 1])
  {
    forall u | 0 <= u <= t
      ensures Momentum12m(xs)[u] == Momentum12m(xs[..t + 1])[u]
    {
      MomentumNoLookahead(xs, xs[..t + 1], u);
    }
  }

  /** The first 252 positions carry no momentum; all the others do. */
  lemma MomentumDefinedCount(xs: seq<real>)
    requires NonZero(xs)
    ensures CountDefined(Momentum12m(xs)) == if |xs| > MomentumWindow then |xs| - MomentumWindow else 0
  {
    if |xs| >= MomentumWindow {
      CountDefinedFrom(Momentum12m(xs), MomentumWindow);
    } else {
      CountDefinedNone(Momentum12m(xs));
    }
  }

  /**
   * `compute_excess_return`: the stock's return minus the benchmark's,
   * missing when either is missing (NaN propagates through subtraction).
   */
  function ComputeExcessReturn(stockRet: Option<real>, spyRet: Option<real>): (r: Option<real>)
    ensures r.Some? <==> stockRet.Some? && spyRet.Some?
    ensures r.Some? ==> r.value + spyRet.value == stockRet.value
  {
    if stockRet.Some? && spyRet.Some? then Some(stockRet.value - spyRet.value) else None
  }

  /** A return in excess of itself is zero. */
  lemma ExcessOfSelf(ret: Option<real>)
    requires ret.Some?
    ensures ComputeExcessReturn(ret, ret) == Some(0.0)
  {
  }
}
