/**
 * The colour adjustment applied to the cloth colour (`adjust_color` in
 * utils/show.py): the three colour channels of an RGBA colour are divided by
 * their largest value, scaled by 0.3 and raised by 0.3; alpha is kept.
 * The colour is a four-element array updated in place.
 */
module Color {

  const Red: nat := 0
  const Green: nat := 1
  const Blue: nat := 2
  const Alpha: nat := 3
  /** Factor applied to the normalised channels. */
  const Scale: real := 0.3
  /** Amount added to the scaled channels. */
  const Lift: real := 0.3

  /** The largest of the three colour channels (numpy's `max` over the last axis of `color[..., :3]`). */
  function Peak(c: seq<real>): (p: real)
    requires |c| >= 3
    ensures p == c[Red] || p == c[Green] || p == c[Blue]
    ensures c[Red] <= p && c[Green] <= p && c[Blue] <= p
  {
    var rg := if c[Red] >= c[Green] then c[Red] else c[Green];
    if rg >= c[Blue] then rg else c[Blue]
  }

  /** One colour channel after the three in-place steps: divide by the peak, scale, lift. */
  function MutedChannel(x: real, peak: real): (y: real)
    requires peak != 0.0
    ensures (y - Lift) / Scale * peak == x
  {
    x / peak * Scale + Lift
  }

  /** The adjusted colour: the three colour channels muted, alpha as it was. */
  function Muted(c: seq<real>): (r: seq<real>)
    requires |c| == 4 && Peak(c) != 0.0
    ensures |r| == 4 && r[Alpha] == c[Alpha]
  {
    var p := Peak(c);
    [MutedChannel(c[Red], p), MutedChannel(c[Green], p), MutedChannel(c[Blue], p), c[Alpha]]
  }

  /** The colour channels of `c` are non-negative and not all zero. */
  predicate Displayable(c: seq<real>)
    requires |c| >= 3
  {
    0.0 <= c[Red] && 0.0 <= c[Green] && 0.0 <= c[Blue] && Peak(c) > 0.0
  }

  /** A channel between 0 and the peak lands in [0.3, 0.6], and at 0.6 exactly when it is the peak. */
  lemma ChannelRange(x: real, peak: real)
    requires 0.0 <= x <= peak && peak > 0.0
    ensures Lift <= MutedChannel(x, peak) <= Scale + Lift
    ensures MutedChannel(x, peak) == Scale + Lift <==> x == peak
  {
    var q := x / peak;
    assert q * peak == x;
    assert 0.0 <= q <= 1.0;
    if x == peak {
      assert q == 1.0;
    }
    assert MutedChannel(x, peak) == q * Scale + Lift;
  }

  /**
   * For non-negative channels with a positive peak, every adjusted colour channel
   * lies in [0.3, 0.6], and a channel becomes 0.6 exactly when it held the peak.
   */
  lemma MutedRange(c: seq<real>)
    requires |c| == 4 && Displayable(c)
    ensures forall k :: 0 <= k < 3 ==> Lift <= Muted(c)[k] <= Scale + Lift
    ensures forall k :: 0 <= k < 3 ==> (Muted(c)[k] == Scale + Lift <==> c[k] == Peak(c))
  {
    var p := Peak(c);
    ChannelRange(c[Red], p);
    ChannelRange(c[Green], p);
    ChannelRange(c[Blue], p);
  }

  /** Scaling a channel and its peak by the same positive factor leaves their ratio alone. */
  lemma RatioScaled(x: real, peak: real, k: real, y: real, scaledPeak: real)
    requires peak != 0.0 && k > 0.0 && y == k * x && scaledPeak == k * peak
    ensures scaledPeak != 0.0 && MutedChannel(y, scaledPeak) == MutedChannel(x, peak)
  {
    var q := x / peak;
    assert x == q * peak;
    assert k * x == q * (k * peak);
  }

  /** Multiplying by a positive factor keeps the order. */
  lemma ScaleMonotone(k: real, x: real, y: real)
    requires k > 0.0 && x <= y
    ensures k * x <= k * y
    ensures x < y ==> k * x < k * y
  {
    assert k * y - k * x == k * (y - x);
  }

  /** Brightening the colour channels by a positive factor brightens their peak by that factor. */
  lemma PeakScaled(c: seq<real>, k: real)
    requires |c| == 4 && k > 0.0
    ensures Peak([k * c[Red], k * c[Green], k * c[Blue], c[Alpha]]) == k * Peak(c)
  {
    var p := Peak(c);
    ScaleMonotone(k, c[Red], p);
    ScaleMonotone(k, c[Green], p);
    ScaleMonotone(k, c[Blue], p);
  }

  /** The adjustment only sees the ratios between the channels: brightening a colour does not change it. */
  lemma ScaleInvariant(c: seq<real>, k: real)
    requires |c| == 4 && Peak(c) != 0.0 && k > 0.0
    ensures Peak([k * c[Red], k * c[Green], k * c[Blue], c[Alpha]]) != 0.0
    ensures Muted([k * c[Red], k * c[Green], k * c[Blue], c[Alpha]]) == Muted(c)
  {
    var d := [k * c[Red], k * c[Green], k * c[Blue], c[Alpha]];
    var p := Peak(c);
    var kp := k * p;
    assert kp != 0.0 by {
      if p > 0.0 { ScaleMonotone(k, 0.0, p); } else { ScaleMonotone(k, p, 0.0); }
      assert k * 0.0 == 0.0;
    }
    PeakScaled(c, k);
    RatioScaled(c[Red], p, k, d[Red], kp);
    RatioScaled(c[Green], p, k, d[Green], kp);
    RatioScaled(c[Blue], p, k, d[Blue], kp);
    assert Peak(d) == kp;
    assert Muted(d) == [MutedChannel(d[Red], kp), MutedChannel(d[Green], kp), MutedChannel(d[Blue], kp), d[Alpha]];
  }

  /**
   * Adjusting an already adjusted colour changes it unless its three colour
   * channels are equal: the adjustment is not idempotent.
   */
  lemma MutedTwice(c: seq<real>)
    requires |c| == 4 && Displayable(c)
    ensures Peak(Muted(c)) == Scale + Lift
    ensures Muted(Muted(c)) == Muted(c) <==> c[Red] == c[Green] == c[Blue]
  {
    var p := Peak(c);
    MutedRange(c);
    var m := Muted(c);
    assert Peak(m) == Scale + Lift;
    forall x | 0.0 <= x <= p
      ensures MutedChannel(MutedChannel(x, p), Scale + Lift) == MutedChannel(x, p) <==> x == p
    {
      var q := x / p;
      assert MutedChannel(MutedChannel(x, p), Scale + Lift) == (q * Scale + Lift) / (Scale + Lift) * Scale + Lift;
      assert (q * 0.3 + 0.3) / 0.6 == q / 2.0 + 0.5;
      assert q * p == x;
    }
    if Muted(m) == m {
      assert Muted(m)[Red] == m[Red] && Muted(m)[Green] == m[Green] && Muted(m)[Blue] == m[Blue];
    }
  }

  /** The worked example: (2, 4, 4, 1) becomes (0.45, 0.6, 0.6, 1). */
  lemma MutedExample()
    ensures Peak([2.0, 4.0, 4.0, 1.0]) == 4.0
    ensures Muted([2.0, 4.0, 4.0, 1.0]) == [0.45, 0.6, 0.6, 1.0]
  {
  }

  /** The default cloth colour (0, 0.3, 0.3) becomes (0.3, 0.6, 0.6), whatever its opacity. */
  lemma DefaultClothColor(opacity: real)
    ensures Peak([0.0, 0.3, 0.3, opacity]) == 0.3
    ensures Muted([0.0, 0.3, 0.3, opacity]) == [0.3, 0.6, 0.6, opacity]
  {
  }

  /**
   * `adjust_color`: the colour channels are divided by their peak, scaled and
   * lifted in place, in three vectorised steps; alpha is left alone. The peak is
   * taken before the division; a zero peak would divide by zero. The array is
   * returned, as the source returns it for the caller to rebind.
   */
  method AdjustColor(color: array<real>) returns (adjusted: array<real>)
    requires color.Length == 4 && Peak(color[..]) != 0.0
    modifies color
    ensures adjusted == color
    ensures color[..] == Muted(old(color[..]))
  {
    var peak := Peak(color[..]);
    color[Red], color[Green], color[Blue] := color[Red] / peak, color[Green] / peak, color[Blue] / peak;
    color[Red], color[Green], color[Blue] := color[Red] * Scale, color[Green] * Scale, color[Blue] * Scale;
    color[Red], color[Green], color[Blue] := color[Red] + Lift, color[Green] + Lift, color[Blue] + Lift;
    adjusted := color;
  }

  /** Adjusting the colour (2, 4, 4, 1) in place leaves (0.45, 0.6, 0.6, 1). */
  method AdjustColorExample() {
    var color := new real[4];
    color[0], color[1], color[2], color[3] := 2.0, 4.0, 4.0, 1.0;
    MutedExample();
    assert color[..] == [2.0, 4.0, 4.0, 1.0];
    var adjusted := AdjustColor(color);
    assert adjusted[..] == [0.45, 0.6, 0.6, 1.0];
  }
}
