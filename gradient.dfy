/** Gradient.createGradient: a linear, channel-wise interpolation between two
    colours, returned as numSteps colours.

    The source computes each channel as
    (int) (from + (step / (double) (numSteps - 1)) * (to - from)),
    whose intermediate values depend on double rounding. The model therefore
    takes the per-step channel function as a parameter and constrains it only by
    what that expression guarantees for every step: it starts at `from`, ends at
    `to`, stays between them and moves monotonically. ExactChannel, the same
    expression in exact arithmetic, is shown to meet the constraint. */
module Gradient {
  import opened Wrappers
  import opened Colors
  import opened Numbers

  /** Interp(from, to, step, last) is a channel's value at `step` of a gradient
      whose steps are numbered 0..last. */
  type Interpolation = (int, int, int, int) -> int

  datatype GradientError = IllegalArgument  // "numSteps must be higher than 0"

  /** `x` lies between the two channel values `from` and `to`, in either order. */
  predicate Between(from: int, to: int, x: int) { Min(from, to) <= x <= Max(from, to) }

  /** Moving from `x` to `y` goes in the direction from `from` to `to` (or stays). */
  predicate Towards(from: int, to: int, x: int, y: int) {
    (from <= to ==> x <= y) && (to <= from ==> y <= x)
  }

  /** What every per-step channel function of the source guarantees on channel
      values (0..255) and a gradient of at least two steps. */
  ghost predicate IsInterpolation(interp: Interpolation) {
    (forall from, to, last ::
      0 <= from <= 255 && 0 <= to <= 255 && 1 <= last ==>
        interp(from, to, 0, last) == from && interp(from, to, last, last) == to) &&
    (forall from, to, step, last ::
      0 <= from <= 255 && 0 <= to <= 255 && 0 <= step <= last ==>
        Between(from, to, interp(from, to, step, last))) &&
    (forall from, to, step, step', last ::
      0 <= from <= 255 && 0 <= to <= 255 && 0 <= step <= step' <= last ==>
        Towards(from, to, interp(from, to, step, last), interp(from, to, step', last)))
  }

  /** Every channel of `c` lies between the same channel of `from` and of `to`. */
  predicate Within(from: Color, to: Color, c: Color) {
    Between(from.red, to.red, c.red) && Between(from.green, to.green, c.green) &&
    Between(from.blue, to.blue, c.blue) && Between(from.alpha, to.alpha, c.alpha)
  }

  /** Going from `c` to `c'`, every channel moves from its `from` value towards its `to` value. */
  predicate ChannelsTowards(from: Color, to: Color, c: Color, c': Color) {
    Towards(from.red, to.red, c.red, c'.red) && Towards(from.green, to.green, c.green, c'.green) &&
    Towards(from.blue, to.blue, c.blue, c'.blue) && Towards(from.alpha, to.alpha, c.alpha, c'.alpha)
  }

  /** The colour at `step` (colorInterpolator): the Color constructor is given
      the four interpolated channels, and never rejects them. */
  function StepColor(from: Color, to: Color, step: int, last: int, interp: Interpolation): (c: Color)
    requires IsInterpolation(interp)
    requires 0 <= step <= last
    ensures Within(from, to, c)
  {
    Color(interp(from.red, to.red, step, last), interp(from.green, to.green, step, last),
          interp(from.blue, to.blue, step, last), interp(from.alpha, to.alpha, step, last))
  }

  /** createGradient(colorFrom, colorTo, numSteps). */
  function CreateGradient(from: Color, to: Color, numSteps: int, interp: Interpolation)
    : (r: Result<seq<Color>, GradientError>)
    requires IsInterpolation(interp)
    ensures r.Failure? <==> numSteps < 1
    ensures numSteps == 1 ==> r == Success([from])
    ensures r.Success? ==> |r.value| == numSteps && r.value[0] == from
    ensures r.Success? && numSteps >= 2 ==> r.value[numSteps - 1] == to
    ensures r.Success? ==> forall k :: 0 <= k < |r.value| ==> Within(from, to, r.value[k])
    ensures r.Success? ==>
      forall i, j :: 0 <= i <= j < |r.value| ==> ChannelsTowards(from, to, r.value[i], r.value[j])
  {
    if numSteps < 1 then Failure(IllegalArgument)
    else if numSteps == 1 then Success([from])
    else
      var colors := seq(numSteps, step requires 0 <= step < numSteps =>
                          StepColor(from, to, step, numSteps - 1, interp));
      assert colors[0] == from;
      assert colors[numSteps - 1] == to;
      Success(colors)
  }

  /** The source's channel expression in exact arithmetic. For channel values
      the exact result is never negative, so Java's truncating cast is the floor
      that Dafny's division takes. */
  function ExactChannel(from: int, to: int, step: int, last: int): int {
    if last <= 0 then from else from + (step * (to - from)) / last
  }

  lemma MulMonotone(d: int, x: int, y: int)
    requires 0 <= d && x <= y
    ensures d * x <= d * y
  {
    assert d * y - d * x == d * (y - x);
  }

  lemma MulCancelLess(d: int, x: int, y: int)
    requires 0 < d && d * x < d * y
    ensures x < y
  {
    if y <= x {
      MulMonotone(d, y, x);
      assert false;
    }
  }

  lemma DivMonotone(a: int, b: int, d: int)
    requires 0 < d && a <= b
    ensures a / d <= b / d
  {
    var qa, qb := a / d, b / d;
    assert d * qa <= a;
    assert b < d * qb + d;
    assert d * qa < d * (qb + 1);
    MulCancelLess(d, qa, qb + 1);
  }

  lemma MulDivCancel(x: int, d: int)
    requires 0 < d
    ensures (d * x) / d == x
  {
    var q := (d * x) / d;
    assert d * q <= d * x < d * q + d;
    MulCancelLess(d, q, x + 1);
    MulCancelLess(d, x, q + 1);
  }

  lemma ExactEndpoints(from: int, to: int, last: int)
    requires 1 <= last
    ensures ExactChannel(from, to, 0, last) == from && ExactChannel(from, to, last, last) == to
  {
    MulDivCancel(to - from, last);
  }

  lemma ExactBetween(from: int, to: int, step: int, last: int)
    requires 0 <= step <= last
    ensures Between(from, to, ExactChannel(from, to, step, last))
  {
    if 1 <= last {
      var d := to - from;
      MulDivCancel(d, last);
      MulDivCancel(0, last);
      if d >= 0 {
        MulMonotone(d, 0, step);
        MulMonotone(d, step, last);
        assert 0 <= step * d <= last * d;
        DivMonotone(0, step * d, last);
        DivMonotone(step * d, last * d, last);
      } else {
        MulMonotone(-d, 0, step);
        MulMonotone(-d, step, last);
        assert last * d <= step * d <= 0;
        DivMonotone(last * d, step * d, last);
        DivMonotone(step * d, 0, last);
      }
    }
  }

  lemma ExactTowards(from: int, to: int, step: int, step': int, last: int)
    requires 0 <= step <= step' <= last
    ensures Towards(from, to, ExactChannel(from, to, step, last), ExactChannel(from, to, step', last))
  {
    if 1 <= last {
      var d := to - from;
      if d >= 0 {
        MulMonotone(d, step, step');
        DivMonotone(step * d, step' * d, last);
      } else {
        MulMonotone(-d, step, step');
        DivMonotone(step' * d, step * d, last);
      }
    }
  }

  /** ExactChannel is one of the channel functions the model admits. */
  lemma ExactChannelIsInterpolation()
    ensures IsInterpolation(ExactChannel)
  {
    forall from, to, last | 0 <= from <= 255 && 0 <= to <= 255 && 1 <= last
      ensures ExactChannel(from, to, 0, last) == from && ExactChannel(from, to, last, last) == to
    {
      ExactEndpoints(from, to, last);
    }
    forall from, to, step, last | 0 <= from <= 255 && 0 <= to <= 255 && 0 <= step <= last
      ensures Between(from, to, ExactChannel(from, to, step, last))
    {
      ExactBetween(from, to, step, last);
    }
    forall from, to, step, step', last |
      0 <= from <= 255 && 0 <= to <= 255 && 0 <= step <= step' <= last
      ensures Towards(from, to, ExactChannel(from, to, step, last), ExactChannel(from, to, step', last))
    {
      ExactTowards(from, to, step, step', last);
    }
  }

  /** With exact arithmetic, a black-to-white gradient of three steps passes
      through the middle grey. */
  lemma ExactGradientExample()
    ensures IsInterpolation(ExactChannel) &&
            CreateGradient(Color(0, 0, 0, 255), Color(255, 255, 255, 255), 3, ExactChannel)
            == Success([Color(0, 0, 0, 255), Color(127, 127, 127, 255), Color(255, 255, 255, 255)])
  {
    ExactChannelIsInterpolation();
    var r := CreateGradient(Color(0, 0, 0, 255), Color(255, 255, 255, 255), 3, ExactChannel);
    assert ExactChannel(0, 255, 1, 2) == 127 && ExactChannel(255, 255, 1, 2) == 255;
    assert r.value[1] == Color(127, 127, 127, 255);
    assert r.value == [r.value[0], r.value[1], r.value[2]];
  }
}
