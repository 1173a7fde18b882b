/**
 * The `Parameter` descriptor of `src/lib/engine/parameter.ts`: the configuration
 * of a numeric control (speed, volume). It never holds the value itself; it only
 * rounds, increments and decrements values handed to it.
 *
 * Numbers are exact reals. JavaScript's `Math.round` rounds halves towards
 * positive infinity, which is `Floor(x + 0.5)`.
 */
module Parameter {
  import opened Wrappers

  /** A bound of the range: `Unbounded` is -Infinity as a minimum and +Infinity as a maximum. */
  datatype Bound = Unbounded | At(value: real)

  /** The options object; `None` is an option left unset (`undefined` or `null`). */
  datatype Options = Options(
    defaultValue: Option<real>,
    min: Option<real>,
    max: Option<real>,
    step: Option<real>,
    sliderStep: Option<real>)

  datatype Parameter = Parameter(
    defaultValue: real,
    min: Bound,
    max: Bound,
    step: real,
    sliderStep: real)

  /** The HTML attributes of the slider input. */
  datatype SliderAttributes = SliderAttributes(min: Bound, max: Bound, step: real)

  /** `x ?? d` for a number option. */
  function OrElse(o: Option<real>, d: real): real {
    match o
    case None => d
    case Some(v) => v
  }

  function BoundOf(o: Option<real>): Bound {
    match o
    case None => Unbounded
    case Some(v) => At(v)
  }

  /** The constructor: every unset option takes its default. */
  function NewParameter(o: Options): (p: Parameter)
    ensures o.defaultValue.None? ==> p.defaultValue == 0.0
    ensures o.step.None? ==> p.step == 1.0
    ensures o.min.None? ==> p.min == Unbounded
    ensures o.max.None? ==> p.max == Unbounded
    ensures o.sliderStep.None? ==> p.sliderStep == 0.01
    ensures o.defaultValue.Some? ==> p.defaultValue == o.defaultValue.value
    ensures o.step.Some? ==> p.step == o.step.value
    ensures o.min.Some? ==> p.min == At(o.min.value)
    ensures o.max.Some? ==> p.max == At(o.max.value)
    ensures o.sliderStep.Some? ==> p.sliderStep == o.sliderStep.value
  {
    Parameter(
      OrElse(o.defaultValue, 0.0),
      BoundOf(o.min),
      BoundOf(o.max),
      OrElse(o.step, 1.0),
      OrElse(o.sliderStep, 0.01))
  }

  /** JavaScript `Math.round`: the nearest integer, halves going up. */
  function JsRound(x: real): (n: int)
    ensures x - 0.5 < n as real <= x + 0.5
  {
    (x + 0.5).Floor
  }

  /** `k` steps of size `step`. */
  function Steps(k: int, step: real): real {
    k as real * step
  }

  /** `x` is a whole number of steps. */
  ghost predicate IsMultipleOf(x: real, step: real) {
    exists k: int :: x == Steps(k, step)
  }

  function ToNearestStep(p: Parameter, v: real): (r: real)
    requires p.step != 0.0
    ensures IsMultipleOf(r, p.step)
  {
    var k := JsRound(v / p.step);
    assert k as real * p.step == Steps(k, p.step);
    k as real * p.step
  }

  /** `Math.min(x, max)` with an unset maximum being +Infinity. */
  function AtMost(x: real, max: Bound): real {
    match max
    case Unbounded => x
    case At(m) => if x <= m then x else m
  }

  /** `Math.max(x, min)` with an unset minimum being -Infinity. */
  function AtLeast(x: real, min: Bound): real {
    match min
    case Unbounded => x
    case At(m) => if x >= m then x else m
  }

  /** `increment`: one step up, clamped to the maximum, then rounded to the grid; at most half a step past a set maximum. */
  function Increment(p: Parameter, v: real): (r: real)
    requires p.step != 0.0
    ensures IsMultipleOf(r, p.step)
    ensures p.step > 0.0 && p.max.At? ==> r <= p.max.value + p.step / 2.0
  {
    var x := AtMost(v + p.step, p.max);
    if p.step > 0.0 then
      ToNearestStepIsNearest(p, x);
      ToNearestStep(p, x)
    else ToNearestStep(p, x)
  }

  /** `decrement`: one step down, clamped to the minimum, then rounded to the grid; at most half a step below a set minimum. */
  function Decrement(p: Parameter, v: real): (r: real)
    requires p.step != 0.0
    ensures IsMultipleOf(r, p.step)
    ensures p.step > 0.0 && p.min.At? ==> r > p.min.value - p.step / 2.0
  {
    var x := AtLeast(v - p.step, p.min);
    if p.step > 0.0 then
      ToNearestStepIsNearest(p, x);
      ToNearestStep(p, x)
    else ToNearestStep(p, x)
  }

  function GetSliderAttributes(p: Parameter): (a: SliderAttributes)
    ensures a.min == p.min && a.max == p.max && a.step == p.sliderStep
  {
    SliderAttributes(p.min, p.max, p.sliderStep)
  }

  /** With a positive step, rounding moves a value by at most half a step. */
  lemma ToNearestStepIsNearest(p: Parameter, v: real)
    requires p.step > 0.0
    ensures v - p.step / 2.0 < ToNearestStep(p, v) <= v + p.step / 2.0
  {
    var s := p.step;
    var q := v / s;
    var k := JsRound(q);
    assert q * s == v;
    MultiplyStrict(q - 0.5, k as real, s);
    MultiplyWeak(k as real, q + 0.5, s);
  }

  /** Rounding a value that is already on the grid leaves it there. */
  lemma ToNearestStepOfMultiple(p: Parameter, k: int)
    requires p.step != 0.0
    ensures ToNearestStep(p, k as real * p.step) == k as real * p.step
  {
    assert (k as real * p.step) / p.step == k as real;
  }

  /** `toNearestStep` is idempotent. */
  lemma ToNearestStepIdempotent(p: Parameter, v: real)
    requires p.step != 0.0
    ensures ToNearestStep(p, ToNearestStep(p, v)) == ToNearestStep(p, v)
  {
    var k := JsRound(v / p.step);
    assert ToNearestStep(p, v) == k as real * p.step;
    ToNearestStepOfMultiple(p, k);
  }

  /** With a positive step, rounding is monotonic. */
  lemma ToNearestStepMonotonic(p: Parameter, x: real, y: real)
    requires p.step > 0.0 && x <= y
    ensures ToNearestStep(p, x) <= ToNearestStep(p, y)
  {
    var s := p.step;
    DivideWeak(x, y, s);
    var kx, ky := JsRound(x / s), JsRound(y / s);
    assert kx <= ky;
    MultiplyWeak(kx as real, ky as real, s);
  }

  /** If the maximum is on the grid, `increment` never passes it. */
  lemma IncrementNeverExceedsMax(p: Parameter, v: real, k: int)
    requires p.step > 0.0 && p.max == At(k as real * p.step)
    ensures Increment(p, v) <= p.max.value
  {
    ToNearestStepMonotonic(p, AtMost(v + p.step, p.max), p.max.value);
    ToNearestStepOfMultiple(p, k);
  }

  /** If the minimum is on the grid, `decrement` never passes it. */
  lemma DecrementNeverBelowMin(p: Parameter, v: real, k: int)
    requires p.step > 0.0 && p.min == At(k as real * p.step)
    ensures Decrement(p, v) >= p.min.value
  {
    ToNearestStepMonotonic(p, p.min.value, AtLeast(v - p.step, p.min));
    ToNearestStepOfMultiple(p, k);
  }

  /** From a value on the grid with room above it, `increment` adds exactly one step. */
  lemma IncrementIsOneStep(p: Parameter, k: int)
    requires p.step != 0.0
    requires p.max.At? ==> k as real * p.step + p.step <= p.max.value
    ensures Increment(p, k as real * p.step) == k as real * p.step + p.step
  {
    var j := k + 1;
    var next := j as real * p.step;
    assert k as real * p.step + p.step == next;
    assert AtMost(k as real * p.step + p.step, p.max) == next;
    ToNearestStepOfMultiple(p, j);
    assert Increment(p, k as real * p.step) == ToNearestStep(p, next);
  }

  /** From a value on the grid with room below it, `decrement` subtracts exactly one step. */
  lemma DecrementIsOneStep(p: Parameter, k: int)
    requires p.step != 0.0
    requires p.min.At? ==> k as real * p.step - p.step >= p.min.value
    ensures Decrement(p, k as real * p.step) == k as real * p.step - p.step
  {
    var j := k - 1;
    var prev := j as real * p.step;
    assert k as real * p.step - p.step == prev;
    assert AtLeast(k as real * p.step - p.step, p.min) == prev;
    ToNearestStepOfMultiple(p, j);
    assert Decrement(p, k as real * p.step) == ToNearestStep(p, prev);
  }

  /** A speed control on [0, 2] with step 0.1: incrementing 1.95 lands exactly on the maximum. */
  lemma IncrementClampsAtMax()
    ensures Increment(NewParameter(Options(None, Some(0.0), Some(2.0), Some(0.1), None)), 1.95) == 2.0
  {
    var p := NewParameter(Options(None, Some(0.0), Some(2.0), Some(0.1), None));
    assert AtMost(1.95 + 0.1, p.max) == 2.0;
    assert 2.0 / 0.1 == 20.0;
    assert JsRound(20.0) == 20;
  }

  // Arithmetic helpers for the lemmas above.

  lemma MultiplyWeak(a: real, b: real, s: real)
    requires a <= b && s > 0.0
    ensures a * s <= b * s
  {
  }

  lemma MultiplyStrict(a: real, b: real, s: real)
    requires a < b && s > 0.0
    ensures a * s < b * s
  {
  }

  lemma DivideWeak(a: real, b: real, s: real)
    requires a <= b && s > 0.0
    ensures a / s <= b / s
  {
    assert a / s * s == a && b / s * s == b;
  }
}
