/** One iteration of the goroutine `buildMetrics` starts per gauge
    (main.go), as a pure step from the gauge's previous value and the
    outcome of reading entropy to its next value. Sleeping between ticks and
    the goroutine itself are not modelled; `Run` strings ticks together. */
module Updater {
  import opened UInt64
  import opened Results
  import opened Declarations

  /** What one attempt to obtain a random number produced: the read of 8
      bytes from `crypto/rand` failed, or it succeeded and `binary.Uvarint`
      returned `res` together with its byte count `count`. */
  datatype Entropy = ReadFailed | Decoded(res: u64, count: int)

  /** The value a gauge holds. `Zero` is a fresh gauge's 0; `Drawn(v)` is
      `float64(v)` for a random draw `v`; `Fixed(f)` is a static value. */
  datatype GaugeValue<F> = Zero | Fixed(f: F) | Drawn(v: u64)

  /** The runtime fault a tick can raise: Go panics on `uint64 % 0`. */
  datatype TickFault = DivideByZero

  /** The tick takes its `continue` before writing anything. */
  predicate Skips(e: Entropy) {
    e.ReadFailed? || e.count < 0
  }

  /** `(res % (max - min)) + min` on `uint64`, both operators wrapping,
      with the modulus by zero reported instead of computed. */
  function Draw(res: u64, min: u64, max: u64): (r: Result<u64, TickFault>)
    ensures r.Err? <==> min == max
    ensures min < max ==> r.Ok? && min <= r.value < max
    ensures min < max ==> res % (max - min) + min < MODULUS
  {
    var span := Sub(max, min);
    if span == 0 then Err(DivideByZero) else Ok(Add(res % span, min))
  }

  /** With ordered bounds every value of `[min, max)` is drawn by some `res`. */
  lemma DrawCoversRange(min: u64, max: u64, v: u64)
    requires min <= v < max
    ensures Draw(v - min, min, max) == Ok(v)
  {
    var span := Sub(max, min);
    assert span == max - min;
    SmallModIsIdentity(v - min, span);
  }

  /** Reduction modulo a larger divisor leaves a value unchanged. */
  lemma SmallModIsIdentity(x: nat, d: nat)
    requires x < d
    ensures x % d == x
  {
  }

  /** With reversed bounds the subtraction wraps, the span exceeds `min`,
      and the sum wraps too: drawing `span - 1` yields `max - 1`. */
  lemma DrawWrapsOnReversedBounds(min: u64, max: u64)
    requires 0 < max < min
    ensures Draw(Sub(max, min) - 1, min, max) == Ok(max - 1)
  {
    var span := Sub(max, min);
    SmallModIsIdentity(span - 1, span);
    assert Add(span - 1, min) == max - 1;
  }

  /** With reversed bounds no draw faults, and every draw lands outside
      `[max, min)`: either the sum stays at or above `min`, or it wraps to
      a value below `max`. */
  lemma DrawOnReversedBoundsAvoidsGap(res: u64, min: u64, max: u64)
    requires max < min
    ensures Draw(res, min, max).Ok?
    ensures min <= Draw(res, min, max).value || Draw(res, min, max).value < max
  {
    var span := Sub(max, min);
    assert span == max - min + MODULUS;
    ModBelowDivisor(res, span);
  }

  /** A remainder lies below its divisor and never exceeds the dividend. */
  lemma ModBelowDivisor(x: nat, d: nat)
    requires 0 < d
    ensures x % d < d && x % d <= x
  {
  }

  /** 2^56: an 8-byte buffer holds at most 8 groups of 7 value bits, so
      `binary.Uvarint` on it decodes a value below this bound. */
  const DECODE_BOUND: int := 0x100_0000_0000_0000

  /** An entropy outcome that `binary.Uvarint` on the 8-byte buffer of
      main.go can produce: the value fits in 56 bits, the byte count is never
      negative, and a zero count (buffer too small) comes with the value 0. */
  predicate FromEightBytes(e: Entropy) {
    e.Decoded? ==> e.res < DECODE_BOUND && e.count >= 0 && (e.count == 0 ==> e.res == 0)
  }

  /** A draw from a 56-bit `res` lies below `min + 2^56` for any bounds
      that do not fault, reversed ones included. */
  lemma EightByteDrawBelowCap(res: u64, min: u64, max: u64)
    requires res < DECODE_BOUND && min != max
    ensures Draw(res, min, max).Ok?
    ensures Draw(res, min, max).value < min + DECODE_BOUND
  {
    ModBelowDivisor(res, Sub(max, min));
  }

  /** The values an 8-byte decode can draw from `[min, max)` are exactly
      those less than `2^56` above `min`: the whole range when it is no wider
      than `2^56`, and only its lowest `2^56` values when it is wider. */
  lemma EightByteDrawsCover(min: u64, max: u64, v: u64)
    requires min <= v < max
    ensures (exists res: u64 :: res < DECODE_BOUND && Draw(res, min, max) == Ok(v)) <==> v - min < DECODE_BOUND
  {
    if v - min < DECODE_BOUND {
      DrawCoversRange(min, max, v);
    }
    if exists res: u64 :: res < DECODE_BOUND && Draw(res, min, max) == Ok(v) {
      var res: u64 :| res < DECODE_BOUND && Draw(res, min, max) == Ok(v);
      EightByteDrawBelowCap(res, min, max);
    }
  }

  /** A random gauge's value lies in its declared half-open range. */
  predicate InRange<F>(m: Metric<F>, v: GaugeValue<F>) {
    v.Drawn? && m.randomMin <= v.v < m.randomMax
  }

  /** One tick of the updater of gauge `m`. A static gauge is set to its
      static value whatever happened before; a random gauge keeps its
      previous value when the entropy read failed or the decoded count is
      negative, and is otherwise set to a draw from its bounds. */
  function Tick<F>(m: Metric<F>, prev: GaugeValue<F>, e: Entropy): (r: Result<GaugeValue<F>, TickFault>)
    ensures !m.random ==> r == Ok(Fixed(m.staticValue))
    ensures m.random && Skips(e) ==> r == Ok(prev)
    ensures r.Err? <==> m.random && !Skips(e) && m.randomMin == m.randomMax
    ensures m.random && !Skips(e) && m.randomMin < m.randomMax ==> r.Ok? && InRange(m, r.value)
  {
    if m.random then
      match e
      case ReadFailed => Ok(prev)
      case Decoded(res, count) =>
        if count < 0 then
          Ok(prev)
        else
          match Draw(res, m.randomMin, m.randomMax)
          case Ok(v) => Ok(Drawn(v))
          case Err(fault) => Err(fault)
    else
      Ok(Fixed(m.staticValue))
  }

  /** Successive ticks, one per entropy outcome in `es`; a fault ends the run
      (in Go the panic ends the process). */
  function Run<F>(m: Metric<F>, v: GaugeValue<F>, es: seq<Entropy>): (r: Result<GaugeValue<F>, TickFault>)
    ensures r.Err? ==> m.random && m.randomMin == m.randomMax
    ensures r.Err? ==> exists k :: 0 <= k < |es| && !Skips(es[k])
    decreases |es|
  {
    if es == [] then
      Ok(v)
    else
      match Tick(m, v, es[0])
      case Ok(next) => Run(m, next, es[1..])
      case Err(fault) => Err(fault)
  }

  /** A tick fed by a real 8-byte decode never shows a random value `2^56`
      or more above `min`, whatever the bounds, as long as they do not fault. */
  lemma EightByteTickBelowCap<F>(m: Metric<F>, prev: GaugeValue<F>, e: Entropy)
    requires m.random && m.randomMin != m.randomMax
    requires FromEightBytes(e) && !Skips(e)
    ensures Tick(m, prev, e).Ok? && Tick(m, prev, e).value.Drawn?
    ensures Tick(m, prev, e).value.v < m.randomMin + DECODE_BOUND
  {
    EightByteDrawBelowCap(e.res, m.randomMin, m.randomMax);
  }

  /** A static gauge holds its static value after any positive number of ticks. */
  lemma {:induction false} StaticRunIsConstant<F>(m: Metric<F>, v: GaugeValue<F>, es: seq<Entropy>)
    requires !m.random && |es| > 0
    ensures Run(m, v, es) == Ok(Fixed(m.staticValue))
    decreases |es|
  {
    if |es| > 1 {
      StaticRunIsConstant(m, Fixed(m.staticValue), es[1..]);
    }
  }

  /** A random gauge whose entropy reads all fail or decode to a negative
      count is never written, whatever its bounds. */
  lemma {:induction false} SkippedRunPreserves<F>(m: Metric<F>, v: GaugeValue<F>, es: seq<Entropy>)
    requires m.random
    requires forall k :: 0 <= k < |es| ==> Skips(es[k])
    ensures Run(m, v, es) == Ok(v)
    decreases |es|
  {
    if es != [] {
      SkippedRunPreserves(m, v, es[1..]);
    }
  }

  /** With `min < max` a random gauge never faults, and once any tick has
      written it, it holds a value of `[min, max)`. */
  lemma {:induction false} RandomRunStaysInRange<F>(m: Metric<F>, v: GaugeValue<F>, es: seq<Entropy>)
    requires m.random && m.randomMin < m.randomMax
    ensures Run(m, v, es).Ok?
    ensures (exists k :: 0 <= k < |es| && !Skips(es[k])) ==> InRange(m, Run(m, v, es).value)
    ensures (forall k :: 0 <= k < |es| ==> Skips(es[k])) ==> Run(m, v, es).value == v
    decreases |es|
  {
    if es != [] {
      var next := Tick(m, v, es[0]).value;
      RandomRunStaysInRange(m, next, es[1..]);
      if !Skips(es[0]) {
        RandomRunFromInRange(m, next, es[1..]);
      } else if exists k :: 0 <= k < |es| && !Skips(es[k]) {
        var k :| 0 <= k < |es| && !Skips(es[k]);
        assert es[1..][k - 1] == es[k];
      } else {
        SkippedRunPreserves(m, v, es);
      }
    }
  }

  /** Once a random gauge with `min < max` holds a value of its range, every
      later run keeps it in that range. */
  lemma {:induction false} RandomRunFromInRange<F>(m: Metric<F>, v: GaugeValue<F>, es: seq<Entropy>)
    requires m.random && m.randomMin < m.randomMax && InRange(m, v)
    ensures Run(m, v, es).Ok? && InRange(m, Run(m, v, es).value)
    decreases |es|
  {
    if es != [] {
      RandomRunFromInRange(m, Tick(m, v, es[0]).value, es[1..]);
    }
  }

  /** A random gauge with `min == max` ends the run with a fault at its
      first tick that gets past the entropy checks. */
  lemma {:induction false} EqualBoundsFault<F>(m: Metric<F>, v: GaugeValue<F>, es: seq<Entropy>, k: int)
    requires m.random && m.randomMin == m.randomMax
    requires 0 <= k < |es| && !Skips(es[k])
    ensures Run(m, v, es) == Err(DivideByZero)
    decreases |es|
  {
    if Skips(es[0]) {
      assert es[1..][k - 1] == es[k];
      EqualBoundsFault(m, v, es[1..], k - 1);
    }
  }
}
