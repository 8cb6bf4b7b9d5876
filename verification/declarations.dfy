/** The parsed configuration of sterno and the defaulting applied to it
    before any metric is built (main.go, `Config`, `Metric` and `main`). */
module Declarations {
  import opened UInt64

  /** The namespace used when the configuration leaves it empty. */
  const DEFAULT_NAMESPACE: string := "sterno"

  /** The subsystem used when a metric declaration leaves it empty. */
  const DEFAULT_SUBSYSTEM: string := "sterno"

  /** One second as a Go `time.Duration`, which counts nanoseconds. */
  const SECOND: int := 1_000_000_000

  /** A Go `time.Duration`: a signed 64-bit count of nanoseconds. */
  type Duration = x: int | -0x8000_0000_0000_0000 <= x < 0x8000_0000_0000_0000

  /** One metric declaration. `kind` is the YAML `type` field; `F` stands
      for Go's `float64`, which this model keeps opaque. */
  datatype Metric<F> = Metric(
    name: string,
    subsystem: string,
    kind: string,
    random: bool,
    staticValue: F,
    randomMin: u64,
    randomMax: u64
  )

  /** The whole configuration file. */
  datatype Config<F> = Config(
    port: u64,
    namespace: string,
    metrics: seq<Metric<F>>,
    interval: Duration
  )

  /** The subsystem default applied to each declaration while building:
      only an empty subsystem is replaced, and nothing else changes. */
  function WithDefaultSubsystem<F>(m: Metric<F>): (r: Metric<F>)
    ensures r.subsystem != ""
    ensures m.subsystem == "" ==> r.subsystem == DEFAULT_SUBSYSTEM
    ensures m.subsystem != "" ==> r == m
    ensures r.(subsystem := m.subsystem) == m
  {
    if m.subsystem == "" then m.(subsystem := DEFAULT_SUBSYSTEM) else m
  }

  /** A configuration to which the defaults of `main` have nothing left to add. */
  predicate IsNormalised<F>(c: Config<F>) {
    c.namespace != "" && c.interval != 0
  }

  /** The defaulting `main` applies after parsing: an empty namespace and a
      zero interval are replaced; the port and the metric list are kept. */
  function WithDefaults<F>(c: Config<F>): (r: Config<F>)
    ensures IsNormalised(r)
    ensures c.namespace == "" ==> r.namespace == DEFAULT_NAMESPACE
    ensures c.namespace != "" ==> r.namespace == c.namespace
    ensures c.interval == 0 ==> r.interval == SECOND
    ensures c.interval != 0 ==> r.interval == c.interval
    ensures r.port == c.port && r.metrics == c.metrics
  {
    var namespace := if c.namespace == "" then DEFAULT_NAMESPACE else c.namespace;
    var interval := if c.interval == 0 then SECOND else c.interval;
    c.(namespace := namespace, interval := interval)
  }

  /** A normalised configuration is a fixed point of the defaulting. */
  lemma NormalisedIsFixedPoint<F>(c: Config<F>)
    requires IsNormalised(c)
    ensures WithDefaults(c) == c
  {
  }

  /** Applying the defaults twice gives what applying them once gives. */
  lemma WithDefaultsIdempotent<F>(c: Config<F>)
    ensures WithDefaults(WithDefaults(c)) == WithDefaults(c)
  {
    NormalisedIsFixedPoint(WithDefaults(c));
  }

  /** Applying the subsystem default twice gives what applying it once gives. */
  lemma WithDefaultSubsystemIdempotent<F>(m: Metric<F>)
    ensures WithDefaultSubsystem(WithDefaultSubsystem(m)) == WithDefaultSubsystem(m)
  {
  }
}
