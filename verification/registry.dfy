/** `buildMetrics` (main.go): a fail-fast fold over the declarations that
    registers one gauge per declaration, in order, or stops at the first
    declaration whose type is not supported. The registry is modelled as the
    sequence of identities registered into it. */
module Registry {
  import opened Results
  import opened Declarations

  /** The only metric type the build accepts. */
  const GAUGE: string := "gauge"

  /** What a gauge is registered under: Prometheus' namespace, subsystem and name. */
  datatype Identity = Identity(namespace: string, subsystem: string, name: string)

  /** Why a build fails: the offending declaration's type string. */
  datatype BuildError = UnsupportedType(kind: string)

  /** The identities registered so far, in registration order. */
  type Registry = seq<Identity>

  /** The identity a declaration is registered under in namespace `namespace`. */
  function IdentityOf<F>(namespace: string, m: Metric<F>): Identity {
    Identity(namespace, WithDefaultSubsystem(m).subsystem, m.name)
  }

  /** Every declaration in `ms` is a gauge. */
  predicate AllGauges<F>(ms: seq<Metric<F>>) {
    forall i :: 0 <= i < |ms| ==> ms[i].kind == GAUGE
  }

  /** `ms[i]` is the first declaration of `ms` that is not a gauge. */
  predicate FirstUnsupportedAt<F>(ms: seq<Metric<F>>, i: int) {
    && 0 <= i < |ms|
    && ms[i].kind != GAUGE
    && forall j :: 0 <= j < i ==> ms[j].kind == GAUGE
  }

  /** The loop of `buildMetrics` from some iteration on: `reg` holds what
      earlier iterations registered and `ms` the declarations still to visit.
      It succeeds with `reg` extended by one identity per remaining
      declaration exactly when they are all gauges, and otherwise fails with
      the type of the first one that is not. */
  function BuildFrom<F>(namespace: string, ms: seq<Metric<F>>, reg: Registry): (r: Result<Registry, BuildError>)
    ensures r.Ok? <==> AllGauges(ms)
    ensures r.Ok? ==> |r.value| == |reg| + |ms| && r.value[..|reg|] == reg
    ensures r.Ok? ==> forall i :: 0 <= i < |ms| ==> r.value[|reg| + i] == IdentityOf(namespace, ms[i])
    ensures r.Err? ==> exists i :: FirstUnsupportedAt(ms, i) && r.error == UnsupportedType(ms[i].kind)
    decreases |ms|
  {
    if ms == [] then
      Ok(reg)
    else
      var metric := WithDefaultSubsystem(ms[0]);
      if metric.kind == GAUGE then
        BuildFrom(namespace, ms[1..], reg + [Identity(namespace, metric.subsystem, metric.name)])
      else
        Err(UnsupportedType(metric.kind))
  }

  /** `buildMetrics(c)`: the namespace is taken from the configuration as
      given; `main` applies the defaults first (see `Startup`). */
  function BuildMetrics<F>(c: Config<F>): (r: Result<Registry, BuildError>)
    ensures r.Ok? <==> AllGauges(c.metrics)
    ensures r.Ok? ==> |r.value| == |c.metrics|
    ensures r.Ok? ==> forall i :: 0 <= i < |c.metrics| ==> r.value[i] == IdentityOf(c.namespace, c.metrics[i])
    ensures r.Err? ==> exists i :: FirstUnsupportedAt(c.metrics, i) && r.error == UnsupportedType(c.metrics[i].kind)
  {
    var r := BuildFrom(c.namespace, c.metrics, []);
    assert r.Ok? ==> forall i :: 0 <= i < |c.metrics| ==> r.value[0 + i] == IdentityOf(c.namespace, c.metrics[i]);
    r
  }

  /** What `main` builds: the registry of the configuration after
      defaulting. It succeeds exactly when every declaration is a gauge, and
      then registers each one, in order, under the defaulted namespace and
      a non-empty subsystem; otherwise the first non-gauge names the error. */
  function Startup<F>(c: Config<F>): (r: Result<Registry, BuildError>)
    ensures r.Ok? <==> AllGauges(c.metrics)
    ensures r.Ok? ==> |r.value| == |c.metrics|
    ensures r.Ok? ==> forall i :: 0 <= i < |r.value| ==>
      && r.value[i] == IdentityOf(WithDefaults(c).namespace, c.metrics[i])
      && r.value[i].namespace != ""
      && r.value[i].subsystem != ""
    ensures forall i :: FirstUnsupportedAt(c.metrics, i) ==> r == Err(UnsupportedType(c.metrics[i].kind))
  {
    var r := BuildMetrics(WithDefaults(c));
    forall i | FirstUnsupportedAt(c.metrics, i)
      ensures r == Err(UnsupportedType(c.metrics[i].kind))
    {
      BuildFailsAtFirstUnsupported(WithDefaults(c), i);
    }
    r
  }

  /** At most one declaration is the first unsupported one. */
  lemma FirstUnsupportedUnique<F>(ms: seq<Metric<F>>, i: int, j: int)
    requires FirstUnsupportedAt(ms, i) && FirstUnsupportedAt(ms, j)
    ensures i == j
  {
  }

  /** The error of a failed build names the first unsupported declaration,
      whatever follows it. */
  lemma BuildFailsAtFirstUnsupported<F>(c: Config<F>, i: int)
    requires FirstUnsupportedAt(c.metrics, i)
    ensures BuildMetrics(c) == Err(UnsupportedType(c.metrics[i].kind))
  {
    var r := BuildMetrics(c);
    assert r.Err?;
    var j :| FirstUnsupportedAt(c.metrics, j) && r.error == UnsupportedType(c.metrics[j].kind);
    FirstUnsupportedUnique(c.metrics, i, j);
  }

  /** The build is a left fold: building `a + b` is building `a` and, if
      that succeeds, carrying its registry on through `b`. In particular a
      failure in `a` hides everything in `b`. */
  lemma {:induction false} BuildFromConcat<F>(namespace: string, a: seq<Metric<F>>, b: seq<Metric<F>>, reg: Registry)
    ensures BuildFrom(namespace, a + b, reg) ==
      match BuildFrom(namespace, a, reg)
      case Ok(mid) => BuildFrom(namespace, b, mid)
      case Err(e) => Err(e)
    decreases |a|
  {
    if a == [] {
      assert a + b == b;
    } else {
      assert (a + b)[0] == a[0];
      assert (a + b)[1..] == a[1..] + b;
      var metric := WithDefaultSubsystem(a[0]);
      if metric.kind == GAUGE {
        BuildFromConcat(namespace, a[1..], b, reg + [Identity(namespace, metric.subsystem, metric.name)]);
      }
    }
  }

  /** Two identical gauge declarations are both appended, giving the same
      identity twice, and the build succeeds. In Go `MustRegister` (main.go:51)
      panics on the second one instead; the Prometheus registry is not part
      of this model. */
  lemma DuplicateDeclarationsBothRegistered<F>(c: Config<F>, m: Metric<F>)
    requires m.kind == GAUGE && c.metrics == [m, m]
    ensures BuildMetrics(c).Ok?
    ensures BuildMetrics(c).value == [IdentityOf(c.namespace, m), IdentityOf(c.namespace, m)]
  {
    var r := BuildMetrics(c);
    assert r.value[0] == IdentityOf(c.namespace, c.metrics[0]);
    assert r.value[1] == IdentityOf(c.namespace, c.metrics[1]);
  }
}
