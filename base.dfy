/**
 * The provider boundary: the shape of one provider's result and the
 * clamp every adapter applies to a UV value before emitting it.
 */
module UvProviders {
  import opened Wrappers

  /** Lowest and highest UV value an adapter may emit (headroom beyond 11). */
  const UvFloor: real := 0.0
  const UvCeiling: real := 15.0

  /** One hourly sample: the local-time label and a UV value that may be missing. */
  datatype Sample = Sample(time: string, uv: Option<real>)

  /**
   * The result of one adapter's fetch: its name, the timezone it used,
   * its hourly samples (possibly none) and an optional error message.
   */
  datatype ProviderResult = ProviderResult(
    name: string,
    tz: string,
    hourly: seq<Sample>,
    error: Option<string>)

  /** Clamp a UV value into [0, 15]; a missing value stays missing. */
  function ClampUv(x: Option<real>): (r: Option<real>)
    ensures r.None? <==> x.None?
    ensures r.Some? ==> UvFloor <= r.value <= UvCeiling
    ensures x.Some? && UvFloor <= x.value <= UvCeiling ==> r == x
    ensures x.Some? && x.value < UvFloor ==> r == Some(UvFloor)
    ensures x.Some? && x.value > UvCeiling ==> r == Some(UvCeiling)
  {
    match x
    case None => None
    case Some(v) => Some(Max(UvFloor, Min(v, UvCeiling)))
  }

  /** A value an adapter may emit: missing, or within [0, 15]. */
  predicate Emittable(v: Option<real>)
  {
    v.None? || UvFloor <= v.value <= UvCeiling
  }

  /** The clamp emits only emittable values, and the emittable values are exactly those it leaves alone. */
  lemma ClampEmittable(x: Option<real>)
    ensures Emittable(ClampUv(x))
    ensures Emittable(x) <==> ClampUv(x) == x
  {
  }

  /** Clamping twice is clamping once. */
  lemma ClampIdempotent(x: Option<real>)
    ensures ClampUv(ClampUv(x)) == ClampUv(x)
  {
  }

  /** Clamping preserves the order of present values. */
  lemma ClampMonotone(x: real, y: real)
    requires x <= y
    ensures ClampUv(Some(x)).value <= ClampUv(Some(y)).value
  {
  }

  /** The cases exercised by the repository's own unit tests. */
  lemma ClampExamples()
    ensures ClampUv(None) == None
    ensures ClampUv(Some(-3.0)) == Some(0.0)
    ensures ClampUv(Some(20.0)) == Some(15.0)
    ensures ClampUv(Some(5.5)) == Some(5.5)
  {
  }
}
