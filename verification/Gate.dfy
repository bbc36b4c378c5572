/** The height gate in front of every attestation. */
module Gate {
  import opened Wrappers
  import opened Bytes
  import opened Types
  import opened Metrics

  function ClampI64(x: nat): int {
    if x <= I64_MAX then x else I64_MAX
  }

  function SaturatingSubI64(a: int, b: int): int {
    var d := a - b;
    if d > I64_MAX then I64_MAX else if d < I64_MIN then I64_MIN else d
  }

  /** The observed lag: finalized minus requested, in 64-bit signed arithmetic. */
  function Lag(finalized: nat, height: nat): int {
    SaturatingSubI64(ClampI64(finalized), ClampI64(height))
  }

  /** The subtraction never saturates; only the conversions do. */
  lemma LagIsExact(finalized: u64, height: u64)
    ensures -I64_MAX <= Lag(finalized, height) <= I64_MAX
    ensures Lag(finalized, height) == ClampI64(finalized) - ClampI64(height)
    ensures Lag(finalized, height) == finalized - height <==>
            (finalized <= I64_MAX && height <= I64_MAX) || finalized == height
  {
  }

  lemma LagIsMonotone(f1: u64, f2: u64, h1: u64, h2: u64)
    requires f1 <= f2 && h2 <= h1
    ensures Lag(f1, h1) <= Lag(f2, h2)
  {
  }

  /** A negative lag means rejection; a rejection shows as a negative lag exactly below `i64::MAX`. */
  lemma LagAndRejection(finalized: u64, height: u64)
    ensures Lag(finalized, height) < 0 ==> height > finalized
    ensures height > finalized ==> (Lag(finalized, height) < 0 <==> finalized < I64_MAX)
  {
  }

  function Validate(finalized: Result<nat, AdapterError>, height: u64): Result<(), AttestorError> {
    match finalized
    case Err(e) => Err(AdapterFailure(e))
    case Ok(f) => if height > f then Err(HeightNotFinalized) else Ok(())
  }

  /** What the gate does to the counters: a read height is a gauge value and a lag, a refusal one rejection. */
  function GateCounted(c: Counters, finalized: Result<nat, AdapterError>, height: nat): Counters {
    match finalized
    case Err(_) => c
    case Ok(f) =>
      var seen := LagObserved(HeightSet(c, f), Lag(f, height));
      if height > f then HeightRejected(seen) else seen
  }

  /**
   * What a measured height leaves in the counters: the gauge at that height, clamped, one lag, which is the exact
   * difference where both heights are 63-bit numbers, a rejection if the height is above it, and nothing else.
   */
  ghost predicate Measures(c: Counters, c': Counters, finalized: nat, height: nat) {
    && c'.finalizedHeight == (if finalized <= I64_MAX then finalized else I64_MAX)
    && |c'.heightLags| == |c.heightLags| + 1 && c'.heightLags[..|c.heightLags|] == c.heightLags
    && (finalized <= I64_MAX && height <= I64_MAX ==> c'.heightLags[|c.heightLags|] == finalized - height)
    && c'.heightRejections == c.heightRejections + (if height > finalized then 1 else 0)
    && c'.(finalizedHeight := 0, heightLags := [], heightRejections := 0) ==
       c.(finalizedHeight := 0, heightLags := [], heightRejections := 0)
  }

  lemma GateMeasures(c: Counters, finalized: nat, height: nat)
    ensures Measures(c, GateCounted(c, Ok(finalized), height), finalized, height)
  {
  }

  method ValidateHeight(metrics: Metrics, read: Result<u64, AdapterError>, height: u64)
    returns (r: Result<(), AttestorError>)
    modifies metrics
    ensures r == Validate(read, height)
    ensures r.Ok? <==> read.Ok? && height <= read.value
    ensures r == Err(HeightNotFinalized) <==> read.Ok? && height > read.value
    ensures read.Err? ==> r == Err(AdapterFailure(read.error))
    ensures metrics.cell == Recorded(old(metrics.cell), GateCounted(Current(old(metrics.cell)), read, height))
    ensures metrics.cell.Some? && read.Ok? ==>
              Measures(Current(old(metrics.cell)), Current(metrics.cell), read.value, height)
    ensures read.Err? ==> metrics.cell == old(metrics.cell)
  {
    if metrics.cell.Some? && read.Ok? {
      GateMeasures(Current(metrics.cell), read.value, height);
    }
    var last := metrics.LastHeight(read);
    match last {
      case Err(e) => return Err(AdapterFailure(e));
      case Ok(finalized) =>
        metrics.ObserveHeightLag(Lag(finalized, height));
        if height > finalized {
          metrics.IncHeightRejections();
          return Err(HeightNotFinalized);
        }
        return Ok(());
    }
  }
}
