/**
 * The metrics object field by field: the source updates its atomics one after the other, so that the fields
 * of racing updates may interleave.
 */
module FieldUpdates {
  import opened Prelude
  import opened Endpoint
  import opened Smoothing

  datatype Field = EmaLatency | EmaPenalty | Failures | LastSelected

  /** One atomic operation on one field. */
  datatype FieldOp =
    | SmoothLatency(sample: u64, alpha: Factor)
    | SmoothPenalty(sample: u64, alpha: Factor)
    | ResetFailures
    | CountFailure
    | Stamp(secs: u64)

  function FieldOf(op: FieldOp): Field {
    match op
    case SmoothLatency(_, _) => EmaLatency
    case SmoothPenalty(_, _) => EmaPenalty
    case ResetFailures => Failures
    case CountFailure => Failures
    case Stamp(_) => LastSelected
  }

  function ApplyField(m: Metrics, op: FieldOp): Metrics {
    match op
    case SmoothLatency(sample, alpha) => m.(emaLatencyMs := UpdateEma(m.emaLatencyMs, sample, alpha))
    case SmoothPenalty(sample, alpha) => m.(emaErrorPenaltyMs := UpdateEma(m.emaErrorPenaltyMs, sample, alpha))
    case ResetFailures => m.(consecutiveFailures := 0)
    case CountFailure => m.(consecutiveFailures := WrappingInc(m.consecutiveFailures))
    case Stamp(secs) => m.(lastSelected := secs)
  }

  function FoldFields(m: Metrics, ops: seq<FieldOp>): Metrics
    decreases |ops|
  {
    if ops == [] then m else FoldFields(ApplyField(m, ops[0]), ops[1..])
  }

  /** The atomic operations of one update, in program order. */
  function FieldsOf(op: MetricsOp): seq<FieldOp> {
    match op
    case Observe(Success(latencyMs), smoothing) =>
      [SmoothLatency(latencyMs, smoothing), ResetFailures, SmoothPenalty(0, HALF)]
    case Observe(Failure(kind, latencyMs), _) =>
      [SmoothPenalty(CalculatePenalty(kind, latencyMs), FOUR_FIFTHS), CountFailure]
    case Recover => [ResetFailures, SmoothPenalty(0, HALF)]
    case Touch(secs) => [Stamp(secs)]
  }

  lemma {:induction false} FoldFieldsAppend(m: Metrics, a: seq<FieldOp>, b: seq<FieldOp>)
    ensures FoldFields(m, a + b) == FoldFields(FoldFields(m, a), b)
    decreases |a|
  {
    if a == [] {
      assert a + b == b;
    } else {
      FoldFieldsAppend(ApplyField(m, a[0]), a[1..], b);
      assert (a + b)[1..] == a[1..] + b;
    }
  }

  /** Without a race, the operations of an update amount to the update. */
  lemma {:induction false} FieldsOfUpdate(m: Metrics, op: MetricsOp)
    ensures FoldFields(m, FieldsOf(op)) == Apply(m, op)
  {
    var ops := FieldsOf(op);
    FoldFieldsShort(m, ops);
    match op
    case Observe(Success(_), _) => assert |ops| == 3;
    case Observe(Failure(_, _), _) => assert |ops| == 2;
    case Recover => assert |ops| == 2;
    case Touch(_) => assert |ops| == 1;
  }

  lemma {:induction false} FoldFieldsShort(m: Metrics, ops: seq<FieldOp>)
    ensures |ops| == 1 ==> FoldFields(m, ops) == ApplyField(m, ops[0])
    ensures |ops| == 2 ==> FoldFields(m, ops) == ApplyField(ApplyField(m, ops[0]), ops[1])
    ensures |ops| == 3 ==> FoldFields(m, ops) == ApplyField(ApplyField(ApplyField(m, ops[0]), ops[1]), ops[2])
    decreases |ops|
  {
    if 1 < |ops| <= 3 {
      FoldFieldsShort(ApplyField(m, ops[0]), ops[1..]);
    }
  }

  /** The operations on one field, in the order in which they happen. */
  function Only(ops: seq<FieldOp>, field: Field): seq<FieldOp> {
    if ops == [] then []
    else (if FieldOf(ops[0]) == field then [ops[0]] else []) + Only(ops[1..], field)
  }

  ghost predicate SameField(m: Metrics, m': Metrics, field: Field) {
    match field
    case EmaLatency => m.emaLatencyMs == m'.emaLatencyMs
    case EmaPenalty => m.emaErrorPenaltyMs == m'.emaErrorPenaltyMs
    case Failures => m.consecutiveFailures == m'.consecutiveFailures
    case LastSelected => m.lastSelected == m'.lastSelected
  }

  /** A field takes all the operations addressed to it, and nothing else: none is lost to a race. */
  lemma {:induction false} FieldTakesItsOperations(m: Metrics, m': Metrics, ops: seq<FieldOp>, field: Field)
    requires SameField(m, m', field)
    ensures SameField(FoldFields(m, ops), FoldFields(m', Only(ops, field)), field)
    decreases |ops|
  {
    if ops != [] {
      var rest := Only(ops[1..], field);
      if FieldOf(ops[0]) == field {
        assert ([ops[0]] + rest)[1..] == rest;
        FieldTakesItsOperations(ApplyField(m, ops[0]), ApplyField(m', ops[0]), ops[1..], field);
      } else {
        assert [] + rest == rest;
        FieldTakesItsOperations(ApplyField(m, ops[0]), m', ops[1..], field);
      }
    }
  }

  /** So racing updates leave what any schedule leaves that takes the operations of each field in the same order. */
  lemma {:induction false} RacesAreFieldwise(m: Metrics, ops: seq<FieldOp>, ops': seq<FieldOp>)
    requires forall field :: Only(ops, field) == Only(ops', field)
    ensures FoldFields(m, ops) == FoldFields(m, ops')
  {
    forall field: Field
      ensures SameField(FoldFields(m, ops), FoldFields(m, ops'), field)
    {
      FieldTakesItsOperations(m, m, ops, field);
      FieldTakesItsOperations(m, m, ops', field);
    }
    assert SameField(FoldFields(m, ops), FoldFields(m, ops'), EmaLatency);
    assert SameField(FoldFields(m, ops), FoldFields(m, ops'), EmaPenalty);
    assert SameField(FoldFields(m, ops), FoldFields(m, ops'), Failures);
    assert SameField(FoldFields(m, ops), FoldFields(m, ops'), LastSelected);
  }
}
