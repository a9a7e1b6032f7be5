/**
 Throughput folds: what one streamed request reports, how the requests of a cohort are merged, and how
 the resulting rate is compared with the backend's own. Counts and durations are exact: durations,
 weights and rates are reals.
 */
module Throughput {
  import opened Prelude

  type Measure = r: real | r >= 0.0

  const MISMATCH_THRESHOLD_PCT: real := 5.0

  datatype Metric = Metric(
    tokenCount: Option<real>,
    durationMs: Option<real>,
    tabbyWeightedTokens: Option<real>,
    tabbyDurationMs: Option<real>,
    requestCount: nat,
    missingInternalRequests: nat,
    missingTabbyRequests: nat)

  datatype InferenceThroughput = InferenceThroughput(pp: Metric, decode: Metric)

  /** The throughput part of one frame's `usage`; seconds and rates as the backend states them. */
  datatype Usage = Usage(
    promptTokens: Option<Measure>, cachedTokens: Option<Measure>,
    promptTime: Option<Measure>, promptRate: Option<Measure>,
    completionTokens: Option<Measure>, completionTime: Option<Measure>, completionRate: Option<Measure>)

  /** A response body, after validation: None when `usage` is missing or malformed. */
  type Body = Option<Usage>

  function SecondsToMs(seconds: Option<real>): Option<real> {
    if seconds.None? then None else Some(seconds.value * 1000.0)
  }

  function Truncate(x: Measure): Measure {
    x.Floor as real
  }

  function ToTabbyWeight(rate: Option<real>, durationMs: Option<real>): Option<real> {
    if rate.None? || durationMs.None? then None
    else Some(rate.value * (durationMs.value / 1000.0))
  }

  function BuildMetric(tokenCount: Option<real>, durationMs: Option<real>,
                       tabbyWeightedTokens: Option<real>, tabbyDurationMs: Option<real>): Metric
  {
    Metric(tokenCount, durationMs, tabbyWeightedTokens, tabbyDurationMs, 1,
           if tokenCount.None? || durationMs.None? then 1 else 0,
           if tabbyWeightedTokens.None? || tabbyDurationMs.None? then 1 else 0)
  }

  function NullMetric(requestCount: nat): Metric
    requires requestCount <= 1
  {
    Metric(None, None, None, None, requestCount, requestCount, requestCount)
  }

  const EMPTY := InferenceThroughput(NullMetric(0), NullMetric(0))
  const UNMEASURED := InferenceThroughput(NullMetric(1), NullMetric(1))

  /** What one frame states about one of the two metrics. */
  datatype Frame = Unreadable | Stated(tokens: Option<Measure>, seconds: Option<Measure>, rate: Option<Measure>)

  function PromptFrame(body: Body): Frame {
    if body.None? then Unreadable
    else
      var u := body.value;
      var cached: Measure := if u.cachedTokens.Some? then u.cachedTokens.value else 0.0;
      var tokens: Option<Measure> :=
        if u.promptTokens.None? then None
        else if u.promptTokens.value - cached >= 0.0 then Some(Truncate(u.promptTokens.value - cached))
        else Some(0.0);
      Stated(tokens, u.promptTime, u.promptRate)
  }

  function CompletionFrame(body: Body): Frame {
    if body.None? then Unreadable
    else
      var u := body.value;
      var tokens: Option<Measure> := if u.completionTokens.None? then None else Some(Truncate(u.completionTokens.value));
      Stated(tokens, u.completionTime, u.completionRate)
  }

  function ReadMetric(frame: Frame): Metric {
    if frame.Unreadable? then NullMetric(1)
    else
      var ms := SecondsToMs(frame.seconds);
      BuildMetric(frame.tokens, ms, ToTabbyWeight(frame.rate, ms), ms)
  }

  function ReadTabbyThroughput(body: Body): InferenceThroughput {
    InferenceThroughput(ReadMetric(PromptFrame(body)), ReadMetric(CompletionFrame(body)))
  }

  function OrElse<T>(first: Option<T>, second: Option<T>): Option<T> {
    if first.Some? then first else second
  }

  function ObserveMetric(previous: Metric, next: Metric): Metric {
    if next.requestCount == 0 then previous
    else if previous.requestCount == 0 then next
    else BuildMetric(OrElse(next.tokenCount, previous.tokenCount),
                     OrElse(next.durationMs, previous.durationMs),
                     OrElse(next.tabbyWeightedTokens, previous.tabbyWeightedTokens),
                     OrElse(next.tabbyDurationMs, previous.tabbyDurationMs))
  }

  function ObserveTabbyThroughput(previous: InferenceThroughput, body: Body): InferenceThroughput {
    var next := ReadTabbyThroughput(body);
    InferenceThroughput(ObserveMetric(previous.pp, next.pp), ObserveMetric(previous.decode, next.decode))
  }

  // ---------------------------------------------------------------------------------------------
  // Merging a cohort
  // ---------------------------------------------------------------------------------------------

  function Add(a: Option<real>, b: Option<real>): Option<real> {
    if a.None? then b else if b.None? then a else Some(a.value + b.value)
  }

  /** The sum of the values that are present, absent when none is. */
  function SumField(values: seq<Metric>, pick: Metric -> Option<real>): Option<real> {
    if values == [] then None else Add(SumField(values[..|values| - 1], pick), pick(values[|values| - 1]))
  }

  function SumInt(values: seq<Metric>, pick: Metric -> nat): nat {
    if values == [] then 0 else SumInt(values[..|values| - 1], pick) + pick(values[|values| - 1])
  }

  method ComputeSumField(values: seq<Metric>, pick: Metric -> Option<real>) returns (total: Option<real>)
    ensures total == SumField(values, pick)
    ensures total.None? <==> forall m | m in values :: pick(m).None?
  {
    total := None;
    for i := 0 to |values|
      invariant total == SumField(values[..i], pick)
      invariant total.None? <==> forall k | 0 <= k < i :: pick(values[k]).None?
    {
      assert values[..i + 1][..i] == values[..i];
      var value := pick(values[i]);
      if value.None? {
        continue;
      }
      total := if total.None? then value else Some(total.value + value.value);
    }
    assert values[..|values|] == values;
  }

  method ComputeSumInt(values: seq<Metric>, pick: Metric -> nat) returns (total: nat)
    ensures total == SumInt(values, pick)
  {
    total := 0;
    for i := 0 to |values|
      invariant total == SumInt(values[..i], pick)
    {
      assert values[..i + 1][..i] == values[..i];
      total := total + pick(values[i]);
    }
    assert values[..|values|] == values;
  }

  function TokenCountOf(m: Metric): Option<real> { m.tokenCount }
  function DurationOf(m: Metric): Option<real> { m.durationMs }
  function TabbyWeightOf(m: Metric): Option<real> { m.tabbyWeightedTokens }
  function TabbyDurationOf(m: Metric): Option<real> { m.tabbyDurationMs }
  function RequestsOf(m: Metric): nat { m.requestCount }
  function MissingInternalOf(m: Metric): nat { m.missingInternalRequests }
  function MissingTabbyOf(m: Metric): nat { m.missingTabbyRequests }

  function MergeMetric(values: seq<Metric>): Metric {
    Metric(SumField(values, TokenCountOf), SumField(values, DurationOf),
           SumField(values, TabbyWeightOf), SumField(values, TabbyDurationOf),
           SumInt(values, RequestsOf), SumInt(values, MissingInternalOf), SumInt(values, MissingTabbyOf))
  }

  function PromptMetrics(values: seq<InferenceThroughput>): seq<Metric> {
    seq(|values|, i requires 0 <= i < |values| => values[i].pp)
  }

  function DecodeMetrics(values: seq<InferenceThroughput>): seq<Metric> {
    seq(|values|, i requires 0 <= i < |values| => values[i].decode)
  }

  function MergeInferenceThroughput(values: seq<InferenceThroughput>): InferenceThroughput {
    InferenceThroughput(MergeMetric(PromptMetrics(values)), MergeMetric(DecodeMetrics(values)))
  }

  // ---------------------------------------------------------------------------------------------
  // Rates and their comparison
  // ---------------------------------------------------------------------------------------------

  function CalculateRate(count: Option<real>, durationMs: Option<real>, missing: nat): Option<real> {
    if missing > 0 || count.None? || durationMs.None? || durationMs.value <= 0.0 then None
    else Some(count.value / (durationMs.value / 1000.0))
  }

  function InternalRate(m: Metric): Option<real> {
    CalculateRate(m.tokenCount, m.durationMs, m.missingInternalRequests)
  }

  function ReferenceRate(m: Metric): Option<real> {
    CalculateRate(m.tabbyWeightedTokens, m.tabbyDurationMs, m.missingTabbyRequests)
  }

  datatype Comparison =
    | Match(internalRate: real, tabbyRate: real, deltaPct: Option<real>)
    | Mismatch(internalRate: real, tabbyRate: real, deltaPct: Option<real>, zeroReference: bool)
    | Unverifiable(internal: Option<real>, tabby: Option<real>)

  function Abs(x: real): real {
    if x < 0.0 then -x else x
  }

  function CompareThroughputRate(internalRate: Option<real>, tabbyRate: Option<real>): Comparison {
    if internalRate.None? || tabbyRate.None? then Unverifiable(internalRate, tabbyRate)
    else
      var internal, tabby := internalRate.value, tabbyRate.value;
      if tabby == 0.0 then
        if internal == 0.0 then Match(internal, tabby, None) else Mismatch(internal, tabby, None, true)
      else
        var deltaPct := (internal - tabby) / Abs(tabby) * 100.0;
        if Abs(deltaPct) > MISMATCH_THRESHOLD_PCT then Mismatch(internal, tabby, Some(deltaPct), false)
        else Match(internal, tabby, Some(deltaPct))
  }

  function CompareMetric(m: Metric): Comparison {
    CompareThroughputRate(InternalRate(m), ReferenceRate(m))
  }
}
