/** What throughput folds promise: one request counted once, cohorts that merge in any order, honest rates. */
module ThroughputLaws {
  import opened Prelude
  import opened Throughput

  // ---------------------------------------------------------------------------------------------
  // Merging is a commutative monoid
  // ---------------------------------------------------------------------------------------------

  function Combine(a: Metric, b: Metric): Metric {
    Metric(Add(a.tokenCount, b.tokenCount), Add(a.durationMs, b.durationMs),
           Add(a.tabbyWeightedTokens, b.tabbyWeightedTokens), Add(a.tabbyDurationMs, b.tabbyDurationMs),
           a.requestCount + b.requestCount,
           a.missingInternalRequests + b.missingInternalRequests,
           a.missingTabbyRequests + b.missingTabbyRequests)
  }

  function CombineFolds(a: InferenceThroughput, b: InferenceThroughput): InferenceThroughput {
    InferenceThroughput(Combine(a.pp, b.pp), Combine(a.decode, b.decode))
  }

  lemma {:induction false} MergeSplitsLast(values: seq<Metric>)
    requires values != []
    ensures MergeMetric(values) == Combine(MergeMetric(values[..|values| - 1]), values[|values| - 1])
  {
  }

  lemma {:induction false} MergeOne(m: Metric)
    ensures MergeMetric([m]) == m
  {
    MergeSplitsLast([m]);
    assert [m][..0] == [];
  }

  lemma {:induction false} AddAssociates(a: Option<real>, b: Option<real>, c: Option<real>)
    ensures Add(Add(a, b), c) == Add(a, Add(b, c))
  {
  }

  lemma {:induction false} CombineAssociates(a: Metric, b: Metric, c: Metric)
    ensures Combine(Combine(a, b), c) == Combine(a, Combine(b, c))
  {
    AddAssociates(a.tokenCount, b.tokenCount, c.tokenCount);
    AddAssociates(a.durationMs, b.durationMs, c.durationMs);
    AddAssociates(a.tabbyWeightedTokens, b.tabbyWeightedTokens, c.tabbyWeightedTokens);
    AddAssociates(a.tabbyDurationMs, b.tabbyDurationMs, c.tabbyDurationMs);
  }

  lemma {:induction false} CombineNothing(a: Metric)
    ensures Combine(a, NullMetric(0)) == a
  {
  }

  lemma {:induction false} MergeAppend(xs: seq<Metric>, ys: seq<Metric>)
    ensures MergeMetric(xs + ys) == Combine(MergeMetric(xs), MergeMetric(ys))
  {
    if ys == [] {
      assert xs + ys == xs;
      CombineNothing(MergeMetric(xs));
    } else {
      var front, last := ys[..|ys| - 1], ys[|ys| - 1];
      MergeSplitsLast(xs + ys);
      MergeSplitsLast(ys);
      assert (xs + ys)[..|xs + ys| - 1] == xs + front;
      MergeAppend(xs, front);
      CombineAssociates(MergeMetric(xs), MergeMetric(front), last);
    }
  }

  lemma {:induction false} MergePair(a: InferenceThroughput, b: InferenceThroughput)
    ensures MergeInferenceThroughput([a, b]) == CombineFolds(a, b)
  {
    MergeFoldOne(a);
    MergeFoldOne(b);
    MergeFolds([a], [b]);
    assert [a] + [b] == [a, b];
  }

  /** The empty fold is the identity of merging, and merging nothing gives it. */
  lemma {:induction false} MergeIdentity(a: InferenceThroughput)
    ensures MergeInferenceThroughput([]) == EMPTY
    ensures MergeInferenceThroughput([a]) == a
    ensures MergeInferenceThroughput([a, EMPTY]) == a == MergeInferenceThroughput([EMPTY, a])
  {
    MergeFoldOne(a);
    MergePair(a, EMPTY);
    MergePair(EMPTY, a);
  }

  lemma {:induction false} MergeFoldOne(a: InferenceThroughput)
    ensures MergeInferenceThroughput([a]) == a
  {
    assert PromptMetrics([a]) == [a.pp] && DecodeMetrics([a]) == [a.decode];
    MergeOne(a.pp);
    MergeOne(a.decode);
  }

  lemma {:induction false} MergeFolds(xs: seq<InferenceThroughput>, ys: seq<InferenceThroughput>)
    ensures MergeInferenceThroughput(xs + ys)
         == CombineFolds(MergeInferenceThroughput(xs), MergeInferenceThroughput(ys))
  {
    assert PromptMetrics(xs + ys) == PromptMetrics(xs) + PromptMetrics(ys);
    assert DecodeMetrics(xs + ys) == DecodeMetrics(xs) + DecodeMetrics(ys);
    MergeAppend(PromptMetrics(xs), PromptMetrics(ys));
    MergeAppend(DecodeMetrics(xs), DecodeMetrics(ys));
  }

  function Flatten(groups: seq<seq<InferenceThroughput>>): seq<InferenceThroughput> {
    if groups == [] then [] else Flatten(groups[..|groups| - 1]) + groups[|groups| - 1]
  }

  function MergeEach(groups: seq<seq<InferenceThroughput>>): seq<InferenceThroughput> {
    if groups == [] then []
    else MergeEach(groups[..|groups| - 1]) + [MergeInferenceThroughput(groups[|groups| - 1])]
  }

  /** However requests are grouped into stages first, the operation's fold is the same. */
  lemma {:induction false} AnyGrouping(groups: seq<seq<InferenceThroughput>>)
    ensures MergeInferenceThroughput(MergeEach(groups)) == MergeInferenceThroughput(Flatten(groups))
  {
    if groups != [] {
      var front, last := groups[..|groups| - 1], groups[|groups| - 1];
      AnyGrouping(front);
      MergeFolds(MergeEach(front), [MergeInferenceThroughput(last)]);
      MergeFoldOne(MergeInferenceThroughput(last));
      MergeFolds(Flatten(front), last);
    }
  }

  lemma {:induction false} AddSwaps(a: Option<real>, x: Option<real>, b: Option<real>)
    ensures Add(Add(a, x), b) == Add(x, Add(a, b))
  {
  }

  lemma {:induction false} CombineSwaps(a: Metric, x: Metric, b: Metric)
    ensures Combine(Combine(a, x), b) == Combine(x, Combine(a, b))
  {
    AddSwaps(a.tokenCount, x.tokenCount, b.tokenCount);
    AddSwaps(a.durationMs, x.durationMs, b.durationMs);
    AddSwaps(a.tabbyWeightedTokens, x.tabbyWeightedTokens, b.tabbyWeightedTokens);
    AddSwaps(a.tabbyDurationMs, x.tabbyDurationMs, b.tabbyDurationMs);
  }

  lemma {:induction false} MoveToFront(
      before: seq<InferenceThroughput>, x: InferenceThroughput, after: seq<InferenceThroughput>)
    ensures MergeInferenceThroughput(before + [x] + after)
         == CombineFolds(x, MergeInferenceThroughput(before + after))
  {
    MergeFolds(before + [x], after);
    MergeFolds(before, [x]);
    MergeFolds(before, after);
    MergeFoldOne(x);
    var a, b := MergeInferenceThroughput(before), MergeInferenceThroughput(after);
    CombineSwaps(a.pp, x.pp, b.pp);
    CombineSwaps(a.decode, x.decode, b.decode);
  }

  lemma {:induction false} TakeOut(xs: seq<InferenceThroughput>, ys: seq<InferenceThroughput>) returns (i: nat)
    requires xs != [] && multiset(xs) == multiset(ys)
    ensures i < |ys| && ys == ys[..i] + [xs[0]] + ys[i + 1..]
    ensures multiset(xs[1..]) == multiset(ys[..i] + ys[i + 1..])
  {
    assert xs == [xs[0]] + xs[1..];
    assert xs[0] in multiset(ys);
    i :| 0 <= i < |ys| && ys[i] == xs[0];
    assert ys == ys[..i] + [xs[0]] + ys[i + 1..];
    assert multiset(ys[..i] + ys[i + 1..]) == multiset(ys) - multiset{xs[0]};
  }

  /** In whatever order requests arrive, the fold is the same. */
  lemma {:induction false} AnyOrder(xs: seq<InferenceThroughput>, ys: seq<InferenceThroughput>)
    requires multiset(xs) == multiset(ys)
    ensures MergeInferenceThroughput(xs) == MergeInferenceThroughput(ys)
    decreases |xs|
  {
    if xs == [] {
      assert |multiset(ys)| == 0;
    } else {
      var i := TakeOut(xs, ys);
      AnyOrder(xs[1..], ys[..i] + ys[i + 1..]);
      MoveToFront([], xs[0], xs[1..]);
      MoveToFront(ys[..i], xs[0], ys[i + 1..]);
      assert [] + [xs[0]] + xs[1..] == xs && [] + xs[1..] == xs[1..];
    }
  }

  /** Merging two folds adds what both state, keeps what one states, and counts both requests. */
  lemma {:induction false} TwoMerged(a: Metric, b: Metric)
    ensures var m := MergeMetric([a, b]);
            && m.requestCount == a.requestCount + b.requestCount
            && m.missingInternalRequests == a.missingInternalRequests + b.missingInternalRequests
            && m.missingTabbyRequests == a.missingTabbyRequests + b.missingTabbyRequests
            && IsSum(m.tokenCount, a.tokenCount, b.tokenCount)
            && IsSum(m.durationMs, a.durationMs, b.durationMs)
            && IsSum(m.tabbyWeightedTokens, a.tabbyWeightedTokens, b.tabbyWeightedTokens)
            && IsSum(m.tabbyDurationMs, a.tabbyDurationMs, b.tabbyDurationMs)
  {
    MergeTwo(a, b);
  }

  predicate IsSum(sum: Option<real>, a: Option<real>, b: Option<real>) {
    && (sum.None? <==> a.None? && b.None?)
    && (sum.Some? ==> sum.value == (if a.Some? then a.value else 0.0) + if b.Some? then b.value else 0.0)
  }

  lemma {:induction false} MergeTwo(a: Metric, b: Metric)
    ensures MergeMetric([a, b]) == Combine(a, b)
  {
    MergeOne(a);
    MergeOne(b);
    MergeAppend([a], [b]);
    assert [a] + [b] == [a, b];
  }

  // ---------------------------------------------------------------------------------------------
  // What a response body says
  // ---------------------------------------------------------------------------------------------

  /** The largest whole number that is not above `x`, or 0 when `x` is negative. */
  predicate IsCount(count: Option<real>, x: real) {
    && count.Some? && count.value == count.value.Floor as real
    && (x < 0.0 ==> count.value == 0.0)
    && (x >= 0.0 ==> count.value <= x < count.value + 1.0)
  }

  predicate IsTime(ms: Option<real>, seconds: Option<Measure>) {
    && (ms.Some? <==> seconds.Some?)
    && (ms.Some? ==> ms.value == seconds.value * 1000.0)
  }

  /** A weight needs a rate and a time, and is tokens: rate times seconds. */
  predicate IsWeight(weight: Option<real>, rate: Option<Measure>, seconds: Option<Measure>) {
    && (weight.Some? <==> rate.Some? && seconds.Some?)
    && (weight.Some? ==> weight.value == rate.value * seconds.value)
  }

  /** One request, missing a side exactly when a field of that side is absent. */
  predicate IsOneRequest(m: Metric) {
    && m.requestCount == 1
    && m.missingInternalRequests == (if m.tokenCount.Some? && m.durationMs.Some? then 0 else 1)
    && m.missingTabbyRequests == (if m.tabbyWeightedTokens.Some? && m.tabbyDurationMs.Some? then 0 else 1)
  }

  lemma {:induction false} WeightInSeconds(rate: real, seconds: real)
    ensures rate * (seconds * 1000.0 / 1000.0) == rate * seconds
  {
    assert seconds * 1000.0 / 1000.0 == seconds;
  }

  /**
   What one body says. Prompt tokens count without the cached ones, which count as none when absent, and never
   below zero; completion tokens count as they are; fractions are cut off. Each side takes its own time and
   rate. A body without a usable `usage` is one request with nothing measured, not zeros.
   */
  lemma {:induction false} BodySays(u: Usage)
    ensures var fold := ReadTabbyThroughput(Some(u));
            var cached := if u.cachedTokens.Some? then u.cachedTokens.value else 0.0;
            && (u.promptTokens.None? ==> fold.pp.tokenCount.None?)
            && (u.promptTokens.Some? ==> IsCount(fold.pp.tokenCount, u.promptTokens.value - cached))
            && (u.completionTokens.None? ==> fold.decode.tokenCount.None?)
            && (u.completionTokens.Some? ==> IsCount(fold.decode.tokenCount, u.completionTokens.value))
            && IsTime(fold.pp.durationMs, u.promptTime) && IsTime(fold.pp.tabbyDurationMs, u.promptTime)
            && IsTime(fold.decode.durationMs, u.completionTime) && IsTime(fold.decode.tabbyDurationMs, u.completionTime)
            && IsWeight(fold.pp.tabbyWeightedTokens, u.promptRate, u.promptTime)
            && IsWeight(fold.decode.tabbyWeightedTokens, u.completionRate, u.completionTime)
            && IsOneRequest(fold.pp) && IsOneRequest(fold.decode)
    ensures ReadTabbyThroughput(None) == UNMEASURED
    ensures IsOneRequest(UNMEASURED.pp) && UNMEASURED.pp == UNMEASURED.decode
    ensures UNMEASURED.pp.tokenCount.None? && UNMEASURED.pp.durationMs.None?
            && UNMEASURED.pp.tabbyWeightedTokens.None? && UNMEASURED.pp.tabbyDurationMs.None?
  {
    FrameSays(PromptFrame(Some(u)));
    FrameSays(CompletionFrame(Some(u)));
  }

  lemma {:induction false} FrameSays(frame: Frame)
    requires frame.Stated?
    ensures ReadMetric(frame).tokenCount == frame.tokens
    ensures IsTime(ReadMetric(frame).durationMs, frame.seconds)
    ensures IsTime(ReadMetric(frame).tabbyDurationMs, frame.seconds)
    ensures IsWeight(ReadMetric(frame).tabbyWeightedTokens, frame.rate, frame.seconds)
    ensures IsOneRequest(ReadMetric(frame))
  {
    if frame.rate.Some? && frame.seconds.Some? {
      WeightInSeconds(frame.rate.value, frame.seconds.value);
    }
  }

  /** Whole counts are subtracted exactly. */
  lemma {:induction false} WholePromptCount(u: Usage, prompt: nat, cached: nat)
    requires u.promptTokens == Some(prompt as real) && u.cachedTokens == Some(cached as real)
    ensures ReadTabbyThroughput(Some(u)).pp.tokenCount == Some(Max(prompt - cached, 0) as real)
  {
    BodySays(u);
    var count := ReadTabbyThroughput(Some(u)).pp.tokenCount;
    assert prompt as real - cached as real == (prompt - cached) as real;
    SameOption(count, Some(Max(prompt - cached, 0) as real));
  }

  /** A frame that states a field replaces it, one that does not keeps it, and an absent observation changes nothing. */
  lemma {:induction false} ObservationReplaces(previous: Metric, next: Metric)
    ensures ObserveMetric(previous, NullMetric(0)) == previous
    ensures next.requestCount > 0 ==> ObserveMetric(NullMetric(0), next) == next
    ensures previous.requestCount > 0 && next.requestCount > 0 ==>
              var m := ObserveMetric(previous, next);
              && IsOneRequest(m)
              && m.tokenCount == (if next.tokenCount.Some? then next.tokenCount else previous.tokenCount)
              && m.durationMs == (if next.durationMs.Some? then next.durationMs else previous.durationMs)
              && m.tabbyWeightedTokens
                   == (if next.tabbyWeightedTokens.Some? then next.tabbyWeightedTokens else previous.tabbyWeightedTokens)
              && m.tabbyDurationMs
                   == (if next.tabbyDurationMs.Some? then next.tabbyDurationMs else previous.tabbyDurationMs)
  {
  }

  // ---------------------------------------------------------------------------------------------
  // Every fold the module can build
  // ---------------------------------------------------------------------------------------------

  datatype Derivation =
    | Empty
    | Unmeasured
    | Read(body: Body)
    | Observe(previous: Derivation, body: Body)
    | Merge(parts: seq<Derivation>)

  function Value(d: Derivation): InferenceThroughput
    decreases d, 0
  {
    match d
    case Empty => EMPTY
    case Unmeasured => UNMEASURED
    case Read(body) => ReadTabbyThroughput(body)
    case Observe(previous, body) => ObserveTabbyThroughput(Value(previous), body)
    case Merge(parts) => MergeInferenceThroughput(Values(parts))
  }

  function Values(parts: seq<Derivation>): (values: seq<InferenceThroughput>)
    ensures |values| == |parts|
    ensures forall i | 0 <= i < |parts| :: values[i] == Value(parts[i])
    decreases parts, 1
  {
    seq(|parts|, i requires 0 <= i < |parts| => Value(parts[i]))
  }

  predicate NonNegative(x: Option<real>) {
    x.None? || x.value >= 0.0
  }

  predicate Whole(x: Option<real>) {
    x.None? || x.value == x.value.Floor as real
  }

  /** Token counts are whole, nothing is negative, the two durations agree, and the missing counters are honest. */
  predicate WellFormed(m: Metric) {
    && Whole(m.tokenCount)
    && NonNegative(m.tokenCount) && NonNegative(m.durationMs) && NonNegative(m.tabbyWeightedTokens)
    && m.durationMs == m.tabbyDurationMs
    && m.missingInternalRequests <= m.requestCount
    && m.missingTabbyRequests <= m.requestCount
    && (m.missingInternalRequests < m.requestCount ==> m.tokenCount.Some? && m.durationMs.Some?)
    && (m.missingTabbyRequests < m.requestCount ==> m.tabbyWeightedTokens.Some?  && m.tabbyDurationMs.Some?)
    && (m.requestCount == 0 ==> m == NullMetric(0))
  }

  predicate WellFormedFold(t: InferenceThroughput) {
    WellFormed(t.pp) && WellFormed(t.decode)
  }

  lemma {:induction false} ReadWellFormed(body: Body)
    ensures WellFormed(ReadMetric(PromptFrame(body))) && WellFormed(ReadMetric(CompletionFrame(body)))
  {
    FrameWellFormed(PromptFrame(body));
    FrameWellFormed(CompletionFrame(body));
  }

  lemma {:induction false} FrameWellFormed(frame: Frame)
    requires frame.Stated? ==> Whole(frame.tokens)
    ensures WellFormed(ReadMetric(frame))
  {
    if frame.Stated? && frame.rate.Some? && frame.seconds.Some? {
      NonNegativeProduct(frame.rate.value, frame.seconds.value * 1000.0 / 1000.0);
    }
  }

  lemma {:induction false} ObserveWellFormed(previous: Metric, next: Metric)
    requires WellFormed(previous) && WellFormed(next)
    ensures WellFormed(ObserveMetric(previous, next))
  {
  }

  lemma {:induction false} AddKeepsWhole(a: Option<real>, b: Option<real>)
    requires Whole(a) && Whole(b)
    ensures Whole(Add(a, b))
  {
    if a.Some? && b.Some? {
      var x, y := a.value.Floor, b.value.Floor;
      assert Add(a, b).value == (x + y) as real;
    }
  }

  lemma {:induction false} CombineWellFormed(a: Metric, b: Metric)
    requires WellFormed(a) && WellFormed(b)
    ensures WellFormed(Combine(a, b))
  {
    assert Whole(Combine(a, b).tokenCount) by { AddKeepsWhole(a.tokenCount, b.tokenCount); }
  }

  lemma {:induction false} MergeWellFormed(values: seq<Metric>)
    requires forall m | m in values :: WellFormed(m)
    ensures WellFormed(MergeMetric(values))
  {
    if values != [] {
      MergeWellFormed(values[..|values| - 1]);
      MergeSplitsLast(values);
      CombineWellFormed(MergeMetric(values[..|values| - 1]), values[|values| - 1]);
    }
  }

  /** Reading, observing and merging in any combination only builds well-formed folds. */
  lemma {:induction false} EveryFoldWellFormed(d: Derivation)
    ensures WellFormedFold(Value(d))
  {
    match d
    case Empty =>
    case Unmeasured =>
    case Read(body) => ReadWellFormed(body);
    case Observe(previous, body) =>
      EveryFoldWellFormed(previous);
      ReadWellFormed(body);
      ObserveWellFormed(Value(previous).pp, ReadMetric(PromptFrame(body)));
      ObserveWellFormed(Value(previous).decode, ReadMetric(CompletionFrame(body)));
    case Merge(parts) =>
      var values := Values(parts);
      forall i | 0 <= i < |parts|
        ensures WellFormedFold(values[i])
      {
        EveryFoldWellFormed(parts[i]);
      }
      MergeWellFormed(PromptMetrics(values));
      MergeWellFormed(DecodeMetrics(values));
  }

  // ---------------------------------------------------------------------------------------------
  // Comparisons
  // ---------------------------------------------------------------------------------------------

  /** Exactly the threshold is a match, in both directions, and a zero reference matches only zero. */
  lemma {:induction false} MatchIsThreshold(internal: real, tabby: real)
    ensures CompareThroughputRate(Some(internal), Some(tabby)).Match?
       <==> Abs(internal - tabby) * 100.0 <= MISMATCH_THRESHOLD_PCT * Abs(tabby)
  {
    if tabby != 0.0 {
      var scale := Abs(tabby);
      var quotient := (internal - tabby) / scale;
      assert quotient * scale == internal - tabby;
      assert Abs(quotient * 100.0) == Abs(quotient) * 100.0;
      ScaledDistance(quotient, 1.0, scale);
    }
  }

  /**
   What a comparison reports besides its verdict: both rates as given, the deviation in percent of the
   reference where that is not zero, and a zero reference as the reason where it is.
   */
  lemma {:induction false} ComparisonReports(internal: Option<real>, tabby: Option<real>)
    ensures var c := CompareThroughputRate(internal, tabby);
            && (c.Unverifiable? <==> internal.None? || tabby.None?)
            && (c.Unverifiable? ==> c.internal == internal && c.tabby == tabby)
            && (!c.Unverifiable? ==>
                  && c.internalRate == internal.value && c.tabbyRate == tabby.value
                  && (c.deltaPct.Some? <==> tabby.value != 0.0)
                  && (c.deltaPct.Some? ==>
                        c.deltaPct.value * Abs(tabby.value) == (internal.value - tabby.value) * 100.0)
                  && (c.Mismatch? ==> (c.zeroReference <==> tabby.value == 0.0)))
  {
    if internal.Some? && tabby.Some? && tabby.value != 0.0 {
      var scale := Abs(tabby.value);
      var quotient := (internal.value - tabby.value) / scale;
      assert quotient * scale == internal.value - tabby.value;
      assert quotient * 100.0 * scale == quotient * scale * 100.0;
    }
  }

  /** A rate is tokens per second: over its time it gives back the count. */
  lemma {:induction false} RateTimesTime(count: Option<real>, durationMs: Option<real>, missing: nat)
    ensures var rate := CalculateRate(count, durationMs, missing);
            && (rate.Some? <==> missing == 0 && count.Some? && durationMs.Some? && durationMs.value > 0.0)
            && (rate.Some? ==> rate.value * durationMs.value == count.value * 1000.0)
  {
    if missing == 0 && count.Some? && durationMs.Some? && durationMs.value > 0.0 {
      var seconds := durationMs.value / 1000.0;
      assert count.value / seconds * seconds == count.value;
      assert durationMs.value == seconds * 1000.0;
    }
  }

  /** Both rates are published: no request is missing either side and the durations are positive. */
  predicate Comparable(m: Metric) {
    InternalRate(m).Some? && ReferenceRate(m).Some?
  }

  /** When the durations agree, a comparable metric matches exactly when its counts are close. */
  lemma {:induction false} MatchIsCloseCounts(m: Metric)
    requires Comparable(m) && m.durationMs == m.tabbyDurationMs && NonNegative(m.tabbyWeightedTokens)
    ensures CompareMetric(m).Match?
       <==> Abs(m.tokenCount.value - m.tabbyWeightedTokens.value) * 100.0
              <= MISMATCH_THRESHOLD_PCT * m.tabbyWeightedTokens.value
  {
    MatchIsThreshold(InternalRate(m).value, ReferenceRate(m).value);
    CloseQuotients(m.tokenCount.value, m.tabbyWeightedTokens.value, m.durationMs.value / 1000.0);
  }

  /** Nothing is missing, time has passed, and the count is within the threshold of the reference weight. */
  predicate CloseCounts(m: Metric) {
    && m.missingInternalRequests == 0 && m.missingTabbyRequests == 0
    && m.durationMs.Some? && m.durationMs.value > 0.0
    && m.tokenCount.Some? && m.tabbyWeightedTokens.Some?
    && Abs(m.tokenCount.value - m.tabbyWeightedTokens.value) * 100.0
         <= MISMATCH_THRESHOLD_PCT * m.tabbyWeightedTokens.value
  }

  /** A fold matches exactly when its counts are close; a fold without both rates matches nothing. */
  lemma {:induction false} MatchIffCloseCounts(m: Metric)
    requires WellFormed(m)
    ensures CompareMetric(m).Match? <==> CloseCounts(m)
  {
    if Comparable(m) {
      MatchIsCloseCounts(m);
    }
  }

  lemma {:induction false} CloseQuotients(count: real, weight: real, seconds: real)
    requires weight >= 0.0 && seconds > 0.0
    ensures weight / seconds >= 0.0
    ensures Abs(count / seconds - weight / seconds) * 100.0 <= MISMATCH_THRESHOLD_PCT * (weight / seconds)
       <==> Abs(count - weight) * 100.0 <= MISMATCH_THRESHOLD_PCT * weight
  {
    var internal, tabby := count / seconds, weight / seconds;
    assert internal * seconds == count && tabby * seconds == weight;
    assert (internal - tabby) * seconds == count - weight;
    ScaledDistance(internal - tabby, tabby, seconds);
  }

  lemma {:induction false} ScaledDistance(d: real, t: real, s: real)
    requires s > 0.0 && t >= 0.0
    ensures Abs(d) * 100.0 <= MISMATCH_THRESHOLD_PCT * t <==> Abs(d * s) * 100.0 <= MISMATCH_THRESHOLD_PCT * (t * s)
  {
    assert Abs(d * s) == Abs(d) * s;
    if Abs(d) * 100.0 <= MISMATCH_THRESHOLD_PCT * t {
      NonNegativeProduct(MISMATCH_THRESHOLD_PCT * t - Abs(d) * 100.0, s);
    } else {
      assert (Abs(d) * 100.0 - MISMATCH_THRESHOLD_PCT * t) * s > 0.0;
    }
  }

  lemma {:induction false} MatchesCombine(a: Metric, b: Metric)
    requires a.durationMs == a.tabbyDurationMs && b.durationMs == b.tabbyDurationMs
    requires NonNegative(a.tabbyWeightedTokens) && NonNegative(b.tabbyWeightedTokens)
    requires CompareMetric(a).Match? && CompareMetric(b).Match?
    ensures CompareMetric(Combine(a, b)).Match?
  {
    MatchIsCloseCounts(a);
    MatchIsCloseCounts(b);
    MatchIsCloseCounts(Combine(a, b));
  }

  lemma {:induction false} MatchesMerge(values: seq<Metric>)
    requires values != []
    requires forall m | m in values :: WellFormed(m) && CompareMetric(m).Match?
    ensures WellFormed(MergeMetric(values))
    ensures CompareMetric(MergeMetric(values)).Match?
  {
    var front, last := values[..|values| - 1], values[|values| - 1];
    MergeSplitsLast(values);
    MergeWellFormed(values);
    assert last in values;
    if front == [] {
      assert values == [last];
      MergeOne(last);
    } else {
      MatchesMerge(front);
      MatchesCombine(MergeMetric(front), last);
    }
  }

  lemma {:induction false} PromptPartsMatch(parts: seq<Derivation>)
    requires parts != []
    requires forall d | d in parts :: CompareMetric(Value(d).pp).Match?
    ensures CompareMetric(MergeMetric(PromptMetrics(Values(parts)))).Match?
  {
    var metrics := PromptMetrics(Values(parts));
    forall i | 0 <= i < |parts|
      ensures WellFormed(metrics[i]) && CompareMetric(metrics[i]).Match?
    {
      EveryFoldWellFormed(parts[i]);
      assert metrics[i] == Value(parts[i]).pp;
    }
    MatchesMerge(metrics);
  }

  lemma {:induction false} DecodePartsMatch(parts: seq<Derivation>)
    requires parts != []
    requires forall d | d in parts :: CompareMetric(Value(d).decode).Match?
    ensures CompareMetric(MergeMetric(DecodeMetrics(Values(parts)))).Match?
  {
    var metrics := DecodeMetrics(Values(parts));
    forall i | 0 <= i < |parts|
      ensures WellFormed(metrics[i]) && CompareMetric(metrics[i]).Match?
    {
      EveryFoldWellFormed(parts[i]);
      assert metrics[i] == Value(parts[i]).decode;
    }
    MatchesMerge(metrics);
  }

  /** If each request's rate matches its own backend rate, the whole cohort's does. */
  lemma {:induction false} MatchingPartsMatchMerged(parts: seq<Derivation>)
    requires parts != []
    ensures (forall d | d in parts :: CompareMetric(Value(d).pp).Match?) ==>
              CompareMetric(Value(Merge(parts)).pp).Match?
    ensures (forall d | d in parts :: CompareMetric(Value(d).decode).Match?) ==>
              CompareMetric(Value(Merge(parts)).decode).Match?
  {
    if forall d | d in parts :: CompareMetric(Value(d).pp).Match? {
      PromptPartsMatch(parts);
    }
    if forall d | d in parts :: CompareMetric(Value(d).decode).Match? {
      DecodePartsMatch(parts);
    }
  }

  /** Without agreeing durations the claim fails: two metrics that match can merge into one that does not. */
  lemma {:induction false} DisagreeingDurationsBreakMatch()
    ensures var a := Metric(Some(100.0), Some(1000.0), Some(100.0), Some(1000.0), 1, 0, 0);
            var b := Metric(Some(1.0), Some(1000.0), Some(10.0), Some(10000.0), 1, 0, 0);
            CompareMetric(a).Match? && CompareMetric(b).Match? && CompareMetric(MergeMetric([a, b])).Mismatch?
  {
    var a := Metric(Some(100.0), Some(1000.0), Some(100.0), Some(1000.0), 1, 0, 0);
    var b := Metric(Some(1.0), Some(1000.0), Some(10.0), Some(10000.0), 1, 0, 0);
    MergeOne(a);
    MergeOne(b);
    MergeAppend([a], [b]);
    assert [a] + [b] == [a, b];
    assert MergeMetric([a, b]) == Metric(Some(101.0), Some(2000.0), Some(110.0), Some(11000.0), 2, 0, 0);
    MatchIsThreshold(100.0, 100.0);
    MatchIsThreshold(1.0, 1.0);
    MatchIsThreshold(50.5, 10.0);
  }

  // ---------------------------------------------------------------------------------------------
  // A cohort's reference rate is a mean
  // ---------------------------------------------------------------------------------------------

  predicate Absent(x: Option<real>) {
    x.None? || x.value == 0.0
  }

  /** Adds nothing to a cohort's reference: no weight and no time. */
  predicate Neutral(m: Metric) {
    m.missingTabbyRequests == 0 && Absent(m.tabbyWeightedTokens) && Absent(m.tabbyDurationMs)
  }

  function Size(x: Option<real>): real {
    if x.None? then 0.0 else x.value
  }

  /** The metric's weight lies between `lo` and `hi` times its time. */
  predicate Within(m: Metric, lo: real, hi: real) {
    lo * (Size(m.tabbyDurationMs) / 1000.0) <= Size(m.tabbyWeightedTokens) <= hi * (Size(m.tabbyDurationMs) / 1000.0)
  }

  lemma {:induction false} NonNegativeProduct(x: real, y: real)
    requires x >= 0.0 && y >= 0.0
    ensures x * y >= 0.0
  {
  }

  lemma {:induction false} RateWithin(m: Metric, lo: real, hi: real)
    requires ReferenceRate(m).Some?
    ensures lo <= ReferenceRate(m).value <= hi <==> Within(m, lo, hi)
  {
    var seconds, rate := m.tabbyDurationMs.value / 1000.0, ReferenceRate(m).value;
    assert rate * seconds == m.tabbyWeightedTokens.value;
    OrderScales(lo, rate, seconds);
    OrderScales(rate, hi, seconds);
  }

  lemma {:induction false} OrderScales(x: real, y: real, s: real)
    requires s > 0.0
    ensures x <= y <==> x * s <= y * s
  {
    if x <= y {
      NonNegativeProduct(y - x, s);
    } else {
      assert (x - y) * s > 0.0;
    }
  }

  lemma {:induction false} WithinCombine(a: Metric, b: Metric, lo: real, hi: real)
    requires Within(a, lo, hi) && Within(b, lo, hi)
    ensures Within(Combine(a, b), lo, hi)
  {
    var s, t := Size(a.tabbyDurationMs) / 1000.0, Size(b.tabbyDurationMs) / 1000.0;
    assert Size(Combine(a, b).tabbyDurationMs) / 1000.0 == s + t;
    assert lo * (s + t) == lo * s + lo * t && hi * (s + t) == hi * s + hi * t;
  }

  lemma {:induction false} WithinMerge(values: seq<Metric>, lo: real, hi: real)
    requires forall m | m in values :: Within(m, lo, hi)
    ensures Within(MergeMetric(values), lo, hi)
  {
    if values != [] {
      WithinMerge(values[..|values| - 1], lo, hi);
      MergeSplitsLast(values);
      WithinCombine(MergeMetric(values[..|values| - 1]), values[|values| - 1], lo, hi);
    }
  }

  /**
   The reference rate of a cohort lies in every interval that holds the reference rates of its members,
   so between the smallest and the largest, as long as members without a rate add no weight and no time.
   */
  lemma {:induction false} ReferenceRateIsMean(values: seq<Metric>, lo: real, hi: real)
    requires forall m | m in values ::
               Neutral(m) || (ReferenceRate(m).Some? && lo <= ReferenceRate(m).value <= hi)
    ensures ReferenceRate(MergeMetric(values)).Some? ==> lo <= ReferenceRate(MergeMetric(values)).value <= hi
  {
    forall m | m in values
      ensures Within(m, lo, hi)
    {
      if !Neutral(m) {
        RateWithin(m, lo, hi);
      }
    }
    WithinMerge(values, lo, hi);
    if ReferenceRate(MergeMetric(values)).Some? {
      RateWithin(MergeMetric(values), lo, hi);
    }
  }

  /** What reading, observing and merging can make of one of the two metrics. */
  ghost predicate IsFold(m: Metric) {
    exists d: Derivation :: m == Value(d).pp || m == Value(d).decode
  }

  /** One request that reports a completion time and a completion rate. */
  function Reports(seconds: Option<Measure>, rate: Option<Measure>): Body {
    Some(Usage(None, None, None, None, None, seconds, rate))
  }

  const UNIT := Read(Reports(Some(1.0), Some(1.0)))

  /** A weight at rate 10 over one second whose time a later frame restates as zero. */
  const TIMELESS := Observe(Read(Reports(Some(1.0), Some(10.0))), Reports(Some(0.0), None))

  /** Two complete requests, the only rate among them 1, and a cohort whose reference rate is 11. */
  lemma {:induction false} TimelessWeightBreaksMean()
    ensures ReferenceRate(Value(UNIT).decode) == Some(1.0)
    ensures Value(TIMELESS).decode.missingTabbyRequests == 0 && ReferenceRate(Value(TIMELESS).decode).None?
    ensures ReferenceRate(Value(Merge([UNIT, TIMELESS])).decode) == Some(11.0)
  {
    var unit, timeless := Value(UNIT).decode, Value(TIMELESS).decode;
    assert unit.tabbyWeightedTokens == Some(1.0) && unit.tabbyDurationMs == Some(1000.0);
    assert timeless.tabbyWeightedTokens == Some(10.0) && timeless.tabbyDurationMs == Some(0.0);
    var values := Values([UNIT, TIMELESS]);
    assert DecodeMetrics(values) == [unit, timeless];
    MergeTwo(unit, timeless);
  }

  lemma {:induction false} NeutralIsHarmless(c: Metric, m: Metric)
    requires Neutral(m) && ReferenceRate(c).Some?
    ensures ReferenceRate(MergeMetric([c, m])) == ReferenceRate(c)
  {
    MergeTwo(c, m);
    assert Combine(c, m).tabbyWeightedTokens == c.tabbyWeightedTokens;
    assert Combine(c, m).tabbyDurationMs == c.tabbyDurationMs;
  }

  /** A complete metric without a rate took no time, so it can only be harmful by its weight. */
  lemma {:induction false} TimelessIs(m: Metric)
    requires WellFormed(m) && m.missingTabbyRequests == 0 && ReferenceRate(m).None?
    ensures Size(m.tabbyDurationMs) == 0.0
    ensures Neutral(m) <==> Size(m.tabbyWeightedTokens) == 0.0
  {
  }

  const UNIT_METRIC := Metric(None, Some(1000.0), Some(1.0), Some(1000.0), 1, 1, 0)

  lemma {:induction false} UnitIsFold()
    ensures Value(UNIT).decode == UNIT_METRIC
    ensures IsFold(UNIT_METRIC)
  {
    var body := Reports(Some(1.0), Some(1.0));
    assert Value(UNIT) == ReadTabbyThroughput(body);
    assert ReadMetric(CompletionFrame(body)) == UNIT_METRIC;
  }

  lemma {:induction false} WeightIsHarmful(m: Metric)
    requires m.missingTabbyRequests == 0
    requires Size(m.tabbyDurationMs) == 0.0 && Size(m.tabbyWeightedTokens) != 0.0
    ensures ReferenceRate(UNIT_METRIC) == Some(1.0)
    ensures ReferenceRate(MergeMetric([UNIT_METRIC, m])) == Some(1.0 + Size(m.tabbyWeightedTokens))
  {
    MergeTwo(UNIT_METRIC, m);
    assert Combine(UNIT_METRIC, m).tabbyDurationMs == Some(1000.0);
    assert Combine(UNIT_METRIC, m).tabbyWeightedTokens == Some(1.0 + Size(m.tabbyWeightedTokens));
  }

  /**
   For a well-formed metric that is not missing its reference yet has no rate, merging it with a fold that
   has a rate leaves that rate alone, for every such fold, exactly when the metric is neutral.
   */
  lemma {:induction false} HarmlessIffNeutral(m: Metric)
    requires WellFormed(m) && m.missingTabbyRequests == 0 && ReferenceRate(m).None?
    ensures Neutral(m) <==>
            forall c: Metric | IsFold(c) && ReferenceRate(c).Some? ::
              ReferenceRate(MergeMetric([c, m])) == ReferenceRate(c)
  {
    TimelessIs(m);
    if Neutral(m) {
      forall c: Metric | IsFold(c) && ReferenceRate(c).Some?
        ensures ReferenceRate(MergeMetric([c, m])) == ReferenceRate(c)
      {
        NeutralIsHarmless(c, m);
      }
    } else {
      UnitIsFold();
      WeightIsHarmful(m);
    }
  }

  /** The members that have a rate of their own. */
  function Timed(values: seq<Metric>): seq<Metric> {
    if values == [] then []
    else Timed(values[..|values| - 1]) +
         if ReferenceRate(values[|values| - 1]).Some? then [values[|values| - 1]] else []
  }

  /** The weight the other members bring. */
  function TimelessWeight(values: seq<Metric>): real {
    if values == [] then 0.0
    else TimelessWeight(values[..|values| - 1]) +
         if ReferenceRate(values[|values| - 1]).Some? then 0.0 else Size(values[|values| - 1].tabbyWeightedTokens)
  }

  predicate Complete(values: seq<Metric>) {
    forall m | m in values :: WellFormed(m) && m.missingTabbyRequests == 0
  }

  lemma {:induction false} SizesAdd(a: Metric, b: Metric)
    ensures Size(Combine(a, b).tabbyDurationMs) == Size(a.tabbyDurationMs) + Size(b.tabbyDurationMs)
    ensures Size(Combine(a, b).tabbyWeightedTokens) == Size(a.tabbyWeightedTokens) + Size(b.tabbyWeightedTokens)
  {
  }

  lemma {:induction false} MergeSnoc(front: seq<Metric>, last: Metric)
    ensures MergeMetric(front + [last]) == Combine(MergeMetric(front), last)
  {
    MergeSplitsLast(front + [last]);
    assert (front + [last])[..|front|] == front;
  }

  lemma {:induction false} TimedSizes(values: seq<Metric>)
    requires Complete(values)
    ensures var all, timed := MergeMetric(values), MergeMetric(Timed(values));
            && Size(all.tabbyDurationMs) == Size(timed.tabbyDurationMs)
            && Size(all.tabbyWeightedTokens) == Size(timed.tabbyWeightedTokens) + TimelessWeight(values)
            && timed.missingTabbyRequests == 0
            && (Timed(values) != [] ==> timed.tabbyWeightedTokens.Some?)
  {
    if values != [] {
      var front, last := values[..|values| - 1], values[|values| - 1];
      TimedSizes(front);
      MergeSplitsLast(values);
      SizesAdd(MergeMetric(front), last);
      if ReferenceRate(last).Some? {
        MergeSnoc(Timed(front), last);
        SizesAdd(MergeMetric(Timed(front)), last);
      } else {
        TimelessIs(last);
        assert Timed(values) == Timed(front);
      }
    }
  }

  lemma {:induction false} TimelessWeightZero(values: seq<Metric>)
    requires Complete(values)
    ensures TimelessWeight(values) >= 0.0
    ensures TimelessWeight(values) == 0.0 <==> forall m | m in values && ReferenceRate(m).None? :: Neutral(m)
  {
    if values != [] {
      TimelessWeightZero(values[..|values| - 1]);
      assert values == values[..|values| - 1] + [values[|values| - 1]];
    }
  }

  lemma {:induction false} QuotientOrder(a: real, b: real, s: real)
    requires s > 0.0
    ensures a / s <= b / s <==> a <= b
    ensures a / s == b / s <==> a == b
  {
    assert a / s * s == a && b / s * s == b;
    OrderScales(a / s, b / s, s);
  }

  lemma {:induction false} TimedMembers(values: seq<Metric>)
    ensures forall m :: m in Timed(values) <==> m in values && ReferenceRate(m).Some?
  {
    if values != [] {
      TimedMembers(values[..|values| - 1]);
      assert values == values[..|values| - 1] + [values[|values| - 1]];
    }
  }

  lemma {:induction false} TimedTakeTime(values: seq<Metric>)
    requires forall m | m in values :: WellFormed(m)
    ensures Size(MergeMetric(Timed(values)).tabbyDurationMs) >= 0.0
    ensures Size(MergeMetric(Timed(values)).tabbyDurationMs) > 0.0 <==> Timed(values) != []
  {
    if values != [] {
      var front, last := values[..|values| - 1], values[|values| - 1];
      TimedTakeTime(front);
      if ReferenceRate(last).Some? {
        assert Timed(values) == Timed(front) + [last];
        MergeSnoc(Timed(front), last);
        SizesAdd(MergeMetric(Timed(front)), last);
      } else {
        assert Timed(values) == Timed(front);
      }
    }
  }

  /** A cohort has a reference rate exactly when no member is missing its reference and some member has a rate. */
  lemma {:induction false} CohortHasRateIff(values: seq<Metric>)
    requires forall m | m in values :: WellFormed(m)
    ensures ReferenceRate(MergeMetric(values)).Some? <==> Complete(values) && Timed(values) != []
    ensures Complete(values) && Timed(values) != [] ==> ReferenceRate(MergeMetric(Timed(values))).Some?
  {
    RateNeedsEveryRequest(values);
    TimedTakeTime(values);
    MissingAdd(values, MissingTabbyOf);
    if Complete(values) && Timed(values) != [] {
      TimedSizes(values);
      WeightStated(values);
    } else if Complete(values) {
      TimedSizes(values);
    }
  }

  lemma {:induction false} WeightStated(values: seq<Metric>)
    requires Complete(values) && Timed(values) != []
    ensures MergeMetric(values).tabbyWeightedTokens.Some?
  {
    var front, last := values[..|values| - 1], values[|values| - 1];
    MergeSplitsLast(values);
    if ReferenceRate(last).None? {
      WeightStated(front);
    }
  }

  /**
   For a complete cohort in which some member has a rate, those that have one have a merged rate between
   their smallest and largest; the cohort's rate is never below it, and is that rate exactly when every
   member without a rate is neutral: it brought no weight.
   */
  lemma {:induction false} RateIsTimedMeanIff(values: seq<Metric>, lo: real, hi: real)
    requires Complete(values) && Timed(values) != []
    requires forall m | m in values && ReferenceRate(m).Some? :: lo <= ReferenceRate(m).value <= hi
    ensures ReferenceRate(MergeMetric(values)).Some? && ReferenceRate(MergeMetric(Timed(values))).Some?
    ensures var rate, timed := ReferenceRate(MergeMetric(values)).value, ReferenceRate(MergeMetric(Timed(values))).value;
            && lo <= timed <= hi
            && timed <= rate
            && (rate == timed <==> forall m | m in values && ReferenceRate(m).None? :: Neutral(m))
  {
    CohortHasRateIff(values);
    TimedMembers(values);
    ReferenceRateIsMean(Timed(values), lo, hi);
    TimedSizes(values);
    TimelessWeightZero(values);
    var all, timed := MergeMetric(values), MergeMetric(Timed(values));
    var seconds := all.tabbyDurationMs.value / 1000.0;
    QuotientOrder(timed.tabbyWeightedTokens.value, all.tabbyWeightedTokens.value, seconds);
  }

  /** By how much a metric's weight falls short of what it would weigh at the rate `hi`. */
  function Gap(m: Metric, hi: real): real {
    hi * (Size(m.tabbyDurationMs) / 1000.0) - Size(m.tabbyWeightedTokens)
  }

  /** By how much the members with a rate fall short, together. */
  function Shortfall(values: seq<Metric>, hi: real): real {
    if values == [] then 0.0
    else
      Shortfall(values[..|values| - 1], hi) +
      if ReferenceRate(values[|values| - 1]).Some? then Gap(values[|values| - 1], hi) else 0.0
  }

  lemma {:induction false} GapsAdd(a: Metric, b: Metric, hi: real)
    ensures Gap(Combine(a, b), hi) == Gap(a, hi) + Gap(b, hi)
  {
    SizesAdd(a, b);
    var s, t := Size(a.tabbyDurationMs) / 1000.0, Size(b.tabbyDurationMs) / 1000.0;
    assert Size(Combine(a, b).tabbyDurationMs) / 1000.0 == s + t;
    assert hi * (s + t) == hi * s + hi * t;
  }

  lemma {:induction false} NoGap(hi: real)
    ensures Gap(MergeMetric([]), hi) == 0.0
  {
  }

  lemma {:induction false} ShortfallIsGap(values: seq<Metric>, hi: real)
    ensures Shortfall(values, hi) == Gap(MergeMetric(Timed(values)), hi)
  {
    if values == [] {
      NoGap(hi);
    } else {
      var front, last := values[..|values| - 1], values[|values| - 1];
      ShortfallIsGap(front, hi);
      if ReferenceRate(last).Some? {
        assert Timed(values) == Timed(front) + [last];
        MergeSnoc(Timed(front), last);
        GapsAdd(MergeMetric(Timed(front)), last, hi);
      } else {
        assert Timed(values) == Timed(front);
      }
    }
  }

  lemma {:induction false} RateAtMostIff(m: Metric, hi: real)
    requires ReferenceRate(m).Some?
    ensures ReferenceRate(m).value <= hi <==> Gap(m, hi) >= 0.0
  {
    var seconds := m.tabbyDurationMs.value / 1000.0;
    assert ReferenceRate(m).value * seconds == m.tabbyWeightedTokens.value;
    OrderScales(ReferenceRate(m).value, hi, seconds);
  }

  lemma {:induction false} GapShift(m: Metric, n: Metric, extra: real, hi: real)
    requires Size(m.tabbyDurationMs) == Size(n.tabbyDurationMs)
    requires Size(m.tabbyWeightedTokens) == Size(n.tabbyWeightedTokens) + extra
    ensures Gap(m, hi) == Gap(n, hi) - extra
  {
  }

  lemma {:induction false} CohortGap(values: seq<Metric>, hi: real)
    requires Complete(values)
    ensures Gap(MergeMetric(values), hi) == Shortfall(values, hi) - TimelessWeight(values)
  {
    TimedSizes(values);
    ShortfallIsGap(values, hi);
    GapShift(MergeMetric(values), MergeMetric(Timed(values)), TimelessWeight(values), hi);
  }

  /**
   A complete cohort's reference rate lies between the smallest and the largest rate of its members exactly
   when the weight of the members without a rate is at most what the others fall short of the largest.
   */
  lemma {:induction false} RateLiesBetweenIff(values: seq<Metric>, lo: real, hi: real)
    requires Complete(values) && Timed(values) != []
    requires forall m | m in values && ReferenceRate(m).Some? :: lo <= ReferenceRate(m).value <= hi
    ensures ReferenceRate(MergeMetric(values)).Some?
    ensures lo <= ReferenceRate(MergeMetric(values)).value <= hi <==> TimelessWeight(values) <= Shortfall(values, hi)
  {
    RateIsTimedMeanIff(values, lo, hi);
    RateAtMostIff(MergeMetric(values), hi);
    CohortGap(values, hi);
  }

  /** Missing requests are conserved, so one unmeasured request withholds the whole cohort's rate. */
  lemma {:induction false} RateNeedsEveryRequest(values: seq<Metric>)
    ensures ReferenceRate(MergeMetric(values)).Some? ==> forall m | m in values :: m.missingTabbyRequests == 0
    ensures InternalRate(MergeMetric(values)).Some? ==> forall m | m in values :: m.missingInternalRequests == 0
  {
    MissingAdd(values, MissingTabbyOf);
    MissingAdd(values, MissingInternalOf);
  }

  lemma {:induction false} MissingAdd(values: seq<Metric>, pick: Metric -> nat)
    ensures SumInt(values, pick) == 0 <==> forall m | m in values :: pick(m) == 0
  {
    if values != [] {
      MissingAdd(values[..|values| - 1], pick);
      assert values == values[..|values| - 1] + [values[|values| - 1]];
    }
  }

  // ---------------------------------------------------------------------------------------------
  // One request is counted once
  // ---------------------------------------------------------------------------------------------

  /** The observation of one request after a sequence of its frames. */
  function ObserveFrames(frames: seq<Frame>): Metric {
    if frames == [] then NullMetric(0)
    else ObserveMetric(ObserveFrames(frames[..|frames| - 1]), ReadMetric(frames[|frames| - 1]))
  }

  function ObserveBodies(bodies: seq<Body>): InferenceThroughput {
    if bodies == [] then EMPTY
    else ObserveTabbyThroughput(ObserveBodies(bodies[..|bodies| - 1]), bodies[|bodies| - 1])
  }

  /** What the last frame that states a field says about it. */
  function LastStated(frames: seq<Frame>, pick: Metric -> Option<real>): Option<real> {
    if frames == [] then None
    else
      var last := pick(ReadMetric(frames[|frames| - 1]));
      if last.Some? then last else LastStated(frames[..|frames| - 1], pick)
  }

  lemma {:induction false} BodiesAreFrames(bodies: seq<Body>)
    ensures ObserveBodies(bodies) == InferenceThroughput(
              ObserveFrames(seq(|bodies|, i requires 0 <= i < |bodies| => PromptFrame(bodies[i]))),
              ObserveFrames(seq(|bodies|, i requires 0 <= i < |bodies| => CompletionFrame(bodies[i]))))
  {
    if bodies != [] {
      var front := bodies[..|bodies| - 1];
      BodiesAreFrames(front);
      var prompt := seq(|bodies|, i requires 0 <= i < |bodies| => PromptFrame(bodies[i]));
      var completion := seq(|bodies|, i requires 0 <= i < |bodies| => CompletionFrame(bodies[i]));
      assert prompt[..|prompt| - 1] == seq(|front|, i requires 0 <= i < |front| => PromptFrame(front[i]));
      assert completion[..|completion| - 1] == seq(|front|, i requires 0 <= i < |front| => CompletionFrame(front[i]));
    }
  }

  /** However many frames one request streams, it is one request whose fields are the last stated ones. */
  lemma {:induction false} FramesFoldToLastStated(frames: seq<Frame>)
    requires frames != []
    ensures ObserveFrames(frames) == BuildMetric(
              LastStated(frames, TokenCountOf), LastStated(frames, DurationOf),
              LastStated(frames, TabbyWeightOf), LastStated(frames, TabbyDurationOf))
  {
    var front := frames[..|frames| - 1];
    if front == [] {
      assert frames == [frames[0]];
    } else {
      FramesFoldToLastStated(front);
    }
  }

  predicate NeverStated(frames: seq<Frame>, pick: Metric -> Option<real>) {
    forall f | f in frames :: pick(ReadMetric(f)).None?
  }

  lemma {:induction false} LastStatedIffStated(frames: seq<Frame>, pick: Metric -> Option<real>)
    ensures LastStated(frames, pick).None? <==> NeverStated(frames, pick)
  {
    if frames != [] {
      var front, last := frames[..|frames| - 1], frames[|frames| - 1];
      LastStatedIffStated(front, pick);
      assert frames == front + [last];
    }
  }

  /**
   One request. It is missing its internal side exactly when no frame stated a token count or none stated a
   time, and its reference side exactly when no single frame stated both a rate and a time: a rate in one
   frame and the time in another do not make a weight.
   */
  lemma {:induction false} MissingIffNeverStated(frames: seq<Frame>)
    requires frames != []
    ensures var m := ObserveFrames(frames);
            && m.requestCount == 1 && m.missingInternalRequests <= 1 && m.missingTabbyRequests <= 1
            && (m.missingInternalRequests == 1 <==>
                  NeverStated(frames, TokenCountOf) || NeverStated(frames, DurationOf))
            && (m.missingTabbyRequests == 1 <==> WeightFrame(frames).None?)
  {
    FramesFoldToLastStated(frames);
    LastStatedIffStated(frames, TokenCountOf);
    LastStatedIffStated(frames, DurationOf);
    WeightComesFromItsFrame(frames);
    TimeComesFromLastSeconds(frames);
  }

  /** A final frame sent again changes nothing. */
  lemma {:induction false} ReplayChangesNothing(frames: seq<Frame>)
    requires frames != []
    ensures ObserveFrames(frames + [frames[|frames| - 1]]) == ObserveFrames(frames)
  {
    var again := frames + [frames[|frames| - 1]];
    FramesFoldToLastStated(frames);
    assert again[..|again| - 1] == frames;
  }

  /** The last frame that states both a rate and a time: the one a request's reference weight comes from. */
  function WeightFrame(frames: seq<Frame>): (f: Option<Frame>)
    ensures f.Some? ==> f.value.Stated? && f.value.rate.Some? && f.value.seconds.Some?
  {
    if frames == [] then None
    else
      var last := frames[|frames| - 1];
      if last.Stated? && last.rate.Some? && last.seconds.Some? then Some(last)
      else WeightFrame(frames[..|frames| - 1])
  }

  lemma {:induction false} WeightComesFromItsFrame(frames: seq<Frame>)
    ensures LastStated(frames, TabbyWeightOf) ==
            match WeightFrame(frames)
            case None => None
            case Some(f) => ToTabbyWeight(f.rate, SecondsToMs(f.seconds))
  {
    if frames != [] {
      WeightComesFromItsFrame(frames[..|frames| - 1]);
    }
  }

  /** The rate the backend reported last, whether or not its frame states a time. */
  function LastRate(frames: seq<Frame>): Option<Measure> {
    if frames == [] then None
    else
      var last := frames[|frames| - 1];
      if last.Stated? && last.rate.Some? then last.rate else LastRate(frames[..|frames| - 1])
  }

  function LastSeconds(frames: seq<Frame>): Option<Measure> {
    if frames == [] then None
    else
      var last := frames[|frames| - 1];
      if last.Stated? && last.seconds.Some? then last.seconds else LastSeconds(frames[..|frames| - 1])
  }

  lemma {:induction false} TimeComesFromLastSeconds(frames: seq<Frame>)
    ensures LastStated(frames, TabbyDurationOf) == SecondsToMs(LastSeconds(frames))
    ensures WeightFrame(frames).Some? ==> LastSeconds(frames).Some? && LastRate(frames).Some?
  {
    if frames != [] {
      TimeComesFromLastSeconds(frames[..|frames| - 1]);
    }
  }

  lemma {:induction false} Milliseconds(rate: real, stated: real, statedMs: real, final: real, finalMs: real)
    requires final > 0.0 && statedMs == stated * 1000.0 && finalMs == final * 1000.0
    ensures rate * (statedMs / 1000.0) / (finalMs / 1000.0) == rate * stated / final
  {
    assert statedMs / 1000.0 == stated && finalMs / 1000.0 == final;
  }

  lemma {:induction false} QuotientIs(rate: real, stated: real, final: real, last: real)
    requires final > 0.0
    ensures rate * stated / final == last <==> rate * stated == last * final
  {
    var quotient := rate * stated / final;
    assert quotient * final == rate * stated;
    if quotient != last {
      assert (quotient - last) * final != 0.0;
    }
  }

  lemma {:induction false} SameOption(a: Option<real>, b: Option<real>)
    ensures a == b <==> a.Some? == b.Some? && (a.Some? ==> a.value == b.value)
  {
  }

  /** One frame stated both a rate and a time, and the last time is positive. */
  predicate Rated(frames: seq<Frame>) {
    WeightFrame(frames).Some? && LastSeconds(frames).Some? && LastSeconds(frames).value > 0.0
  }

  /** The rate of the last frame that states both, rescaled from its own time to the last one. */
  function RescaledRate(frames: seq<Frame>): real
    requires Rated(frames)
  {
    var w := WeightFrame(frames).value;
    w.rate.value * w.seconds.value / LastSeconds(frames).value
  }

  /** A request has a reference rate exactly when it is rated, and then the rescaled one. */
  lemma {:induction false} ReferenceIsRescaledRate(frames: seq<Frame>)
    ensures ReferenceRate(ObserveFrames(frames)).Some? <==> Rated(frames)
    ensures Rated(frames) ==> ReferenceRate(ObserveFrames(frames)).value == RescaledRate(frames)
  {
    if frames != [] {
      FramesFoldToLastStated(frames);
      WeightComesFromItsFrame(frames);
      TimeComesFromLastSeconds(frames);
      if Rated(frames) {
        QuotientOfFrames(ObserveFrames(frames), WeightFrame(frames).value, LastSeconds(frames));
      }
    }
  }

  lemma {:induction false} QuotientOfFrames(m: Metric, w: Frame, final: Option<Measure>)
    requires w.Stated? && w.rate.Some? && w.seconds.Some? && final.Some? && final.value > 0.0
    requires m.missingTabbyRequests == 0 && m.tabbyDurationMs == SecondsToMs(final)
    requires m.tabbyWeightedTokens == ToTabbyWeight(w.rate, SecondsToMs(w.seconds))
    ensures ReferenceRate(m).Some? && ReferenceRate(m).value == w.rate.value * w.seconds.value / final.value
  {
    Milliseconds(w.rate.value, w.seconds.value, SecondsToMs(w.seconds).value, final.value, SecondsToMs(final).value);
  }

  /** The last weight is the one the last rate would have over the last time. */
  predicate WeighsAsReported(frames: seq<Frame>) {
    && Rated(frames) && LastRate(frames).Some?
    && var w := WeightFrame(frames).value;
    w.rate.value * w.seconds.value == LastRate(frames).value * LastSeconds(frames).value
  }

  lemma {:induction false} RescaledIsReported(frames: seq<Frame>)
    requires Rated(frames)
    ensures LastRate(frames).Some?
    ensures RescaledRate(frames) == LastRate(frames).value <==> WeighsAsReported(frames)
  {
    TimeComesFromLastSeconds(frames);
    var w, final, last := WeightFrame(frames).value, LastSeconds(frames).value, LastRate(frames).value;
    QuotientIs(w.rate.value, w.seconds.value, final, last);
  }

  /**
   A request's reference rate is the rate the backend reported last exactly when no rate was reported at all,
   or the last time is positive and the last frame that states both a rate and a time has the same rate times
   time as the last rate and the last time have. A later rate without a time is ignored, a later time without
   a rate rescales the old weight, and a time of zero leaves no rate.
   */
  lemma {:induction false} ReferenceIsReportedRate(frames: seq<Frame>)
    ensures ReferenceRate(ObserveFrames(frames)) == LastRate(frames) <==>
              LastRate(frames).None? || WeighsAsReported(frames)
  {
    ReferenceIsRescaledRate(frames);
    SameOption(ReferenceRate(ObserveFrames(frames)), LastRate(frames));
    if Rated(frames) {
      RescaledIsReported(frames);
    }
  }

  /** A frame that reports a rate without a time changes nothing. */
  lemma {:induction false} RateAloneIgnored(frames: seq<Frame>, rate: Measure)
    requires frames != []
    ensures ObserveFrames(frames + [Stated(None, None, Some(rate))]) == ObserveFrames(frames)
  {
    var more := frames + [Stated(None, None, Some(rate))];
    FramesFoldToLastStated(frames);
    assert more[..|more| - 1] == frames;
  }

  /** A frame that reports a time without a rate keeps the old weight over the new time. */
  lemma {:induction false} TimeAloneRescales(frames: seq<Frame>, seconds: Measure)
    requires frames != []
    ensures ObserveFrames(frames + [Stated(None, Some(seconds), None)]).tabbyWeightedTokens
         == ObserveFrames(frames).tabbyWeightedTokens
    ensures ObserveFrames(frames + [Stated(None, Some(seconds), None)]).tabbyDurationMs == Some(seconds * 1000.0)
  {
    var more := frames + [Stated(None, Some(seconds), None)];
    FramesFoldToLastStated(frames);
    assert more[..|more| - 1] == frames;
  }

  /** The three ways to miss the rate reported last, starting from rate 10. */
  lemma {:induction false} LastRateMissed()
    ensures var first: Frame := Stated(None, Some(1.0), Some(10.0));
            var rateAlone := [first, Stated(None, None, Some(20.0))];
            var timeAlone := [first, Stated(None, Some(2.0), None)];
            var noTime: seq<Frame> := [Stated(None, Some(0.0), Some(10.0))];
            && LastRate(rateAlone) == Some(20.0) && ReferenceRate(ObserveFrames(rateAlone)) == Some(10.0)
            && LastRate(timeAlone) == Some(10.0) && ReferenceRate(ObserveFrames(timeAlone)) == Some(5.0)
            && LastRate(noTime) == Some(10.0) && ReferenceRate(ObserveFrames(noTime)).None?
            && ObserveFrames(noTime).missingTabbyRequests == 0
  {
    var first: Frame := Stated(None, Some(1.0), Some(10.0));
    ObserveOne(first);
    ObserveOne(Stated(None, Some(0.0), Some(10.0)));
    RateAloneIgnored([first], 20.0);
    TimeAloneRescales([first], 2.0);
    assert [first] + [Stated(None, None, Some(20.0))] == [first, Stated(None, None, Some(20.0))];
    assert [first] + [Stated(None, Some(2.0), None)] == [first, Stated(None, Some(2.0), None)];
    FramesFoldToLastStated([first, Stated(None, Some(2.0), None)]);
    assert [first, Stated(None, Some(2.0), None)][..1] == [first];
    assert LastRate([first]) == Some(10.0);
  }

  lemma {:induction false} ObserveOne(frame: Frame)
    ensures ObserveFrames([frame]) == ReadMetric(frame)
  {
    assert [frame][..0] == [];
    assert ObserveFrames([frame][..0]) == NullMetric(0);
  }
}
