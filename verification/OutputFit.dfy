/** Fitting tool output into a token budget by keeping its first or last segments. */
module OutputFit {
  import opened Prelude

  datatype Keep = Head | Tail

  datatype FitInput = FitInput(
    headerText: string, segments: seq<string>, separator: string, maxTokens: real, unitName: string, keep: Keep)

  datatype FitResult = FitResult(
    visibleText: string, returnedLineCount: nat, truncatedLineCount: nat, truncationReason: Option<string>)

  /** What the fitter takes from its environment: a deterministic token counter and string trimming. */
  datatype Environment = Environment(countTokens: string -> nat, trim: string -> string)

  function Join(parts: seq<string>, separator: string): string {
    if parts == [] then ""
    else if |parts| == 1 then parts[0]
    else parts[0] + separator + Join(parts[1..], separator)
  }

  function NonEmpty(text: string): seq<string> {
    if text == "" then [] else [text]
  }

  function Kept(input: FitInput, count: nat): seq<string>
    requires count <= |input.segments|
  {
    var total := |input.segments|;
    if input.keep.Tail? then input.segments[total - count..] else input.segments[..count]
  }

  function NoticeText(missing: nat, unitName: string): string {
    Decimal(missing) + " " + unitName + " truncated due to per-tool context limit."
  }

  function Notice(input: FitInput, count: nat): seq<string>
    requires count <= |input.segments|
  {
    var missing := |input.segments| - count;
    if missing > 0 then [NoticeText(missing, input.unitName)] else []
  }

  /** Header first; the notice stands on the side that was cut. */
  function Parts(header: string, body: string, notice: seq<string>, keep: Keep): seq<string> {
    NonEmpty(header) + if keep.Tail? then notice + NonEmpty(body) else NonEmpty(body) + notice
  }

  /** The text that shows `count` segments. */
  function Candidate(env: Environment, input: FitInput, count: nat): string
    requires count <= |input.segments|
  {
    var body := env.trim(Join(Kept(input, count), input.separator));
    env.trim(Join(Parts(env.trim(input.headerText), body, Notice(input, count), input.keep), input.separator))
  }

  method CollectParts(header: string, body: string, notice: seq<string>, keep: Keep) returns (parts: seq<string>)
    ensures parts == Parts(header, body, notice, keep)
  {
    parts := [];
    if header != "" {
      parts := parts + [header];
    }
    if notice != [] && keep.Tail? {
      parts := parts + notice;
    }
    if body != "" {
      parts := parts + [body];
    }
    if notice != [] && !keep.Tail? {
      parts := parts + notice;
    }
  }

  method BuildCandidate(env: Environment, input: FitInput, count: nat) returns (text: string)
    requires count <= |input.segments|
    ensures text == Candidate(env, input, count)
  {
    var body := env.trim(Join(Kept(input, count), input.separator));
    var parts := CollectParts(env.trim(input.headerText), body, Notice(input, count), input.keep);
    return env.trim(Join(parts, input.separator));
  }

  // ---------------------------------------------------------------------------------------------
  // What a candidate reads like
  // ---------------------------------------------------------------------------------------------

  /** `r` is `t` without the blank characters at its two ends. */
  ghost predicate IsTrimmed(t: string, r: string, blank: char -> bool) {
    exists i, j | 0 <= i <= j <= |t| ::
      && r == t[i..j]
      && (forall c | c in t[..i] || c in t[j..] :: blank(c))
      && (r != "" ==> Solid(r, blank))
  }

  /** Neither end is blank. */
  predicate Solid(s: string, blank: char -> bool) {
    s != "" && !blank(s[0]) && !blank(s[|s| - 1])
  }

  /** Trimming takes away blanks, and neither a digit nor a full stop is one. */
  ghost predicate Trims(trim: string -> string, blank: char -> bool) {
    && (forall t :: IsTrimmed(t, trim(t), blank))
    && (forall c | '0' <= c <= '9' :: !blank(c))
    && !blank('.')
  }

  lemma {:induction false} EndsAreMembers(t: string, i: nat, j: nat)
    requires i <= j <= |t|
    ensures i > 0 ==> t[0] in t[..i]
    ensures j < |t| ==> t[|t| - 1] in t[j..]
  {
    assert i > 0 ==> t[..i][0] == t[0];
    assert j < |t| ==> t[j..][|t| - 1 - j] == t[|t| - 1];
  }

  lemma {:induction false} SolidKept(trim: string -> string, blank: char -> bool, t: string)
    requires Trims(trim, blank) && (t != "" ==> Solid(t, blank))
    ensures trim(t) == t
  {
    assert IsTrimmed(t, trim(t), blank);
    var i, j :| 0 <= i <= j <= |t| && trim(t) == t[i..j] && forall c | c in t[..i] || c in t[j..] :: blank(c);
    EndsAreMembers(t, i, j);
  }

  lemma {:induction false} TrimmedIsSolid(trim: string -> string, blank: char -> bool, t: string)
    requires Trims(trim, blank) && trim(t) != ""
    ensures Solid(trim(t), blank)
  {
    assert IsTrimmed(t, trim(t), blank);
  }

  lemma {:induction false} NoticeIsSolid(trim: string -> string, blank: char -> bool, input: FitInput, count: nat)
    requires Trims(trim, blank) && count < |input.segments|
    ensures |Notice(input, count)| == 1 && Solid(Notice(input, count)[0], blank)
  {
    var notice := Notice(input, count)[0];
    var number := Decimal(|input.segments| - count);
    assert notice[0] == number[0] && number[0] in number;
    assert notice[|notice| - 1] == '.';
  }

  lemma {:induction false} JoinIsSolid(parts: seq<string>, separator: string, blank: char -> bool)
    requires parts != [] && forall p | p in parts :: Solid(p, blank)
    ensures Solid(Join(parts, separator), blank)
  {
    assert Solid(parts[0], blank);
    if |parts| > 1 {
      var rest := Join(parts[1..], separator);
      JoinIsSolid(parts[1..], separator, blank);
      var all := parts[0] + separator + rest;
      assert all[0] == parts[0][0] && all[|all| - 1] == rest[|rest| - 1];
    }
  }

  /** A piece followed by a separator, unless it is empty. */
  function Lead(piece: string, separator: string): string {
    if piece == "" then "" else piece + separator
  }

  function Trail(separator: string, piece: string): string {
    if piece == "" then "" else separator + piece
  }

  /**
   The text that shows `count` segments, spelled out. In tail mode the kept tail ends the text and the notice
   of how many segments are missing stands before it; in head mode the notice ends the text; with all segments
   there is no notice. The header leads, empty pieces leave no separator, and the last trimming of the whole
   takes nothing away.
   */
  lemma {:induction false} CandidateReads(env: Environment, input: FitInput, count: nat, blank: char -> bool)
    requires Trims(env.trim, blank) && count <= |input.segments|
    ensures var header := env.trim(input.headerText);
            var total := |input.segments|;
            var missing := total - count;
            var kept := if input.keep.Tail? then input.segments[missing..] else input.segments[..count];
            var body := env.trim(Join(kept, input.separator));
            Candidate(env, input, count) ==
              if missing == 0 then
                (if header == "" then body else header + Trail(input.separator, body))
              else
                var notice := Decimal(missing) + " " + input.unitName + " truncated due to per-tool context limit.";
                if input.keep.Tail? then Lead(header, input.separator) + notice + Trail(input.separator, body)
                else Lead(header, input.separator) + Lead(body, input.separator) + notice
  {
    var header := env.trim(input.headerText);
    var body := env.trim(Join(Kept(input, count), input.separator));
    PartsAreSolid(env, input, count, blank);
    SolidJoinKept(env.trim, blank, Parts(header, body, Notice(input, count), input.keep), input.separator);
    JoinParts(header, body, Notice(input, count), input.keep, input.separator);
  }

  lemma {:induction false} SolidJoinKept(
      trim: string -> string, blank: char -> bool, parts: seq<string>, separator: string)
    requires Trims(trim, blank) && forall p | p in parts :: Solid(p, blank)
    ensures trim(Join(parts, separator)) == Join(parts, separator)
  {
    if parts != [] {
      JoinIsSolid(parts, separator, blank);
    }
    SolidKept(trim, blank, Join(parts, separator));
  }

  lemma {:induction false} PartsAreSolid(env: Environment, input: FitInput, count: nat, blank: char -> bool)
    requires Trims(env.trim, blank) && count <= |input.segments|
    ensures var body := env.trim(Join(Kept(input, count), input.separator));
            forall p | p in Parts(env.trim(input.headerText), body, Notice(input, count), input.keep) :: Solid(p, blank)
  {
    if env.trim(input.headerText) != "" {
      TrimmedIsSolid(env.trim, blank, input.headerText);
    }
    var kept := Join(Kept(input, count), input.separator);
    if env.trim(kept) != "" {
      TrimmedIsSolid(env.trim, blank, kept);
    }
    if count < |input.segments| {
      NoticeIsSolid(env.trim, blank, input, count);
    }
  }

  lemma {:induction false} JoinLead(piece: string, rest: seq<string>, separator: string)
    requires rest != []
    ensures Join(NonEmpty(piece) + rest, separator) == Lead(piece, separator) + Join(rest, separator)
  {
    if piece == "" {
      assert NonEmpty(piece) + rest == rest;
    } else {
      assert ([piece] + rest)[1..] == rest;
    }
  }

  lemma {:induction false} JoinTrail(piece: string, last: string, separator: string)
    ensures Join([piece] + NonEmpty(last), separator) == piece + Trail(separator, last)
  {
    if last == "" {
      assert [piece] + NonEmpty(last) == [piece];
    } else {
      assert ([piece] + [last])[1..] == [last];
    }
  }

  lemma {:induction false} JoinParts(header: string, body: string, notice: seq<string>, keep: Keep, separator: string)
    requires |notice| <= 1
    ensures Join(Parts(header, body, notice, keep), separator) ==
              if notice == [] then
                (if header == "" then body else header + Trail(separator, body))
              else if keep.Tail? then Lead(header, separator) + notice[0] + Trail(separator, body)
              else Lead(header, separator) + Lead(body, separator) + notice[0]
  {
    var parts := Parts(header, body, notice, keep);
    if notice == [] {
      assert parts == NonEmpty(header) + NonEmpty(body);
      if header != "" {
        JoinTrail(header, body, separator);
      }
    } else if keep.Tail? {
      assert parts == NonEmpty(header) + ([notice[0]] + NonEmpty(body));
      JoinLead(header, [notice[0]] + NonEmpty(body), separator);
      JoinTrail(notice[0], body, separator);
    } else {
      assert parts == NonEmpty(header) + (NonEmpty(body) + [notice[0]]);
      JoinLead(header, NonEmpty(body) + [notice[0]], separator);
      JoinLead(body, [notice[0]], separator);
    }
  }

  function Cost(env: Environment, input: FitInput, count: nat): nat
    requires count <= |input.segments|
  {
    env.countTokens(Candidate(env, input, count))
  }

  /** What the counter says of each candidate. */
  function Costs(env: Environment, input: FitInput): nat -> nat {
    (count: nat) => if count <= |input.segments| then Cost(env, input, count) else 0
  }

  function Budget(input: FitInput): nat {
    Max(1, input.maxTokens.Floor)
  }

  /** Half the budget: what a truncated output is cut down to. */
  function Target(input: FitInput): nat {
    Max(1, Budget(input) / 2)
  }

  /** How many halvings bring n to 0. */
  function Bits(n: nat): nat {
    if n == 0 then 0 else 1 + Bits(n / 2)
  }

  function FloorLog2(n: nat): nat
    requires n > 0
  {
    if n == 1 then 0 else 1 + FloorLog2(n / 2)
  }

  lemma {:induction false} BitsIsFloorLog2(n: nat)
    requires n > 0
    ensures Bits(n) == 1 + FloorLog2(n)
  {
    if n > 1 {
      BitsIsFloorLog2(n / 2);
    }
  }

  lemma {:induction false} BitsMonotone(m: nat, n: nat)
    requires m <= n
    ensures Bits(m) <= Bits(n)
    decreases n
  {
    if m > 0 {
      BitsMonotone(m / 2, n / 2);
    }
  }

  /** One probe leaves at most half of the interval, on either side of the middle. */
  lemma {:induction false} ProbeHalves(low: nat, high: nat)
    requires low <= high
    ensures low <= (low + high) / 2 <= high
    ensures Bits(high - (low + high) / 2) + 1 <= Bits(high + 1 - low)
    ensures Bits((low + high) / 2 - low) + 1 <= Bits(high + 1 - low)
  {
    BitsMonotone(high - (low + high) / 2, (high + 1 - low) / 2);
    BitsMonotone((low + high) / 2 - low, (high + 1 - low) / 2);
  }

  /** None of the counts the search probes while everything is still too long, starting from `high`, fits. */
  predicate DescentFails(costs: nat -> nat, target: nat, high: int)
    decreases high
  {
    high < 0 || (costs(high / 2) > target && DescentFails(costs, target, high / 2 - 1))
  }

  /**
   What the search returns for a list that is too long as a whole: a count below the total that fits
   unless it is 0, and such that one more would not fit, except when nothing on the way down fits.
   */
  ghost predicate IsLargestFound(costs: nat -> nat, target: nat, total: nat, best: nat) {
    && best < total
    && (best > 0 ==> costs(best) <= target)
    && (best > 0 || costs(0) <= target ==> costs(best + 1) > target)
    && (best == 0 && costs(0) > target <==> DescentFails(costs, target, total))
  }

  /** What the search knows: everything below `low` is settled by `best`, and `high + 1` does not fit. */
  ghost predicate Bracket(costs: nat -> nat, target: nat, total: nat, low: int, high: int, best: nat) {
    && 0 <= low <= high + 1 <= total + 1
    && best == (if low == 0 then 0 else low - 1)
    && (low > 0 ==> costs(best) <= target && !DescentFails(costs, target, total))
    && (high < total ==> costs(high + 1) > target)
    && (low == 0 ==> (DescentFails(costs, target, total) <==> DescentFails(costs, target, high)))
  }

  lemma {:induction false} ProbeKeepsBracket(
      costs: nat -> nat, target: nat, total: nat, low: int, high: int, best: nat, mid: nat)
    requires Bracket(costs, target, total, low, high, best) && low <= high && mid == (low + high) / 2
    ensures costs(mid) <= target ==> Bracket(costs, target, total, mid + 1, high, mid)
    ensures costs(mid) > target ==> Bracket(costs, target, total, low, mid - 1, best)
  {
  }

  lemma {:induction false} ClosedBracket(costs: nat -> nat, target: nat, total: nat, low: int, high: int, best: nat)
    requires Bracket(costs, target, total, low, high, best) && low == high + 1
    requires total > 0 && costs(total) > target
    ensures IsLargestFound(costs, target, total, best)
  {
  }

  /** The binary search over how many segments to keep, asking the counter once per probe. */
  method SearchLargest(costs: nat -> nat, target: nat, total: nat) returns (bestCount: nat, probes: nat)
    requires total > 0 && costs(total) > target
    ensures IsLargestFound(costs, target, total, bestCount)
    ensures probes <= Bits(total + 1)
  {
    var low: int, high: int := 0, total;
    bestCount, probes := 0, 0;
    while low <= high
      invariant Bracket(costs, target, total, low, high, bestCount)
      invariant probes + Bits(high + 1 - low) <= Bits(total + 1)
      decreases high + 1 - low
    {
      var mid := (low + high) / 2;
      ProbeHalves(low, high);
      ProbeKeepsBracket(costs, target, total, low, high, bestCount, mid);
      var tokenCount := costs(mid);
      probes := probes + 1;
      if tokenCount <= target {
        bestCount := mid;
        low := mid + 1;
      } else {
        high := mid - 1;
      }
    }
    ClosedBracket(costs, target, total, low, high, bestCount);
  }

  /**
   What the source promises of a fit. A text within budget is returned whole. Otherwise strictly fewer than
   all segments are kept, what is shown costs at most half the budget, or one token if the budget is one,
   unless nothing is kept, and the counter is called at most 2 + floor(log2(segments + 1)) times.
   */
  ghost predicate IsFit(env: Environment, input: FitInput, result: FitResult, calls: nat) {
    var total := |input.segments|;
    if total == 0 then
      result == FitResult(env.trim(input.headerText), 0, 0, None) && calls == 0
    else if Costs(env, input)(total) <= Budget(input) then
      result == FitResult(Candidate(env, input, total), total, 0, None) && calls == 1
    else
      var best := result.returnedLineCount;
      && IsLargestFound(Costs(env, input), Target(input), total, best)
      && result == FitResult(Candidate(env, input, best), best, total - best, Some("per-tool context limit"))
      && calls <= 2 + FloorLog2(total + 1)
  }

  method FitSegments(env: Environment, input: FitInput) returns (result: FitResult, calls: nat)
    ensures IsFit(env, input, result, calls)
  {
    calls := 0;
    var maxTokens := Budget(input);
    var totalCount := |input.segments|;
    if totalCount == 0 {
      return FitResult(env.trim(input.headerText), 0, 0, None), calls;
    }
    var fullText := BuildCandidate(env, input, totalCount);
    calls := calls + 1;
    if env.countTokens(fullText) <= maxTokens {
      return FitResult(fullText, totalCount, 0, None), calls;
    }

    var bestCount, probes := SearchLargest(Costs(env, input), Target(input), totalCount);
    calls := calls + probes;
    BitsIsFloorLog2(totalCount + 1);
    var visibleText := BuildCandidate(env, input, bestCount);
    return FitResult(visibleText, bestCount, totalCount - bestCount, Some("per-tool context limit")), calls;
  }

  /**
   A fit in terms of the budget as given. The whole text is returned exactly when there is nothing to show or its
   cost is at most the budget, or one token where the budget is less. Otherwise twice the cost of what is kept is
   at most the budget, or the cost is one token, unless nothing is kept; and one more segment would not do, unless
   nothing on the way down fits.
   */
  lemma {:induction false} FitWithinHalf(env: Environment, input: FitInput, result: FitResult, calls: nat)
    requires IsFit(env, input, result, calls)
    ensures var total, best, costs := |input.segments|, result.returnedLineCount, Costs(env, input);
            && (result.truncationReason.None? <==>
                  total == 0 || costs(total) as real <= input.maxTokens || costs(total) <= 1)
            && (result.truncationReason.None? ==> best == total && result.truncatedLineCount == 0)
            && (result.truncationReason.Some? ==>
                  && best + result.truncatedLineCount == total && result.truncatedLineCount > 0
                  && (best > 0 ==> (2 * costs(best)) as real <= input.maxTokens || costs(best) <= 1)
                  && (best > 0 ==> (2 * costs(best + 1)) as real > input.maxTokens && costs(best + 1) > 1))
  {
    var total, best, costs := |input.segments|, result.returnedLineCount, Costs(env, input);
    WithinFloor(costs(total), input.maxTokens);
    WithinFloor(2 * costs(best), input.maxTokens);
    WithinFloor(2 * costs(best + 1), input.maxTokens);
  }

  lemma {:induction false} WithinFloor(cost: nat, limit: real)
    ensures cost as real <= limit <==> cost <= limit.Floor
  {
  }

  /** If keeping more never fits where keeping less does not, the count found is the largest that fits. */
  lemma {:induction false} MonotoneFitIsLargest(costs: nat -> nat, target: nat, total: nat, best: nat)
    requires IsLargestFound(costs, target, total, best)
    requires forall m: nat, n: nat | m <= n < total :: costs(n) <= target ==> costs(m) <= target
    ensures forall n: nat | best < n < total :: costs(n) > target
  {
    if best > 0 || costs(0) <= target {
      assert costs(best + 1) > target;
    }
  }

  /**
   For an arbitrary counter, one more segment than the search keeps is over the target except in one
   case, which can be read off the counter beforehand: nothing probed on the way down fits, yet one
   segment does.
   */
  lemma {:induction false} OneMoreWouldExceedIff(costs: nat -> nat, target: nat, total: nat, best: nat)
    requires IsLargestFound(costs, target, total, best)
    ensures costs(best + 1) > target <==> !(DescentFails(costs, target, total) && costs(1) <= target)
  {
  }

  function OneIsCheap(text: string): nat {
    if text != "" && text[0] == '3' then 1 else 9
  }

  function Untrimmed(text: string): string {
    text
  }

  const FOUR_BLANKS := FitInput("", ["", "", "", ""], "", 2.0, "lines", Head)

  /** That case is real: with four segments the search probes 2 and then 0, never 1. */
  lemma {:induction false} OneMoreCanFit(result: FitResult, calls: nat)
    requires IsFit(Environment(OneIsCheap, Untrimmed), FOUR_BLANKS, result, calls)
    ensures result.returnedLineCount == 0
    ensures Costs(Environment(OneIsCheap, Untrimmed), FOUR_BLANKS)(1) <= Target(FOUR_BLANKS)
  {
    BlankCandidate(0);
    BlankCandidate(1);
    BlankCandidate(2);
    BlankCandidate(4);
  }

  lemma {:induction false} BlankCandidate(count: nat)
    requires count <= 4
    ensures Costs(Environment(OneIsCheap, Untrimmed), FOUR_BLANKS)(count) == if count == 1 then 1 else 9
  {
    var kept := Kept(FOUR_BLANKS, count);
    BlanksJoinToNothing(kept);
    var notice := Notice(FOUR_BLANKS, count);
    assert Untrimmed(FOUR_BLANKS.headerText) == "";
    assert Parts("", "", notice, Head) == notice;
    if count < 4 {
      assert |notice| == 1 && Join(notice, "") == notice[0];
      assert Decimal(4 - count) == [DigitOf(4 - count)];
      assert notice[0][0] == DigitOf(4 - count);
      assert Candidate(Environment(OneIsCheap, Untrimmed), FOUR_BLANKS, count) == notice[0];
      assert DigitOf(4 - count) == '3' <==> count == 1;
    }
  }

  lemma {:induction false} BlanksJoinToNothing(parts: seq<string>)
    requires forall i | 0 <= i < |parts| :: parts[i] == ""
    ensures Join(parts, "") == ""
  {
    if |parts| > 1 {
      BlanksJoinToNothing(parts[1..]);
    }
  }
}
