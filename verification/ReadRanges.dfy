/** Which lines of a file a reader has not been given yet: half-open line ranges, sorted and possibly overlapping. */
module ReadRanges {
  import opened Prelude

  /** A range as a caller states it: any two numbers. */
  datatype RawRange = RawRange(start: real, end: real)

  /** Lines `start` up to but not including `end`. */
  datatype Range = Range(start: int, end: int)

  datatype UnreadResult = Unread(start: int, end: int) | NothingUnread(start: int, end: int)

  predicate Covers(r: Range, line: int) {
    r.start <= line < r.end
  }

  predicate Covered(line: int, ranges: seq<Range>) {
    exists i | 0 <= i < |ranges| :: Covers(ranges[i], line)
  }

  predicate NotAfter(a: Range, b: Range) {
    a.start < b.start || (a.start == b.start && a.end <= b.end)
  }

  ghost predicate Sorted(ranges: seq<Range>) {
    forall i, j | 0 <= i < j < |ranges| :: NotAfter(ranges[i], ranges[j])
  }

  lemma {:induction false} SortedSnoc(ranges: seq<Range>, last: Range)
    requires Sorted(ranges) && forall x | x in ranges :: NotAfter(x, last)
    ensures Sorted(ranges + [last])
  {
    assert forall i | 0 <= i < |ranges| :: ranges[i] in ranges;
  }

  function Insert(ranges: seq<Range>, r: Range): (s: seq<Range>)
    requires Sorted(ranges)
    ensures Sorted(s)
    ensures forall x :: x in s <==> x == r || x in ranges
  {
    if ranges == [] then [r]
    else
      var front, last := ranges[..|ranges| - 1], ranges[|ranges| - 1];
      assert forall x | x in front :: NotAfter(x, last);
      assert forall x | x in ranges :: x in front || x == last;
      if NotAfter(last, r) then
        SortedSnoc(ranges, r);
        ranges + [r]
      else
        SortedSnoc(Insert(front, r), last);
        Insert(front, r) + [last]
  }

  /** The array sort by start, then end. */
  function Sort(ranges: seq<Range>): (s: seq<Range>)
    ensures Sorted(s)
    ensures forall x :: x in s <==> x in ranges
  {
    if ranges == [] then []
    else Insert(Sort(ranges[..|ranges| - 1]), ranges[|ranges| - 1])
  }

  /** A stated number as a line number: cut down to a whole number, and 1 for anything smaller. */
  function Line(x: real): (line: int)
    ensures x < 1.0 ==> line == 1
    ensures x >= 1.0 ==> line as real <= x < (line + 1) as real
  {
    Max(1, x.Floor)
  }

  function NonEmptyOnly(ranges: seq<Range>): (s: seq<Range>)
    ensures forall x :: x in s <==> x in ranges && x.end > x.start
  {
    if ranges == [] then []
    else NonEmptyOnly(ranges[..|ranges| - 1]) +
         if ranges[|ranges| - 1].end > ranges[|ranges| - 1].start then [ranges[|ranges| - 1]] else []
  }

  function Normalized(raw: seq<RawRange>): (ranges: seq<Range>)
    ensures |ranges| == |raw|
  {
    seq(|raw|, i requires 0 <= i < |raw| => Range(Line(raw[i].start), Line(raw[i].end)))
  }

  /** Has the line been given by one of the stated ranges, line numbers starting at 1? */
  predicate Returned(line: int, raw: seq<RawRange>) {
    Covered(line, Normalized(raw))
  }

  /** The first range that starts after a line. */
  function FirstStartingAfter(ranges: seq<Range>, line: int): (next: Option<Range>)
    ensures next.None? ==> forall r | r in ranges :: r.start <= line
    ensures next.Some? ==> next.value in ranges && next.value.start > line
    ensures next.Some? && Sorted(ranges) ==> forall r | r in ranges && r.start > line :: next.value.start <= r.start
  {
    if ranges == [] then None
    else if ranges[0].start > line then Some(ranges[0])
    else FirstStartingAfter(ranges[1..], line)
  }

  lemma {:induction false} SameMembersSameCoverage(a: seq<Range>, b: seq<Range>, line: int)
    requires forall x :: x in a && x.end > x.start <==> x in b
    ensures Covered(line, a) <==> Covered(line, b)
  {
    if i :| 0 <= i < |a| && Covers(a[i], line) {
      assert a[i] in b;
    }
    if i :| 0 <= i < |b| && Covers(b[i], line) {
      assert b[i] in a;
    }
  }

  /**
   The specification: `result` is the first maximal run of lines of [from, total) that `given` does not
   cover, and there is none exactly when `given` covers them all.
   */
  ghost predicate IsFirstUnread(from: int, total: int, given: seq<Range>, result: UnreadResult) {
    match result
    case NothingUnread(start, end) =>
      start == end == total && forall line | from <= line < total :: Covered(line, given)
    case Unread(start, end) =>
      && from <= start < end <= total
      && (forall line | from <= line < start :: Covered(line, given))
      && (forall line | start <= line < end :: !Covered(line, given))
      && (end == total || Covered(end, given))
  }

  /** The specification leaves one answer. */
  lemma {:induction false} FirstUnreadUnique(from: int, total: int, given: seq<Range>, a: UnreadResult, b: UnreadResult)
    requires IsFirstUnread(from, total, given, a) && IsFirstUnread(from, total, given, b)
    ensures a == b
  {
    assert a.Unread? ==> !Covered(a.start, given) && (a.end < total ==> Covered(a.end, given));
    assert b.Unread? ==> !Covered(b.start, given) && (b.end < total ==> Covered(b.end, given));
  }

  method FindContiguousUnreadRange(requestedStart: real, totalEnd: real, returnedRanges: seq<RawRange>)
    returns (result: UnreadResult)
    ensures IsFirstUnread(Line(requestedStart), Line(totalEnd), Normalized(returnedRanges), result)
  {
    var given := Normalized(returnedRanges);
    var ranges := Sort(NonEmptyOnly(given));
    result := ScanSorted(Line(requestedStart), Line(totalEnd), ranges);
    SameMembersSameAnswer(Line(requestedStart), Line(totalEnd), given, ranges, result);
  }

  lemma {:induction false} SameMembersSameAnswer(
    from: int, total: int, a: seq<Range>, b: seq<Range>, result: UnreadResult)
    requires forall x :: x in a && x.end > x.start <==> x in b
    requires IsFirstUnread(from, total, b, result)
    ensures IsFirstUnread(from, total, a, result)
  {
    forall line
      ensures Covered(line, a) <==> Covered(line, b)
    {
      SameMembersSameCoverage(a, b, line);
    }
  }

  /** The scan over the sorted, nonempty ranges. */
  method ScanSorted(from: int, total: int, ranges: seq<Range>) returns (result: UnreadResult)
    requires Sorted(ranges) && forall r | r in ranges :: r.start < r.end
    ensures IsFirstUnread(from, total, ranges, result)
  {
    var start := from;
    var i := 0;
    while i < |ranges|
      invariant 0 <= i <= |ranges|
      invariant from <= start
      invariant forall line | from <= line < start :: Covered(line, ranges)
      invariant forall j | 0 <= j < i :: ranges[j].end <= start
    {
      var range := ranges[i];
      if range.end <= start {
        i := i + 1;
        continue;
      }
      if range.start <= start < range.end {
        WideSkip(ranges, i, start);
        start := range.end;
        i := i + 1;
        continue;
      }
      break;
    }
    NotCoveredAt(ranges, i, start);

    if start >= total {
      return NothingUnread(total, total);
    }
    var nextRange := FirstStartingAfter(ranges, start);
    var end := if nextRange.Some? then Min(total, nextRange.value.start) else total;
    assert end > start;  // so the source's last early return is never taken
    NoneBefore(ranges, start, end);
    if nextRange.Some? {
      StartIsCovered(ranges, nextRange.value);
    }
    return Unread(start, end);
  }

  lemma {:induction false} WideSkip(ranges: seq<Range>, i: nat, start: int)
    requires i < |ranges| && Covers(ranges[i], start)
    ensures forall line | start <= line < ranges[i].end :: Covered(line, ranges)
  {
    assert forall line | start <= line < ranges[i].end :: Covers(ranges[i], line);
  }

  /** Where the scan stops, the ranges before end too early and the ranges after start too late. */
  lemma {:induction false} NotCoveredAt(ranges: seq<Range>, i: nat, start: int)
    requires Sorted(ranges) && i <= |ranges|
    requires forall j | 0 <= j < i :: ranges[j].end <= start
    requires i < |ranges| ==> start < ranges[i].start
    ensures !Covered(start, ranges)
  {
    forall j | 0 <= j < |ranges|
      ensures !Covers(ranges[j], start)
    {
      assert j > i ==> NotAfter(ranges[i], ranges[j]);
    }
  }

  lemma {:induction false} StartIsCovered(ranges: seq<Range>, r: Range)
    requires r in ranges && r.start < r.end
    ensures Covered(r.start, ranges)
  {
    var k :| 0 <= k < |ranges| && ranges[k] == r;
    assert Covers(ranges[k], r.start);
  }

  lemma {:induction false} NoneBefore(ranges: seq<Range>, start: int, end: int)
    requires !Covered(start, ranges)
    requires forall r | r in ranges && r.start > start :: end <= r.start
    ensures forall line | start <= line < end :: !Covered(line, ranges)
  {
    forall line, i | start <= line < end && 0 <= i < |ranges|
      ensures !Covers(ranges[i], line)
    {
      assert !Covers(ranges[i], start);
      assert ranges[i] in ranges;
    }
  }

  // ---------------------------------------------------------------------------------------------
  // Recording what was given
  // ---------------------------------------------------------------------------------------------

  function NormalizeRange(r: Range): Range {
    Range(Max(0, r.start), Max(Max(0, r.start), r.end))
  }

  function NormalizeEach(ranges: seq<Range>): (s: seq<Range>)
    ensures |s| == |ranges| && forall i | 0 <= i < |s| :: s[i] == NormalizeRange(ranges[i])
  {
    seq(|ranges|, i requires 0 <= i < |ranges| => NormalizeRange(ranges[i]))
  }

  lemma {:induction false} NormalizingKeepsLines(ranges: seq<Range>, line: int)
    requires line >= 0
    ensures Covered(line, NormalizeEach(ranges)) <==> Covered(line, ranges)
  {
    assert forall i | 0 <= i < |ranges| :: Covers(NormalizeEach(ranges)[i], line) <==> Covers(ranges[i], line);
  }

  lemma {:induction false} CoveredAppend(a: seq<Range>, b: seq<Range>, line: int)
    ensures Covered(line, a + b) <==> Covered(line, a) || Covered(line, b)
  {
    assert forall i | 0 <= i < |a| :: (a + b)[i] == a[i];
    assert forall i | 0 <= i < |b| :: (a + b)[|a| + i] == b[i];
    if i :| 0 <= i < |b| && Covers(b[i], line) {
      assert Covers((a + b)[|a| + i], line);
    }
  }

  /** Pairwise disjoint, not even touching, and in order. */
  ghost predicate Separated(ranges: seq<Range>) {
    && (forall i | 0 <= i < |ranges| :: ranges[i].start < ranges[i].end)
    && (forall i, j | 0 <= i < j < |ranges| :: ranges[i].end < ranges[j].start)
  }

  /** The list a returned range is folded into covers exactly the lines it covered and the new ones. */
  method MergeRange(ranges: seq<Range>, next: Range) returns (merged: seq<Range>)
    ensures forall line | line >= 0 :: Covered(line, merged) <==> Covered(line, ranges) || Covers(next, line)
    ensures NormalizeRange(next).start < NormalizeRange(next).end ==> Separated(merged)
    ensures NormalizeRange(next).start >= NormalizeRange(next).end ==> merged == ranges
  {
    var added := NormalizeRange(next);
    if added.end <= added.start {
      return ranges;
    }
    var all := NormalizeEach(ranges) + [added];
    var sorted := Sort(NonEmptyOnly(all));
    forall line | line >= 0
      ensures Covered(line, sorted) <==> Covered(line, ranges) || Covers(next, line)
    {
      SameMembersSameCoverage(all, sorted, line);
      CoveredAppend(NormalizeEach(ranges), [added], line);
      NormalizingKeepsLines(ranges, line);
      assert Covered(line, [added]) <==> Covers([added][0], line);
    }

    merged := MergeSorted(sorted);
  }

  method MergeSorted(sorted: seq<Range>) returns (merged: seq<Range>)
    requires Sorted(sorted) && forall r | r in sorted :: r.start < r.end
    ensures forall line :: Covered(line, merged) <==> Covered(line, sorted)
    ensures Separated(merged)
  {
    merged := [];
    for k := 0 to |sorted|
      invariant Separated(merged)
      invariant forall line :: Covered(line, merged) <==> Covered(line, sorted[..k])
      invariant merged == [] ==> k == 0
      invariant merged != [] ==> 0 < k && merged[|merged| - 1].start <= sorted[k - 1].start
    {
      var current := sorted[k];
      assert current in sorted;
      assert k > 0 ==> NotAfter(sorted[k - 1], current);
      assert sorted[..k + 1] == sorted[..k] + [current];
      ghost var before := merged;
      if merged == [] || current.start > merged[|merged| - 1].end {
        merged := merged + [current];
      } else {
        var last := merged[|merged| - 1];
        if current.end > last.end {
          merged := merged[..|merged| - 1] + [last.(end := current.end)];
        }
        assert merged == Widened(before, current);
      }
      SeparatedStep(before, current, merged);
      MergeStep(before, current, merged, sorted[..k]);
    }
    assert sorted[..|sorted|] == sorted;
  }

  function Widened(ranges: seq<Range>, current: Range): seq<Range>
    requires ranges != []
  {
    var last := ranges[|ranges| - 1];
    ranges[..|ranges| - 1] + [last.(end := Max(last.end, current.end))]
  }

  lemma {:induction false} SeparatedStep(before: seq<Range>, current: Range, after: seq<Range>)
    requires Separated(before) && current.start < current.end
    requires after == before + [current] || (before != [] && after == Widened(before, current))
    requires after == before + [current] ==> before == [] || before[|before| - 1].end < current.start
    ensures Separated(after)
  {
  }

  lemma {:induction false} MergeStep(before: seq<Range>, current: Range, after: seq<Range>, done: seq<Range>)
    requires forall line :: Covered(line, before) <==> Covered(line, done)
    requires after == before + [current] ||
             (before != [] && before[|before| - 1].start <= current.start <= before[|before| - 1].end &&
              after == Widened(before, current))
    ensures forall line :: Covered(line, after) <==> Covered(line, done + [current])
  {
    forall line
      ensures Covered(line, after) <==> Covered(line, done + [current])
    {
      CoveredAppend(done, [current], line);
      assert Covered(line, [current]) <==> Covers([current][0], line);
      if after == before + [current] {
        CoveredAppend(before, [current], line);
      } else {
        ExtendedLast(before, current, line);
      }
    }
  }

  lemma {:induction false} ExtendedLast(before: seq<Range>, current: Range, line: int)
    requires before != [] && before[|before| - 1].start <= current.start <= before[|before| - 1].end
    ensures Covered(line, Widened(before, current)) <==> Covered(line, before) || Covers(current, line)
  {
    var front, last := before[..|before| - 1], before[|before| - 1];
    var widened := last.(end := Max(last.end, current.end));
    assert before == front + [last];
    CoveredAppend(front, [last], line);
    CoveredAppend(front, [widened], line);
    assert Covered(line, [last]) <==> Covers([last][0], line);
    assert Covered(line, [widened]) <==> Covers([widened][0], line);
  }

  // ---------------------------------------------------------------------------------------------
  // Reading a file piece by piece
  // ---------------------------------------------------------------------------------------------

  /** The lines of [from, stop) that are not covered, in order. */
  function UnreadLines(from: int, stop: int, ranges: seq<Range>): seq<int>
    decreases stop - from
  {
    if from >= stop then []
    else if Covered(from, ranges) then UnreadLines(from + 1, stop, ranges)
    else [from] + UnreadLines(from + 1, stop, ranges)
  }

  /** Each uncovered line is listed exactly once, in ascending order, and nothing else is. */
  lemma {:induction false} UnreadLinesMeaning(from: int, stop: int, ranges: seq<Range>)
    ensures forall line :: line in UnreadLines(from, stop, ranges) <==> from <= line < stop && !Covered(line, ranges)
    ensures forall i, j | 0 <= i < j < |UnreadLines(from, stop, ranges)| ::
              UnreadLines(from, stop, ranges)[i] < UnreadLines(from, stop, ranges)[j]
    decreases stop - from
  {
    if from < stop {
      UnreadLinesMeaning(from + 1, stop, ranges);
      var rest := UnreadLines(from + 1, stop, ranges);
      assert forall i | 0 <= i < |rest| :: rest[i] in rest;
    }
  }

  lemma {:induction false} UnreadLinesSplit(from: int, mid: int, stop: int, ranges: seq<Range>)
    requires from <= mid <= stop
    ensures UnreadLines(from, stop, ranges) == UnreadLines(from, mid, ranges) + UnreadLines(mid, stop, ranges)
    decreases mid - from
  {
    if from < mid {
      UnreadLinesSplit(from + 1, mid, stop, ranges);
    }
  }

  function Consecutive(from: int, stop: int): seq<int>
    decreases stop - from
  {
    if from >= stop then [] else [from] + Consecutive(from + 1, stop)
  }

  lemma {:induction false} AllUnread(from: int, stop: int, ranges: seq<Range>)
    requires forall line | from <= line < stop :: !Covered(line, ranges)
    ensures UnreadLines(from, stop, ranges) == Consecutive(from, stop)
    decreases stop - from
  {
    if from < stop {
      AllUnread(from + 1, stop, ranges);
    }
  }

  lemma {:induction false} NoneUnread(from: int, stop: int, ranges: seq<Range>)
    requires forall line | from <= line < stop :: Covered(line, ranges)
    ensures UnreadLines(from, stop, ranges) == []
    decreases stop - from
  {
    if from < stop {
      NoneUnread(from + 1, stop, ranges);
    }
  }

  function Raw(ranges: seq<Range>): seq<RawRange> {
    seq(|ranges|, i requires 0 <= i < |ranges| => RawRange(ranges[i].start as real, ranges[i].end as real))
  }

  lemma {:induction false} RawKeepsLines(ranges: seq<Range>, line: int)
    requires line >= 1
    ensures Returned(line, Raw(ranges)) <==> Covered(line, ranges)
  {
    assert forall i | 0 <= i < |ranges| ::
        Covers(Normalized(Raw(ranges))[i], line) <==> Covers(ranges[i], line);
  }

  lemma {:induction false} AnswerAboutRecorded(from: int, total: int, ranges: seq<Range>, answer: UnreadResult)
    requires 1 <= from && IsFirstUnread(from, total, Normalized(Raw(ranges)), answer)
    ensures IsFirstUnread(from, total, ranges, answer)
  {
    forall line | line >= 1
      ensures Covered(line, Normalized(Raw(ranges))) <==> Covered(line, ranges)
    {
      RawKeepsLines(ranges, line);
    }
  }

  /** What one round adds when everything before `cursor` is done and [start, stop) is the unread part handed out. */
  lemma {:induction false} RoundAddsUnread(from: int, cursor: int, start: int, stop: int, ranges: seq<Range>)
    requires from <= cursor <= start <= stop
    requires forall line | cursor <= line < start :: Covered(line, ranges)
    requires forall line | start <= line < stop :: !Covered(line, ranges)
    ensures UnreadLines(from, stop, ranges) == UnreadLines(from, cursor, ranges) + Consecutive(start, stop)
  {
    UnreadLinesSplit(from, cursor, stop, ranges);
    UnreadLinesSplit(cursor, start, stop, ranges);
    NoneUnread(cursor, start, ranges);
    AllUnread(start, stop, ranges);
  }

  /**
   The read loop: ask for the unread range from a fixed start, hand out any nonempty prefix of the
   answer (`take` decides how much of round n fits), record it, and ask again. It ends, and the lines
   handed out are exactly the lines that were not covered at the outset, each once and in order.
   */
  method ReadUntilDone(from: nat, total: nat, returned: seq<Range>, take: nat -> nat)
    returns (lines: seq<int>, ranges: seq<Range>)
    requires from >= 1 && total >= 1
    ensures lines == UnreadLines(from, total, returned)
    ensures forall line | from <= line < total :: Covered(line, ranges)
  {
    lines, ranges := [], returned;
    var round: nat := 0;
    ghost var cursor := from;
    while true
      invariant from <= cursor && (cursor <= total || cursor == from)
      invariant lines == UnreadLines(from, cursor, returned)
      invariant forall line | from <= line < cursor :: Covered(line, ranges)
      invariant forall line | cursor <= line :: Covered(line, ranges) <==> Covered(line, returned)
      decreases total - cursor
    {
      var answer := FindContiguousUnreadRange(from as real, total as real, Raw(ranges));
      AnswerAboutRecorded(from, total, ranges, answer);
      if answer.NothingUnread? {
        if cursor <= total {
          UnreadLinesSplit(from, cursor, total, returned);
          NoneUnread(cursor, total, returned);
        }
        return;
      }
      var start, end := answer.start, answer.end;
      assert !Covered(start, ranges);
      var stop := start + 1 + take(round) % (end - start);
      RoundAddsUnread(from, cursor, start, stop, returned);
      lines := lines + Consecutive(start, stop);
      ranges := MergeRange(ranges, Range(start, stop));
      cursor := stop;
      round := round + 1;
    }
  }
}
