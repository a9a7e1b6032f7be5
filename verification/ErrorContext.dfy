/** The lines of a command's output within two of a line that reports an error. */
module ErrorContext {
  import opened Prelude

  predicate NearBy(i: int, j: int) {
    j - 2 <= i <= j + 2
  }

  ghost predicate Near<T>(lines: seq<T>, isError: T -> bool, i: int) {
    exists j :: 0 <= j < |lines| && isError(lines[j]) && NearBy(i, j)
  }

  ghost function NearSet<T>(lines: seq<T>, isError: T -> bool): set<int> {
    set i | 0 <= i < |lines| && Near(lines, isError, i)
  }

  /** The lines whose index is in `keep`, in order, each once. */
  ghost function Pick<T>(lines: seq<T>, keep: set<int>, upTo: nat): seq<T>
    requires upTo <= |lines|
  {
    if upTo == 0 then []
    else Pick(lines, keep, upTo - 1) + if upTo - 1 in keep then [lines[upTo - 1]] else []
  }

  /** What the context is: every line near an error, in order. */
  ghost function Context<T>(lines: seq<T>, isError: T -> bool): seq<T> {
    Pick(lines, NearSet(lines, isError), |lines|)
  }

  lemma {:induction false} PickSame<T>(lines: seq<T>, a: set<int>, b: set<int>, upTo: nat)
    requires upTo <= |lines|
    requires forall i | 0 <= i < upTo :: i in a <==> i in b
    ensures Pick(lines, a, upTo) == Pick(lines, b, upTo)
  {
    if upTo > 0 {
      PickSame(lines, a, b, upTo - 1);
    }
  }

  lemma {:induction false} PickNoneAfter<T>(lines: seq<T>, keep: set<int>, lo: nat, hi: nat)
    requires lo <= hi <= |lines|
    requires forall i | lo <= i < hi :: i !in keep
    ensures Pick(lines, keep, hi) == Pick(lines, keep, lo)
    decreases hi
  {
    if lo < hi {
      PickNoneAfter(lines, keep, lo, hi - 1);
    }
  }

  /** Keeping one more line, after every line kept so far, appends it. */
  lemma {:induction false} PickAppend<T>(lines: seq<T>, keep: set<int>, i: nat)
    requires i < |lines| && forall j | j in keep :: j < i
    ensures Pick(lines, keep + {i}, |lines|) == Pick(lines, keep, |lines|) + [lines[i]]
  {
    PickNoneAfter(lines, keep, i, |lines|);
    PickNoneAfter(lines, keep + {i}, i + 1, |lines|);
    PickSame(lines, keep, keep + {i}, i);
  }

  predicate Within(indexes: seq<int>, i: int) {
    exists k :: 0 <= k < |indexes| && NearBy(i, indexes[k])
  }

  /** The matching indexes found in the first `upTo` lines. */
  predicate Matches<T>(lines: seq<T>, isError: T -> bool, upTo: nat, indexes: seq<int>)
    requires upTo <= |lines|
  {
    && (forall k | 0 <= k < |indexes| :: 0 <= indexes[k] < upTo && isError(lines[indexes[k]]))
    && (forall j, k | 0 <= j < k < |indexes| :: indexes[j] < indexes[k])
    && (forall i: nat | i < upTo && isError(lines[i]) :: i in indexes)
  }

  lemma {:induction false} MatchesAreNear<T>(lines: seq<T>, isError: T -> bool, indexes: seq<int>)
    requires Matches(lines, isError, |lines|, indexes)
    ensures forall i :: Within(indexes, i) <==> Near(lines, isError, i)
  {
    forall i
      ensures Within(indexes, i) <==> Near(lines, isError, i)
    {
      if k :| 0 <= k < |indexes| && NearBy(i, indexes[k]) {
        assert isError(lines[indexes[k]]);
      }
      if j :| 0 <= j < |lines| && isError(lines[j]) && NearBy(i, j) {
        assert j in indexes;
      }
    }
  }

  method FindErrors<T>(lines: seq<T>, isError: T -> bool) returns (indexes: seq<int>)
    ensures Matches(lines, isError, |lines|, indexes)
  {
    indexes := [];
    for index := 0 to |lines|
      invariant Matches(lines, isError, index, indexes)
    {
      if isError(lines[index]) {
        indexes := indexes + [index];
      }
    }
  }

  /** The windows of the first `k` matches, clipped to the list. */
  ghost function Windows(indexes: seq<int>, k: nat, n: nat): set<int>
    requires k <= |indexes|
  {
    set i | 0 <= i < n && Within(indexes[..k], i)
  }

  predicate Between(start: int, i: int, end: int) {
    start <= i < end
  }

  ghost function Span(start: int, end: int): set<int> {
    set i | start <= i < end && Between(start, i, end)
  }

  /** A window may start inside earlier ones, but what it adds lies after all of them. */
  lemma {:induction false} WindowAddsAfter(indexes: seq<int>, k: nat, n: nat, cursor: nat)
    requires k < |indexes| && forall i, j | 0 <= i < j < |indexes| :: indexes[i] < indexes[j]
    requires NearBy(cursor, indexes[k]) && cursor < n && cursor !in Windows(indexes, k, n)
    ensures forall i | i in Windows(indexes, k, n) :: i < cursor
  {
    forall i | i in Windows(indexes, k, n)
      ensures i < cursor
    {
      var m :| 0 <= m < k && NearBy(i, indexes[..k][m]);
      assert indexes[m] < indexes[k];
      assert !Within(indexes[..k], cursor);
      assert !NearBy(cursor, indexes[..k][m]);
    }
  }

  lemma {:induction false} WindowsGrow(indexes: seq<int>, k: nat, n: nat)
    requires k < |indexes| && 0 <= indexes[k] < n
    ensures Windows(indexes, k + 1, n)
         == Windows(indexes, k, n) + Span(Max(indexes[k] - 2, 0), Min(indexes[k] + 2, n - 1) + 1)
  {
    forall i
      ensures Within(indexes[..k + 1], i) <==> Within(indexes[..k], i) || NearBy(i, indexes[k])
    {
      if m :| 0 <= m < k && NearBy(i, indexes[..k][m]) {
        assert indexes[..k + 1][m] == indexes[..k][m];
      }
      assert indexes[..k + 1][k] == indexes[k];
      var grown := indexes[..k + 1];
      if m :| 0 <= m < |grown| && NearBy(i, grown[m]) {
        assert m < k ==> indexes[..k][m] == grown[m];
      }
    }
  }

  method GetErrorContextLines<T>(lines: seq<T>, isError: T -> bool) returns (selected: seq<T>)
    ensures selected == Context(lines, isError)
  {
    var indexes := FindErrors(lines, isError);
    MatchesAreNear(lines, isError, indexes);
    selected := [];
    var seen: set<int> := {};
    PickNoneAfter(lines, seen, 0, |lines|);
    for k := 0 to |indexes|
      invariant seen == Windows(indexes, k, |lines|)
      invariant selected == Pick(lines, seen, |lines|)
    {
      var start, end := Max(indexes[k] - 2, 0), Min(indexes[k] + 2, |lines| - 1);
      ghost var before := seen;
      for cursor := start to end + 1
        invariant seen == before + Span(start, cursor)
        invariant selected == Pick(lines, seen, |lines|)
      {
        if cursor !in seen {
          WindowAddsAfter(indexes, k, |lines|, cursor);
          PickAppend(lines, seen, cursor);
          seen := seen + {cursor};
          selected := selected + [lines[cursor]];
        }
      }
      WindowsGrow(indexes, k, |lines|);
    }
    assert indexes[..|indexes|] == indexes;
    assert seen == NearSet(lines, isError);
  }

  /** A line is in the set exactly when an error is at most two lines away. */
  lemma {:induction false} NearMeansWithinTwo<T>(lines: seq<T>, isError: T -> bool, i: int)
    ensures i in NearSet(lines, isError) <==>
              0 <= i < |lines| &&
              exists j :: 0 <= j < |lines| && isError(lines[j]) && -2 <= i - j <= 2
  {
    if j :| 0 <= j < |lines| && isError(lines[j]) && -2 <= i - j <= 2 {
      assert NearBy(i, j);
    }
  }

  // ---------------------------------------------------------------------------------------------
  // What the context keeps
  // ---------------------------------------------------------------------------------------------

  /** A kept line stands after the kept lines before it. */
  lemma {:induction false} PickAt<T>(lines: seq<T>, keep: set<int>, i: nat, upTo: nat)
    requires i < upTo <= |lines| && i in keep
    ensures |Pick(lines, keep, i)| < |Pick(lines, keep, upTo)|
    ensures Pick(lines, keep, upTo)[|Pick(lines, keep, i)|] == lines[i]
    decreases upTo
  {
    if i < upTo - 1 {
      PickAt(lines, keep, i, upTo - 1);
    }
  }

  lemma {:induction false} PickFrom<T>(lines: seq<T>, keep: set<int>, upTo: nat, k: nat) returns (i: nat)
    requires upTo <= |lines| && k < |Pick(lines, keep, upTo)|
    ensures i < upTo && i in keep && |Pick(lines, keep, i)| == k
  {
    if k < |Pick(lines, keep, upTo - 1)| {
      i := PickFrom(lines, keep, upTo - 1, k);
    } else {
      i := upTo - 1;
    }
  }

  lemma {:induction false} PickSpan<T>(lines: seq<T>, keep: set<int>, i: nat, j: nat)
    requires i <= j <= |lines| && forall m | i <= m < j :: m in keep
    ensures |Pick(lines, keep, j)| == |Pick(lines, keep, i)| + j - i
    decreases j
  {
    if i < j {
      PickSpan(lines, keep, i, j - 1);
    }
  }

  /** The context is empty exactly when no line reports an error. */
  lemma {:induction false} ContextEmptyIff<T>(lines: seq<T>, isError: T -> bool)
    ensures Context(lines, isError) == [] <==> forall j | 0 <= j < |lines| :: !isError(lines[j])
  {
    var keep := NearSet(lines, isError);
    if j :| 0 <= j < |lines| && isError(lines[j]) {
      assert Near(lines, isError, j);
      PickAt(lines, keep, j, |lines|);
    } else {
      PickNoneAfter(lines, keep, 0, |lines|);
    }
  }

  /** A kept line is within two of an error in the context, too. */
  lemma {:induction false} NearInContext<T>(lines: seq<T>, isError: T -> bool, k: nat)
    requires k < |Context(lines, isError)|
    ensures Near(Context(lines, isError), isError, k)
  {
    var keep, context := NearSet(lines, isError), Context(lines, isError);
    var i := PickFrom(lines, keep, |lines|, k);
    var j :| 0 <= j < |lines| && isError(lines[j]) && NearBy(i, j);
    assert forall m | 0 <= m < |lines| && NearBy(m, j) :: Near(lines, isError, m);
    PickAt(lines, keep, j, |lines|);
    PickSpan(lines, keep, Min(i, j), Max(i, j));
    assert isError(context[|Pick(lines, keep, j)|]);
  }

  lemma {:induction false} PickAll<T>(lines: seq<T>, keep: set<int>, upTo: nat)
    requires upTo <= |lines| && forall i | 0 <= i < upTo :: i in keep
    ensures Pick(lines, keep, upTo) == lines[..upTo]
  {
    if upTo > 0 {
      PickAll(lines, keep, upTo - 1);
    }
  }

  /** Taking the context of a context changes nothing. */
  lemma {:induction false} ContextTwice<T>(lines: seq<T>, isError: T -> bool)
    ensures Context(Context(lines, isError), isError) == Context(lines, isError)
  {
    var context := Context(lines, isError);
    forall k | 0 <= k < |context|
      ensures k in NearSet(context, isError)
    {
      NearInContext(lines, isError, k);
    }
    PickAll(context, NearSet(context, isError), |context|);
    assert context[..|context|] == context;
  }
}
