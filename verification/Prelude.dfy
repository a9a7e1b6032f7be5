/** Small shared vocabulary: optional values, sums, and the decimal rendering of counters. */
module Prelude {

  datatype Option<+T> = None | Some(value: T)

  function Min(a: int, b: int): int {
    if a <= b then a else b
  }

  function Max(a: int, b: int): int {
    if a >= b then a else b
  }

  /** A template literal renders a non-negative integer counter as its decimal digits. */
  function Decimal(n: nat): (s: string)
    ensures s != []
    ensures forall c | c in s :: '0' <= c <= '9'
  {
    if n < 10 then [DigitOf(n)] else Decimal(n / 10) + [DigitOf(n % 10)]
  }

  function DigitOf(d: nat): (c: char)
    requires d < 10
    ensures '0' <= c <= '9'
  {
    ('0' as int + d) as char
  }

  function DecimalValue(s: string): int {
    if s == [] then 0 else 10 * DecimalValue(s[..|s| - 1]) + (s[|s| - 1] as int - '0' as int)
  }

  lemma {:induction false} DecimalRoundTrip(n: nat)
    ensures DecimalValue(Decimal(n)) == n
  {
    if n < 10 {
      assert Decimal(n)[..0] == [];
    } else {
      DecimalRoundTrip(n / 10);
      var s := Decimal(n);
      assert s[..|s| - 1] == Decimal(n / 10);
    }
  }

  /** Distinct counters render differently. */
  lemma {:induction false} DecimalInjective(m: nat, n: nat)
    requires Decimal(m) == Decimal(n)
    ensures m == n
  {
    DecimalRoundTrip(m);
    DecimalRoundTrip(n);
  }

  /** Splitting at the last occurrence of a separator is unambiguous. */
  lemma {:induction false} SplitAtLast(a: string, b: string, a': string, b': string, separator: char)
    requires a + [separator] + b == a' + [separator] + b'
    requires separator !in b && separator !in b'
    ensures a == a' && b == b'
  {
    var s := a + [separator] + b;
    assert s[|a|] == separator && s[|a'|] == separator;
    assert forall i | |a| < i < |s| :: s[i] == b[i - |a| - 1] != separator;
    assert forall i | |a'| < i < |s| :: s[i] == b'[i - |a'| - 1] != separator;
    assert |a| == |a'|;
    assert a == s[..|a|] == a' && b == s[|a| + 1..] == b';
  }

  /** The sum of a weight over a sequence: counters, measures and token totals are all of this shape. */
  function Total<T>(s: seq<T>, weight: T -> nat): nat {
    if s == [] then 0 else weight(s[0]) + Total(s[1..], weight)
  }

  lemma {:induction false} TotalAppend<T>(s: seq<T>, t: seq<T>, weight: T -> nat)
    ensures Total(s + t, weight) == Total(s, weight) + Total(t, weight)
  {
    if s == [] {
      assert s + t == t;
    } else {
      TotalAppend(s[1..], t, weight);
      assert (s + t)[1..] == s[1..] + t;
    }
  }

  lemma {:induction false} TotalUpdate<T>(s: seq<T>, i: nat, x: T, weight: T -> nat)
    requires i < |s|
    ensures Total(s[i := x], weight) + weight(s[i]) == Total(s, weight) + weight(x)
  {
    if i > 0 {
      TotalUpdate(s[1..], i - 1, x, weight);
      assert s[i := x][1..] == s[1..][i - 1 := x];
    } else {
      assert s[i := x][1..] == s[1..];
    }
  }

  /** A total is zero exactly when every element weighs nothing. */
  lemma {:induction false} TotalZero<T>(s: seq<T>, weight: T -> nat)
    ensures Total(s, weight) == 0 <==> forall i | 0 <= i < |s| :: weight(s[i]) == 0
  {
    if s != [] {
      TotalZero(s[1..], weight);
      assert forall i | 0 < i < |s| :: s[i] == s[1..][i - 1];
    }
  }
}
