/** Command output reducers: run-length compression of repeated lines, and the lines around errors. */
module OutputReducers {
  import opened Prelude

  // ---------------------------------------------------------------------------------------------
  // Repeated lines
  // ---------------------------------------------------------------------------------------------

  /** A line of compressed output, before a marker is rendered as text. */
  datatype OutLine<+T> = Plain(text: T) | Marker(text: T, count: nat)

  function Repeat<T>(x: T, count: nat): seq<T> {
    seq(count, _ => x)
  }

  /** What a maximal run becomes. */
  function Block<T>(x: T, count: nat): seq<OutLine<T>> {
    if count > 3 then [Marker(x, count)] else Repeat(Plain(x), count)
  }

  /** The length of the run of `x` a list starts with. */
  function RunOf<T(==)>(x: T, lines: seq<T>): (k: nat)
    ensures k <= |lines|
    ensures lines[..k] == Repeat(x, k) && (k < |lines| ==> lines[k] != x)
  {
    if lines == [] || lines[0] != x then 0
    else
      var k := RunOf(x, lines[1..]);
      assert lines[..k + 1] == [x] + lines[1..][..k] == Repeat(x, k + 1);
      k + 1
  }

  function Compress<T(==)>(lines: seq<T>): seq<OutLine<T>>
    decreases |lines|
  {
    if lines == [] then []
    else
      var k := RunOf(lines[0], lines);
      Block(lines[0], k) + Compress(lines[k..])
  }

  function Expand<T>(line: OutLine<T>): seq<T> {
    if line.Plain? then [line.text] else Repeat(line.text, line.count)
  }

  function Decode<T>(out: seq<OutLine<T>>): seq<T> {
    if out == [] then [] else Expand(out[0]) + Decode(out[1..])
  }

  predicate FourEqual<T(==)>(s: seq<T>, i: int) {
    0 <= i < |s| - 3 && s[i] == s[i + 1] == s[i + 2] == s[i + 3]
  }

  /** Two neighbours of one text. */
  predicate Adjoin<T(==)>(out: seq<OutLine<T>>, i: int) {
    0 <= i < |out| - 1 && out[i].text == out[i + 1].text
  }

  /** Plain lines stand at most three in a row, markers for four or more, and a marker takes its whole run. */
  ghost predicate Canonical<T>(out: seq<OutLine<T>>) {
    && (forall i | 0 <= i < |out| && out[i].Marker? :: out[i].count > 3)
    && (forall i | Adjoin(out, i) :: out[i].Plain? && out[i + 1].Plain?)
    && (forall i :: !FourEqual(out, i))
  }

  lemma {:induction false} Associate<T>(a: seq<T>, b: seq<T>, c: seq<T>)
    ensures (a + b) + c == a + (b + c)
  {
  }

  lemma {:induction false} DecodeCons<T>(x: OutLine<T>, rest: seq<OutLine<T>>)
    ensures Decode([x] + rest) == Expand(x) + Decode(rest)
  {
    assert ([x] + rest)[1..] == rest;
  }

  lemma {:induction false} DecodeAppend<T>(a: seq<OutLine<T>>, b: seq<OutLine<T>>)
    ensures Decode(a + b) == Decode(a) + Decode(b)
  {
    if a == [] {
      assert a + b == b;
    } else {
      var x, rest := a[0], a[1..];
      DecodeAppend(rest, b);
      assert a == [x] + rest && a + b == [x] + (rest + b);
      DecodeCons(x, rest);
      DecodeCons(x, rest + b);
      Associate(Expand(x), Decode(rest), Decode(b));
    }
  }

  lemma {:induction false} DecodeBlock<T>(x: T, count: nat)
    ensures Decode(Block(x, count)) == Repeat(x, count)
  {
    if count <= 3 {
      DecodePlain(x, count);
    } else {
      assert Decode(Block(x, count)[1..]) == [];
    }
  }

  lemma {:induction false} DecodePlain<T>(x: T, count: nat)
    ensures Decode(Repeat(Plain(x), count)) == Repeat(x, count)
  {
    if count > 0 {
      DecodePlain(x, count - 1);
      assert Repeat(Plain(x), count)[1..] == Repeat(Plain(x), count - 1);
    }
  }

  lemma {:induction false} CompressStep<T>(lines: seq<T>) returns (k: nat, rest: seq<T>)
    requires lines != []
    ensures k > 0 && lines == Repeat(lines[0], k) + rest
    ensures Compress(lines) == Block(lines[0], k) + Compress(rest)
  {
    k := RunOf(lines[0], lines);
    rest := lines[k..];
  }

  lemma {:induction false} DecodeJoin<T>(x: T, k: nat, rest: seq<OutLine<T>>)
    ensures Decode(Block(x, k) + rest) == Repeat(x, k) + Decode(rest)
  {
    DecodeBlock(x, k);
    DecodeAppend(Block(x, k), rest);
  }

  /** Nothing is lost: the compressed output decodes to the input. */
  lemma {:induction false} DecodeCompress<T>(lines: seq<T>)
    ensures Decode(Compress(lines)) == lines
    decreases |lines|
  {
    if lines != [] {
      var k, rest := CompressStep(lines);
      DecodeCompress(rest);
      DecodeJoin(lines[0], k, Compress(rest));
    }
  }

  lemma {:induction false} CompressHead<T>(lines: seq<T>)
    ensures lines == [] <==> Compress(lines) == []
    ensures lines != [] ==> Compress(lines)[0].text == lines[0]
  {
  }

  lemma {:induction false} CompressCanonical<T>(lines: seq<T>)
    ensures Canonical(Compress(lines))
    decreases |lines|
  {
    if lines != [] {
      var x, k := lines[0], RunOf(lines[0], lines);
      var rest := Compress(lines[k..]);
      CompressCanonical(lines[k..]);
      CompressHead(lines[k..]);
      BlockCanonical(x, k);
      CanonicalAppend(Block(x, k), rest);
    }
  }

  lemma {:induction false} BlockCanonical<T>(x: T, k: nat)
    ensures Canonical(Block(x, k))
  {
  }

  lemma {:induction false} CanonicalAppend<T>(a: seq<OutLine<T>>, b: seq<OutLine<T>>)
    requires Canonical(a) && Canonical(b)
    requires a != [] && b != [] ==> a[|a| - 1].text != b[0].text
    ensures Canonical(a + b)
  {
    var out := a + b;
    forall i | Adjoin(out, i)
      ensures out[i].Plain? && out[i + 1].Plain?
    {
      if i < |a| - 1 {
        assert Adjoin(a, i);
      } else if i >= |a| {
        assert Adjoin(b, i - |a|);
      }
    }
    forall i
      ensures !FourEqual(out, i)
    {
      if 0 <= i < |a| - 3 {
        assert !FourEqual(a, i);
      } else if i >= |a| {
        assert !FourEqual(b, i - |a|);
      } else if |a| - 3 <= i < |a| && 0 <= i < |out| - 3 {
        assert out[|a| - 1] != out[|a|];
      }
    }
  }

  lemma {:induction false} CanonicalSuffix<T>(out: seq<OutLine<T>>, from: nat)
    requires Canonical(out) && from <= |out|
    ensures Canonical(out[from..])
  {
    var rest := out[from..];
    forall i | Adjoin(rest, i)
      ensures rest[i].Plain? && rest[i + 1].Plain?
    {
      assert Adjoin(out, from + i);
    }
    forall i
      ensures !FourEqual(rest, i)
    {
      if 0 <= i {
        assert !FourEqual(out, from + i);
      }
    }
  }

  /** The length of the run of plain lines `x` at the head of a canonical output. */
  function PlainRun<T(==)>(x: T, out: seq<OutLine<T>>): (k: nat)
    ensures k <= |out|
    ensures out[..k] == Repeat(Plain(x), k) && (k < |out| ==> out[k] != Plain(x))
  {
    if out == [] || out[0] != Plain(x) then 0
    else
      var k := PlainRun(x, out[1..]);
      assert out[..k + 1] == [Plain(x)] + out[1..][..k] == Repeat(Plain(x), k + 1);
      k + 1
  }

  lemma {:induction false} DecodeHead<T>(out: seq<OutLine<T>>)
    requires Canonical(out)
    ensures out == [] <==> Decode(out) == []
    ensures out != [] ==> Decode(out)[0] == out[0].text
  {
  }

  lemma {:induction false} RunPrepended<T>(x: T, k: nat, rest: seq<T>)
    requires rest != [] ==> rest[0] != x
    ensures RunOf(x, Repeat(x, k) + rest) == k
  {
    var lines := Repeat(x, k) + rest;
    var r := RunOf(x, lines);
    assert forall i | 0 <= i < k :: lines[i] == x;
    assert forall i | 0 <= i < r :: lines[i] == lines[..r][i] == x;
    assert k < |lines| ==> lines[k] == rest[0];
  }

  lemma {:induction false} PlainRunShort<T>(x: T, out: seq<OutLine<T>>)
    requires Canonical(out)
    ensures PlainRun(x, out) <= 3
  {
    var k := PlainRun(x, out);
    assert forall i | 0 <= i < k :: out[i] == out[..k][i] == Plain(x);
    assert !FourEqual(out, 0);
  }

  /** The block a canonical output starts with. */
  lemma {:induction false} FirstBlock<T>(out: seq<OutLine<T>>) returns (k: nat, b: nat)
    requires Canonical(out) && out != []
    ensures 0 < b <= |out| && k > 0
    ensures out[..b] == Block(out[0].text, k)
    ensures b < |out| ==> out[b].text != out[0].text
  {
    var x := out[0].text;
    if out[0].Marker? {
      k, b := out[0].count, 1;
      assert !Adjoin(out, 0);
    } else {
      k := PlainRun(x, out);
      b := k;
      PlainRunShort(x, out);
      assert out[..k][k - 1] == Plain(x);
      var joined := Adjoin(out, k - 1);
    }
  }

  /** Every canonical output is the compression of what it decodes to, and of nothing else. */
  lemma {:induction false} CompressDecode<T>(out: seq<OutLine<T>>)
    requires Canonical(out)
    ensures Compress(Decode(out)) == out
    decreases |out|
  {
    if out != [] {
      var x := out[0].text;
      var k, b := FirstBlock(out);
      var rest := out[b..];
      CanonicalSuffix(out, b);
      CompressDecode(rest);
      DecodeHead(rest);
      DecodeBlock(x, k);
      DecodeAppend(out[..b], rest);
      assert out == out[..b] + rest;
      assert Decode(out) == Repeat(x, k) + Decode(rest);
      RunPrepended(x, k, Decode(rest));
      assert Decode(out)[k..] == Decode(rest);
    }
  }


  function AllPlain<T>(lines: seq<T>): seq<OutLine<T>> {
    seq(|lines|, i requires 0 <= i < |lines| => Plain(lines[i]))
  }

  lemma {:induction false} DecodeAllPlain<T>(lines: seq<T>)
    ensures Decode(AllPlain(lines)) == lines
  {
    if lines != [] {
      DecodeAllPlain(lines[1..]);
      assert AllPlain(lines)[1..] == AllPlain(lines[1..]);
    }
  }

  /** Every marker stands for more lines than it takes. */
  lemma {:induction false} DecodeLength<T>(out: seq<OutLine<T>>)
    requires forall i | 0 <= i < |out| && out[i].Marker? :: out[i].count > 3
    ensures |out| <= |Decode(out)|
    ensures |out| == |Decode(out)| ==> forall i | 0 <= i < |out| :: out[i].Plain?
  {
    if out != [] {
      DecodeLength(out[1..]);
      assert forall i | 0 < i < |out| :: out[i] == out[1..][i - 1];
    }
  }

  lemma {:induction false} AllPlainIsPlain<T>(out: seq<OutLine<T>>)
    requires forall i | 0 <= i < |out| :: out[i].Plain?
    ensures out == AllPlain(Decode(out))
  {
    if out != [] {
      AllPlainIsPlain(out[1..]);
      var rest := Decode(out[1..]);
      assert Decode(out) == [out[0].text] + rest;
      assert AllPlain(Decode(out)) == [out[0]] + AllPlain(rest);
    }
  }

  /** Compression never lengthens, and leaves the list as it is exactly when no line stands four times in a row. */
  lemma {:induction false} CompressNeverLengthens<T>(lines: seq<T>)
    ensures |Compress(lines)| <= |lines|
    ensures |Compress(lines)| == |lines| <==> forall i :: !FourEqual(lines, i)
    ensures (forall i :: !FourEqual(lines, i)) ==> Compress(lines) == AllPlain(lines)
  {
    CompressCanonical(lines);
    DecodeCompress(lines);
    DecodeLength(Compress(lines));
    DecodeAllPlain(lines);
    if (forall i :: !FourEqual(lines, i)) {
      forall i
        ensures !FourEqual(AllPlain(lines), i)
      {
        assert !FourEqual(lines, i);
      }
      CompressDecode(AllPlain(lines));
    }
    if |Compress(lines)| == |lines| {
      AllPlainIsPlain(Compress(lines));
      forall i
        ensures !FourEqual(lines, i)
      {
        assert !FourEqual(AllPlain(lines), i);
      }
    }
  }

  lemma {:induction false} CompressRun<T>(lines: seq<T>, from: nat, index: nat, x: T)
    requires from < index <= |lines| && lines[from..index] == Repeat(x, index - from)
    requires index < |lines| ==> lines[index] != x
    ensures Compress(lines[from..]) == Block(x, index - from) + Compress(lines[index..])
  {
    var rest := lines[from..];
    assert rest[index - from..] == lines[index..];
    assert rest == Repeat(x, index - from) + lines[index..];
    RunPrepended(x, index - from, lines[index..]);
    assert rest[0] == lines[from..index][0] == x;
  }

  /** A run of `x` from `from` to `index` is being counted, and `result` stands for the lines before it. */
  ghost predicate Counting<T>(lines: seq<T>, result: seq<OutLine<T>>, from: nat, index: nat, x: T, count: nat) {
    && count > 0 && from + count == index <= |lines|
    && lines[from..index] == Repeat(x, count)
    && result + Compress(lines[from..]) == Compress(lines)
  }

  lemma {:induction false} StartCounting<T>(lines: seq<T>)
    requires lines != []
    ensures Counting(lines, [], 0, 1, lines[0], 1)
  {
    assert lines[0..] == lines;
  }

  lemma {:induction false} CountOn<T>(
      lines: seq<T>, result: seq<OutLine<T>>, from: nat, index: nat, x: T, count: nat)
    requires Counting(lines, result, from, index, x, count) && index < |lines| && lines[index] == x
    ensures Counting(lines, result, from, index + 1, x, count + 1)
  {
    assert lines[from..index + 1] == lines[from..index] + [x];
  }

  lemma {:induction false} FlushRun<T>(
      lines: seq<T>, result: seq<OutLine<T>>, from: nat, index: nat, x: T, count: nat)
    requires Counting(lines, result, from, index, x, count) && (index < |lines| ==> lines[index] != x)
    ensures var pushed := result + Block(x, count);
            if index < |lines| then Counting(lines, pushed, index, index + 1, lines[index], 1)
            else pushed == Compress(lines)
  {
    CompressRun(lines, from, index, x);
    Associate(result, Block(x, count), Compress(lines[index..]));
  }

  method CompressRepeatedLines<T(==)>(lines: seq<T>) returns (result: seq<OutLine<T>>)
    ensures result == Compress(lines)
  {
    if lines == [] {
      return [];
    }
    result := [];
    var current, count := lines[0], 1;
    ghost var from: nat := 0;
    StartCounting(lines);
    for index := 1 to |lines|
      invariant Counting(lines, result, from, index, current, count)
    {
      if lines[index] == current {
        CountOn(lines, result, from, index, current, count);
        count := count + 1;
      } else {
        FlushRun(lines, result, from, index, current, count);
        result := PushRun(result, current, count);
        current, count, from := lines[index], 1, index;
      }
    }
    FlushRun(lines, result, from, |lines|, current, count);
    result := PushRun(result, current, count);
  }

  method PushRun<T>(result: seq<OutLine<T>>, current: T, count: nat) returns (pushed: seq<OutLine<T>>)
    ensures pushed == result + Block(current, count)
  {
    if count > 3 {
      return result + [Marker(current, count)];
    }
    pushed := result;
    for repeat := 0 to count
      invariant pushed == result + Repeat(Plain(current), repeat)
    {
      pushed := pushed + [Plain(current)];
    }
  }

  // ---------------------------------------------------------------------------------------------
  // Markers as text
  // ---------------------------------------------------------------------------------------------

  function MarkerText(x: string, count: nat): string {
    x + " [repeated" + " " + Decimal(count) + " times]"
  }

  function Render(line: OutLine<string>): string {
    match line
    case Plain(x) => x
    case Marker(x, count) => MarkerText(x, count)
  }

  function Rendered(lines: seq<string>): seq<string> {
    var out := Compress(lines);
    seq(|out|, i requires 0 <= i < |out| => Render(out[i]))
  }

  lemma {:induction false} MarkerTextInjective(x: string, m: nat, y: string, n: nat)
    requires MarkerText(x, m) == MarkerText(y, n)
    ensures x == y && m == n
  {
    var a, b := x + " [repeated", y + " [repeated";
    var tail := " times]";
    assert MarkerText(x, m) == (a + " " + Decimal(m)) + tail;
    assert MarkerText(y, n) == (b + " " + Decimal(n)) + tail;
    assert a + " " + Decimal(m) == MarkerText(x, m)[..|MarkerText(x, m)| - |tail|];
    assert b + " " + Decimal(n) == MarkerText(y, n)[..|MarkerText(y, n)| - |tail|];
    SplitAtLast(a, Decimal(m), b, Decimal(n), ' ');
    DecimalInjective(m, n);
    assert x == a[..|a| - 10] && y == b[..|b| - 10];
  }

  ghost predicate Over(lines: seq<string>, alphabet: iset<string>) {
    forall x | x in lines :: x in alphabet
  }

  /** A line of the alphabet that reads as the marker of another. */
  ghost predicate Confusable(alphabet: iset<string>, x: string, count: nat) {
    count > 3 && x in alphabet && MarkerText(x, count) in alphabet
  }

  lemma {:induction false} RenderInjective(a: OutLine<string>, b: OutLine<string>, alphabet: iset<string>)
    requires Render(a) == Render(b) && a.text in alphabet && b.text in alphabet
    requires (a.Marker? ==> a.count > 3) && (b.Marker? ==> b.count > 3)
    requires forall x, count :: !Confusable(alphabet, x, count)
    ensures a == b
  {
    assert a.Marker? ==> !Confusable(alphabet, a.text, a.count);
    assert b.Marker? ==> !Confusable(alphabet, b.text, b.count);
    if a.Marker? && b.Marker? {
      MarkerTextInjective(a.text, a.count, b.text, b.count);
    }
  }

  lemma {:induction false} DecodedText<T>(out: seq<OutLine<T>>, i: nat)
    requires i < |out| && (out[i].Marker? ==> out[i].count > 0)
    ensures out[i].text in Decode(out)
  {
    if i > 0 {
      DecodedText(out[1..], i - 1);
    } else if out[0].Marker? {
      assert Repeat(out[0].text, out[0].count)[0] == out[0].text;
    }
  }

  lemma {:induction false} RenderedInjective(a: seq<string>, b: seq<string>, alphabet: iset<string>)
    requires Over(a, alphabet) && Over(b, alphabet) && Rendered(a) == Rendered(b)
    requires forall x, count :: !Confusable(alphabet, x, count)
    ensures a == b
  {
    var u, v := Compress(a), Compress(b);
    CompressCanonical(a);
    CompressCanonical(b);
    DecodeCompress(a);
    DecodeCompress(b);
    assert |u| == |Rendered(a)| == |v|;
    forall i | 0 <= i < |u|
      ensures u[i] == v[i]
    {
      DecodedText(u, i);
      DecodedText(v, i);
      assert Rendered(a)[i] == Rendered(b)[i];
      RenderInjective(u[i], v[i], alphabet);
    }
    assert u == v;
  }

  lemma {:induction false} ConfusedWhen(alphabet: iset<string>, x: string, count: nat)
    requires Confusable(alphabet, x, count)
    ensures var a, b := [MarkerText(x, count)], Repeat(x, count);
            a != b && Over(a, alphabet) && Over(b, alphabet) && Rendered(a) == Rendered(b)
  {
    var a, b := [MarkerText(x, count)], Repeat(x, count);
    CompressNeverLengthens(a);
    CompressRun(b, 0, count, x);
    assert b[0..] == b && Compress(b[count..]) == [];
    assert Compress(b) == [Marker(x, count)];
    assert Compress(a) == [Plain(MarkerText(x, count))];
  }

  /** Four equal lines, and one line that reads as their marker. */
  lemma {:induction false} MarkerLineConfused()
    ensures Rendered(["ok [repeated 4 times]"]) == Rendered(["ok", "ok", "ok", "ok"])
  {
    assert MarkerText("ok", 4) == "ok [repeated 4 times]";
    assert Repeat("ok", 4) == ["ok", "ok", "ok", "ok"];
    ConfusedWhen(iset{"ok", MarkerText("ok", 4)}, "ok", 4);
  }

  /**
   The rendered text tells inputs over a set of lines apart exactly when no line of the set is the marker of
   another line of the set.
   */
  lemma {:induction false} RenderedUnambiguousIff(alphabet: iset<string>)
    ensures (forall a, b | Over(a, alphabet) && Over(b, alphabet) && Rendered(a) == Rendered(b) :: a == b)
       <==> (forall x, count :: !Confusable(alphabet, x, count))
  {
    if x, count :| Confusable(alphabet, x, count) {
      ConfusedWhen(alphabet, x, count);
    } else {
      forall a, b | Over(a, alphabet) && Over(b, alphabet) && Rendered(a) == Rendered(b)
        ensures a == b
      {
        RenderedInjective(a, b, alphabet);
      }
    }
  }
}
