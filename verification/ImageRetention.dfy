/** Bounding how many images stay live in a transcript: the oldest are replaced, in place, by a text part. */
module ImageRetention {
  import opened Prelude

  datatype Part = TextPart(text: Option<string>) | ImagePart(url: string)

  datatype Content = Missing | Plain(text: string) | Parts(parts: seq<Part>)

  /** `rest` stands for every field the policy does not look at. */
  datatype Message = Message(content: Content, imagePathKey: Option<string>, rest: string)

  datatype Outcome = Outcome(messages: seq<Message>, droppedPathKeys: seq<string>)

  /** Which message, and which of its parts. */
  datatype Position = Position(message: nat, part: nat)

  /** How a dropped image is called, given the parts of its message as they are then. */
  type Labeler = seq<Part> -> string

  /** The positions of the image parts, in order. */
  function ImageParts(parts: seq<Part>): (positions: seq<nat>)
    ensures forall p | p in positions :: p < |parts| && parts[p].ImagePart?
  {
    if parts == [] then []
    else
      ImageParts(parts[..|parts| - 1]) + if parts[|parts| - 1].ImagePart? then [(|parts| - 1) as nat] else []
  }

  function MessageImages(message: Message): (positions: seq<nat>)
    ensures forall p | p in positions :: message.content.Parts? && p < |message.content.parts|
  {
    if message.content.Parts? then ImageParts(message.content.parts) else []
  }

  function At(message: nat, parts: seq<nat>): (positions: seq<Position>)
    ensures |positions| == |parts|
  {
    seq(|parts|, i requires 0 <= i < |parts| => Position(message, parts[i]))
  }

  function Images(messages: seq<Message>): seq<Position> {
    if messages == [] then []
    else Images(messages[..|messages| - 1]) + At(|messages| - 1, MessageImages(messages[|messages| - 1]))
  }

  predicate Holds(messages: seq<Message>, p: Position) {
    && p.message < |messages|
    && messages[p.message].content.Parts?
    && p.part < |messages[p.message].content.parts|
    && messages[p.message].content.parts[p.part].ImagePart?
  }

  predicate Before(p: Position, q: Position) {
    p.message < q.message || (p.message == q.message && p.part < q.part)
  }

  ghost predicate InOrder(positions: seq<Position>) {
    forall i, j | 0 <= i < j < |positions| :: Before(positions[i], positions[j])
  }

  lemma {:induction false} ImagePartsExact(parts: seq<Part>)
    ensures forall p: nat :: p in ImageParts(parts) <==> p < |parts| && parts[p].ImagePart?
    ensures forall i, j | 0 <= i < j < |ImageParts(parts)| :: ImageParts(parts)[i] < ImageParts(parts)[j]
  {
    if parts != [] {
      var front := ImageParts(parts[..|parts| - 1]);
      ImagePartsExact(parts[..|parts| - 1]);
      assert forall i | 0 <= i < |front| :: front[i] in front;
    }
  }

  lemma {:induction false} AtExact(message: nat, parts: seq<nat>)
    ensures forall p :: p in At(message, parts) <==> p.message == message && p.part in parts
  {
    forall k | 0 <= k < |parts|
      ensures At(message, parts)[k] == Position(message, parts[k])
    {
    }
    forall p: Position | p.message == message && p.part in parts
      ensures p in At(message, parts)
    {
      var k :| 0 <= k < |parts| && parts[k] == p.part;
      assert At(message, parts)[k] == p;
    }
  }

  /** The list holds the images of the transcript, all of them, in order. */
  lemma {:induction false} ImagesExact(messages: seq<Message>)
    ensures forall p :: p in Images(messages) <==> Holds(messages, p)
    ensures InOrder(Images(messages))
  {
    if messages != [] {
      var front, last := messages[..|messages| - 1], messages[|messages| - 1];
      ImagesExact(front);
      AtExact(|front|, MessageImages(last));
      if last.content.Parts? {
        ImagePartsExact(last.content.parts);
      }
      assert forall p: Position | p.message < |front| :: Holds(messages, p) <==> Holds(front, p);
      OrderedAppend(Images(front), At(|front|, MessageImages(last)));
    }
  }

  lemma {:induction false} OrderedAppend(a: seq<Position>, b: seq<Position>)
    requires InOrder(a) && InOrder(b)
    requires forall p, q | p in a && q in b :: Before(p, q)
    ensures InOrder(a + b)
  {
    forall i, j | 0 <= i < j < |a + b|
      ensures Before((a + b)[i], (a + b)[j])
    {
      if i < |a| <= j {
        assert a[i] in a && b[j - |a|] in b;
      }
    }
  }

  /** An ordered list is determined by its members. */
  lemma {:induction false} OrderedUnique(a: seq<Position>, b: seq<Position>)
    requires InOrder(a) && InOrder(b) && forall p :: p in a <==> p in b
    ensures a == b
  {
    if a == [] {
      assert forall i | 0 <= i < |b| :: b[i] in a;
    } else {
      assert a[0] in b && b[0] in a;
      assert a[0] == b[0];
      assert forall p | p in a[1..] :: p in b && p != a[0];
      assert forall p | p in b[1..] :: p in a && p != a[0];
      OrderedUnique(a[1..], b[1..]);
    }
  }

  // ---------------------------------------------------------------------------------------------
  // Dropping images one by one
  // ---------------------------------------------------------------------------------------------

  function Dropped(parts: seq<Part>, part: nat, labelOf: Labeler): (after: seq<Part>)
    ensures |after| == |parts|
  {
    if part < |parts| then parts[part := TextPart(Some("[" + labelOf(parts) + ", dropped from context]"))] else parts
  }

  /** One round of the rewriting loop; a message without parts is skipped. */
  function DropAt(outcome: Outcome, p: Position, labelOf: Labeler): (after: Outcome)
    ensures |after.messages| == |outcome.messages|
  {
    if p.message >= |outcome.messages| || !outcome.messages[p.message].content.Parts? then outcome
    else
      var message := outcome.messages[p.message];
      var rewritten := message.(content := Parts(Dropped(message.content.parts, p.part, labelOf)));
      Outcome(outcome.messages[p.message := rewritten],
              outcome.droppedPathKeys + if message.imagePathKey.Some? then [message.imagePathKey.value] else [])
  }

  function DropAll(messages: seq<Message>, positions: seq<Position>, labelOf: Labeler): (after: Outcome)
    ensures |after.messages| == |messages|
  {
    if positions == [] then Outcome(messages, [])
    else DropAt(DropAll(messages, positions[..|positions| - 1], labelOf), positions[|positions| - 1], labelOf)
  }

  /** Dropping the oldest image turns it into text and leaves the list of the others as it was. */
  lemma {:induction false} DropOldest(outcome: Outcome, labelOf: Labeler)
    requires Images(outcome.messages) != []
    ensures Images(DropAt(outcome, Images(outcome.messages)[0], labelOf).messages) == Images(outcome.messages)[1..]
  {
    var messages, images := outcome.messages, Images(outcome.messages);
    var after := DropAt(outcome, images[0], labelOf).messages;
    ImagesExact(messages);
    ImagesExact(after);
    assert images[0] in images;
    forall p
      ensures Holds(after, p) <==> Holds(messages, p) && p != images[0]
    {
    }
    assert images == [images[0]] + images[1..];
    assert forall p | p in images[1..] :: p != images[0];
    OrderedUnique(Images(after), images[1..]);
  }

  lemma {:induction false} DropOldestMany(messages: seq<Message>, count: nat, labelOf: Labeler)
    requires count <= |Images(messages)|
    ensures Images(DropAll(messages, Images(messages)[..count], labelOf).messages) == Images(messages)[count..]
  {
    if count > 0 {
      DropOldestMany(messages, count - 1, labelOf);
      assert Images(messages)[..count][..count - 1] == Images(messages)[..count - 1];
      DropOldest(DropAll(messages, Images(messages)[..count - 1], labelOf), labelOf);
    }
  }

  function Excess(messages: seq<Message>, retention: int): (count: nat)
    ensures count <= |Images(messages)|
  {
    if retention < 0 then 0 else Max(0, |Images(messages)| - retention)
  }

  function Pruned(messages: seq<Message>, retention: int, labelOf: Labeler): Outcome {
    DropAll(messages, Images(messages)[..Excess(messages, retention)], labelOf)
  }

  // ---------------------------------------------------------------------------------------------
  // The policy as it runs
  // ---------------------------------------------------------------------------------------------

  function Texts(parts: seq<Part>): seq<string> {
    if parts == [] then []
    else
      var last := parts[|parts| - 1];
      Texts(parts[..|parts| - 1]) +
      if last.TextPart? then [if last.text.Some? then last.text.value else ""] else []
  }

  function JoinSpaced(texts: seq<string>): string {
    if texts == [] then ""
    else if |texts| == 1 then texts[0]
    else JoinSpaced(texts[..|texts| - 1]) + " " + texts[|texts| - 1]
  }

  /** What a dropped image of these parts is called: their text, or just "image". */
  function Label(parts: seq<Part>, trim: string -> string): string {
    var text := trim(JoinSpaced(Texts(parts)));
    if text == "" then "image" else text
  }

  function LabelWith(trim: string -> string): Labeler {
    (parts: seq<Part>) => Label(parts, trim)
  }

  class ImageRetentionPolicy {
    const retention: int
    const labelOf: Labeler

    /** Images are labelled by the trimmed text of their message. */
    constructor (retention: int, trim: string -> string)
      ensures this.retention == retention && this.labelOf == LabelWith(trim)
    {
      this.retention := retention;
      this.labelOf := LabelWith(trim);
    }

    method FindImages(messages: seq<Message>) returns (positions: seq<Position>)
      ensures positions == Images(messages)
    {
      positions := [];
      for i := 0 to |messages|
        invariant positions == Images(messages[..i])
      {
        assert messages[..i + 1][..i] == messages[..i];
        if !messages[i].content.Parts? {
          continue;
        }
        var found := FindImageParts(i, messages[i].content.parts);
        positions := positions + found;
      }
      assert messages[..|messages|] == messages;
    }

    method FindImageParts(message: nat, parts: seq<Part>) returns (positions: seq<Position>)
      ensures positions == At(message, ImageParts(parts))
    {
      positions := [];
      for j := 0 to |parts|
        invariant positions == At(message, ImageParts(parts[..j]))
      {
        assert parts[..j + 1][..j] == parts[..j];
        if parts[j].ImagePart? {
          positions := positions + [Position(message, j)];
        }
      }
      assert parts[..|parts|] == parts;
    }

    method Prune(messages: seq<Message>) returns (outcome: Outcome)
      ensures outcome == Pruned(messages, retention, labelOf)
    {
      if retention < 0 {
        return Outcome(messages, []);
      }
      var positions := FindImages(messages);
      var dropCount := Max(0, |positions| - retention);
      if dropCount == 0 {
        return Outcome(messages, []);
      }
      var rewritten := messages;
      var droppedPathKeys: seq<string> := [];
      for k := 0 to dropCount
        invariant Outcome(rewritten, droppedPathKeys) == DropAll(messages, positions[..k], labelOf)
      {
        var position := positions[k];
        assert positions[..k + 1][..k] == positions[..k];
        if position.message >= |rewritten| || !rewritten[position.message].content.Parts? {
          continue;
        }
        var message := rewritten[position.message];
        if message.imagePathKey.Some? {
          droppedPathKeys := droppedPathKeys + [message.imagePathKey.value];
        }
        var parts := Dropped(message.content.parts, position.part, labelOf);
        rewritten := rewritten[position.message := message.(content := Parts(parts))];
      }
      return Outcome(rewritten, droppedPathKeys);
    }
  }

  // ---------------------------------------------------------------------------------------------
  // What pruning promises
  // ---------------------------------------------------------------------------------------------

  /** The images that survive are exactly the newest `retention` ones, still at their positions. */
  lemma {:induction false} NewestImagesSurvive(messages: seq<Message>, retention: int, labelOf: Labeler)
    ensures var after := Pruned(messages, retention, labelOf).messages;
            && Images(after) == Images(messages)[Excess(messages, retention)..]
            && (retention >= 0 ==> |Images(after)| == Min(retention, |Images(messages)|))
            && (retention < 0 ==> after == messages)
  {
    DropOldestMany(messages, Excess(messages, retention), labelOf);
  }

  /** `b` is `a` except that the parts at the dropped positions became text. */
  ghost predicate OnlyDropped(a: seq<Message>, b: seq<Message>, dropped: seq<Position>) {
    |a| == |b| && forall i: nat | i < |a| :: OnlyPartsDropped(a[i], b[i], i, dropped)
  }

  ghost predicate OnlyPartsDropped(a: Message, b: Message, i: nat, dropped: seq<Position>) {
    && b.imagePathKey == a.imagePathKey && b.rest == a.rest
    && (!a.content.Parts? ==> b.content == a.content)
    && (a.content.Parts? ==>
          && b.content.Parts?
          && |b.content.parts| == |a.content.parts|
          && forall j: nat | j < |a.content.parts| ::
               if Position(i, j) in dropped then b.content.parts[j].TextPart?
               else b.content.parts[j] == a.content.parts[j])
  }

  /** Nothing else changes: other parts, other messages, their order and every other field. */
  lemma {:induction false} OnlyListedPartsChange(messages: seq<Message>, positions: seq<Position>, labelOf: Labeler)
    ensures OnlyDropped(messages, DropAll(messages, positions, labelOf).messages, positions)
  {
    if positions != [] {
      var front, p := positions[..|positions| - 1], positions[|positions| - 1];
      OnlyListedPartsChange(messages, front, labelOf);
      assert positions == front + [p];
      assert forall q :: q in positions <==> q in front || q == p;
    }
  }

  /** Pruning changes only the images it drops, which are the oldest ones. */
  lemma {:induction false} OnlyOldestImagesChange(messages: seq<Message>, retention: int, labelOf: Labeler)
    ensures var dropped := Images(messages)[..Excess(messages, retention)];
            && OnlyDropped(messages, Pruned(messages, retention, labelOf).messages, dropped)
            && (forall p | p in dropped :: Holds(messages, p))
            && (forall p, q | p in dropped && Holds(messages, q) && q !in dropped :: Before(p, q))
  {
    var dropped := Images(messages)[..Excess(messages, retention)];
    OnlyListedPartsChange(messages, dropped, labelOf);
    ImagesExact(messages);
    forall p, q | p in dropped && Holds(messages, q) && q !in dropped
      ensures Before(p, q)
    {
      var i :| 0 <= i < |dropped| && dropped[i] == p;
      assert q in Images(messages);
      var j :| 0 <= j < |Images(messages)| && Images(messages)[j] == q;
      assert forall k | 0 <= k < |dropped| :: dropped[k] == Images(messages)[k] && dropped[k] in dropped;
    }
  }

  /** The keys of the messages the positions lie in, one for each position, in their order. */
  function KeysOf(messages: seq<Message>, positions: seq<Position>): seq<string>
    requires forall p | p in positions :: p.message < |messages|
  {
    if positions == [] then []
    else
      var last := positions[|positions| - 1];
      KeysOf(messages, positions[..|positions| - 1]) +
      if messages[last.message].imagePathKey.Some? then [messages[last.message].imagePathKey.value] else []
  }

  lemma {:induction false} KeysAreOfMessages(messages: seq<Message>, positions: seq<Position>, labelOf: Labeler)
    requires forall p | p in positions :: p.message < |messages| && Holds(messages, p)
    ensures DropAll(messages, positions, labelOf).droppedPathKeys == KeysOf(messages, positions)
  {
    if positions != [] {
      var front, last := positions[..|positions| - 1], positions[|positions| - 1];
      assert last in positions;
      KeysAreOfMessages(messages, front, labelOf);
      OnlyListedPartsChange(messages, front, labelOf);
      var before := DropAll(messages, front, labelOf).messages;
      assert before[last.message].imagePathKey == messages[last.message].imagePathKey;
      assert before[last.message].content.Parts?;
    }
  }

  lemma {:induction false} EarlierPartStays(outcome: Outcome, p: Position, q: Position, labelOf: Labeler)
    requires p != q && q.message < |outcome.messages| && outcome.messages[q.message].content.Parts?
    requires q.part < |outcome.messages[q.message].content.parts|
    ensures var after := DropAt(outcome, p, labelOf).messages;
            && after[q.message].content.Parts? && q.part < |after[q.message].content.parts|
            && after[q.message].content.parts[q.part] == outcome.messages[q.message].content.parts[q.part]
  {
  }

  /**
   Each dropped image becomes the text part that names it, by the label of its message's parts as they were when
   its turn came, after the images before it.
   */
  lemma {:induction false} DroppedReadsAsLabel(
    messages: seq<Message>, positions: seq<Position>, k: nat, labelOf: Labeler)
    requires InOrder(positions) && k < |positions|
    requires forall p | p in positions :: p.message < |messages| && Holds(messages, p)
    ensures var p := positions[k];
            p in positions && p.message < |messages| &&
            var seen := DropAll(messages, positions[..k], labelOf).messages[p.message].content;
            var after := DropAll(messages, positions, labelOf).messages[p.message].content;
            && seen.Parts? && after.Parts? && p.part < |after.parts|
            && after.parts[p.part] == TextPart(Some("[" + labelOf(seen.parts) + ", dropped from context]"))
  {
    var front, last := positions[..|positions| - 1], positions[|positions| - 1];
    assert positions[k] in positions && last in positions;
    if k < |front| {
      assert forall p | p in front :: p in positions;
      DroppedReadsAsLabel(messages, front, k, labelOf);
      assert front[..k] == positions[..k] && front[k] == positions[k];
      EarlierPartStays(DropAll(messages, front, labelOf), last, positions[k], labelOf);
    } else {
      assert positions[..k] == front;
      OnlyListedPartsChange(messages, front, labelOf);
    }
  }

  /** What pruning reports: the path keys of the messages of the oldest images, one for each, oldest first. */
  lemma {:induction false} PruneReportsKeys(messages: seq<Message>, retention: int, labelOf: Labeler)
    ensures var dropped := Images(messages)[..Excess(messages, retention)];
            && (forall p | p in dropped :: p.message < |messages|)
            && Pruned(messages, retention, labelOf).droppedPathKeys == KeysOf(messages, dropped)
  {
    ImagesExact(messages);
    var dropped := Images(messages)[..Excess(messages, retention)];
    forall p | p in dropped
      ensures p.message < |messages| && Holds(messages, p)
    {
      assert p in Images(messages);
    }
    KeysAreOfMessages(messages, dropped, labelOf);
  }

  /** A label is the trimmed text of all text parts, joined by spaces, or just "image" when that is empty. */
  lemma {:induction false} LabelReads(
    parts: seq<Part>, more: Part, texts: seq<string>, text: string, trim: string -> string)
    ensures Texts([]) == [] && JoinSpaced([]) == ""
    ensures Texts(parts + [more])
         == if more.ImagePart? then Texts(parts)
            else Texts(parts) + [if more.text.Some? then more.text.value else ""]
    ensures JoinSpaced(texts + [text]) == if texts == [] then text else JoinSpaced(texts) + " " + text
    ensures LabelWith(trim)(parts)
         == if trim(JoinSpaced(Texts(parts))) == "" then "image" else trim(JoinSpaced(Texts(parts)))
  {
    assert (parts + [more])[..|parts|] == parts;
    assert (texts + [text])[..|texts|] == texts;
  }

  /** A second prune finds nothing to do. */
  lemma {:induction false} PruneTwice(messages: seq<Message>, retention: int, labelOf: Labeler)
    ensures var once := Pruned(messages, retention, labelOf).messages;
            Pruned(once, retention, labelOf) == Outcome(once, [])
  {
    NewestImagesSurvive(messages, retention, labelOf);
  }

  /** Keys already collected, and messages not reached, do not affect a drop. */
  lemma {:induction false} DropAtInContext(
    outcome: Outcome, p: Position, keys: seq<string>, later: seq<Message>, labelOf: Labeler)
    requires p.message < |outcome.messages| || later == []
    ensures var after := DropAt(outcome, p, labelOf);
            DropAt(Outcome(outcome.messages + later, keys + outcome.droppedPathKeys), p, labelOf)
              == Outcome(after.messages + later, keys + after.droppedPathKeys)
  {
  }

  lemma {:induction false} DropAllAdds(messages: seq<Message>, p: seq<Position>, q: seq<Position>, labelOf: Labeler)
    ensures var first := DropAll(messages, p, labelOf);
            var second := DropAll(first.messages, q, labelOf);
            DropAll(messages, p + q, labelOf)
              == Outcome(second.messages, first.droppedPathKeys + second.droppedPathKeys)
  {
    var first := DropAll(messages, p, labelOf);
    if q == [] {
      assert p + q == p;
    } else {
      var front, last := q[..|q| - 1], q[|q| - 1];
      DropAllAdds(messages, p, front, labelOf);
      assert (p + q)[..|p + q| - 1] == p + front;
      var second := DropAll(first.messages, front, labelOf);
      DropAtInContext(second, last, first.droppedPathKeys, [], labelOf);
      assert second.messages + [] == second.messages;
      assert DropAt(second, last, labelOf).messages + [] == DropAt(second, last, labelOf).messages;
    }
  }

  lemma {:induction false} DropAllOfAppend(a: seq<Message>, b: seq<Message>, p: seq<Position>, labelOf: Labeler)
    requires forall q | q in p :: q.message < |a|
    ensures var alone := DropAll(a, p, labelOf);
            DropAll(a + b, p, labelOf) == Outcome(alone.messages + b, alone.droppedPathKeys)
  {
    if p != [] {
      var front, last := p[..|p| - 1], p[|p| - 1];
      DropAllOfAppend(a, b, front, labelOf);
      var alone := DropAll(a, front, labelOf);
      DropAtInContext(alone, last, [], b, labelOf);
      assert [] + alone.droppedPathKeys == alone.droppedPathKeys;
      assert [] + DropAt(alone, last, labelOf).droppedPathKeys == DropAt(alone, last, labelOf).droppedPathKeys;
    }
  }

  /** What is appended brings its own images, behind those already there. */
  lemma {:induction false} ImagesOfAppend(a: seq<Message>, b: seq<Message>)
    ensures |Images(a + b)| == |Images(a)| + |Images(b)|
    ensures Images(a + b)[..|Images(a)|] == Images(a)
    decreases |b|
  {
    if b == [] {
      assert a + b == a;
    } else {
      assert (a + b)[..|a + b| - 1] == a + b[..|b| - 1];
      ImagesOfAppend(a, b[..|b| - 1]);
    }
  }

  /** The early drops, made before the append, are the first of the drops made at the end. */
  lemma {:induction false} EarlyDropsFirst(a: seq<Message>, b: seq<Message>, early: nat, labelOf: Labeler)
    requires early <= |Images(a)|
    ensures |Images(a + b)| == |Images(a)| + |Images(b)|
    ensures var first := DropAll(a, Images(a)[..early], labelOf);
            && DropAll(a + b, Images(a + b)[..early], labelOf) == Outcome(first.messages + b, first.droppedPathKeys)
            && Images(first.messages + b) == Images(a + b)[early..]
  {
    ImagesOfAppend(a, b);
    ImagesExact(a);
    assert Images(a + b)[..early] == Images(a)[..early];
    assert forall q | q in Images(a)[..early] :: q in Images(a);
    DropAllOfAppend(a, b, Images(a)[..early], labelOf);
    DropOldestMany(a + b, early, labelOf);
  }

  lemma {:induction false} DropsInTwoGoes(
    messages: seq<Message>, images: seq<Position>, early: nat, late: nat, labelOf: Labeler)
    requires early + late <= |images|
    ensures var first := DropAll(messages, images[..early], labelOf);
            var second := DropAll(first.messages, images[early..][..late], labelOf);
            DropAll(messages, images[..early + late], labelOf)
              == Outcome(second.messages, first.droppedPathKeys + second.droppedPathKeys)
  {
    DropAllAdds(messages, images[..early], images[early..][..late], labelOf);
    assert images[..early] + images[early..][..late] == images[..early + late];
  }

  lemma {:induction false} ExcessAdds(a: seq<Message>, b: seq<Message>, retention: int, labelOf: Labeler)
    ensures var first := Pruned(a, retention, labelOf);
            Excess(a, retention) + Excess(first.messages + b, retention) == Excess(a + b, retention)
  {
    EarlyDropsFirst(a, b, Excess(a, retention), labelOf);
  }

  /** Pruning before an append and again after it is pruning once at the end. */
  lemma {:induction false} PruneThenAppend(a: seq<Message>, b: seq<Message>, retention: int, labelOf: Labeler)
    ensures var first := Pruned(a, retention, labelOf);
            var second := Pruned(first.messages + b, retention, labelOf);
            Pruned(a + b, retention, labelOf)
              == Outcome(second.messages, first.droppedPathKeys + second.droppedPathKeys)
  {
    var first := Pruned(a, retention, labelOf);
    var early, late := Excess(a, retention), Excess(first.messages + b, retention);
    ExcessAdds(a, b, retention, labelOf);
    EarlyDropsFirst(a, b, early, labelOf);
    DropsInTwoGoes(a + b, Images(a + b), early, late, labelOf);
  }

  /** Pruning after each append. */
  function PruneAsYouGo(appends: seq<seq<Message>>, retention: int, labelOf: Labeler): Outcome {
    if appends == [] then Outcome([], [])
    else
      var before := PruneAsYouGo(appends[..|appends| - 1], retention, labelOf);
      var now := Pruned(before.messages + appends[|appends| - 1], retention, labelOf);
      Outcome(now.messages, before.droppedPathKeys + now.droppedPathKeys)
  }

  function Everything(appends: seq<seq<Message>>): seq<Message> {
    if appends == [] then [] else Everything(appends[..|appends| - 1]) + appends[|appends| - 1]
  }

  /**
   Pruning after every append gives the same transcript and the same dropped keys, in the same order, as
   pruning the whole transcript once, whatever texts label the images.
   */
  lemma {:induction false} PruneAsYouGoIsPruneOnce(appends: seq<seq<Message>>, retention: int, labelOf: Labeler)
    ensures PruneAsYouGo(appends, retention, labelOf) == Pruned(Everything(appends), retention, labelOf)
  {
    if appends != [] {
      var front, last := appends[..|appends| - 1], appends[|appends| - 1];
      PruneAsYouGoIsPruneOnce(front, retention, labelOf);
      PruneThenAppend(Everything(front), last, retention, labelOf);
    }
  }
}
