/** Keeping only the latest thinking of a transcript when per-step thinking is not maintained. */
module ThinkingRetention {
  import opened Prelude

  /** A message's `reasoning_content`: no such field, a field without a value, or a text. */
  datatype Reasoning = Absent | Undefined | Text(text: string)

  /** `rest` stands for every field the policy does not look at. */
  datatype PlannerMessage = PlannerMessage(reasoning: Reasoning, rest: string)

  datatype PersistedKind = AssistantThinking | Other(name: string)

  datatype PersistedMessage = PersistedMessage(kind: PersistedKind, rest: string)

  /** A text's trimmed form is empty. */
  type BlankTest = string -> bool

  predicate IsThought(message: PlannerMessage, blank: BlankTest) {
    message.reasoning.Text? && !blank(message.reasoning.text)
  }

  predicate IsThinking(message: PersistedMessage) {
    message.kind.AssistantThinking?
  }

  /** The index of the last element with a property, or -1. */
  function LastIndex<T>(s: seq<T>, property: T -> bool): (index: int)
    ensures -1 <= index < |s|
    ensures index >= 0 ==> property(s[index])
    ensures forall i | index < i < |s| :: !property(s[i])
  {
    if s == [] then -1
    else if property(s[|s| - 1]) then |s| - 1
    else LastIndex(s[..|s| - 1], property)
  }

  lemma {:induction false} LastIndexUnique<T>(s: seq<T>, property: T -> bool, index: int)
    requires -1 <= index < |s|
    requires index >= 0 ==> property(s[index])
    requires forall i | index < i < |s| :: !property(s[i])
    ensures LastIndex(s, property) == index
  {
  }

  function Thought(blank: BlankTest): PlannerMessage -> bool {
    (message: PlannerMessage) => IsThought(message, blank)
  }

  function WithoutReasoning(message: PlannerMessage): PlannerMessage {
    message.(reasoning := Absent)
  }

  /** What planner pruning yields with per-step thinking off. */
  function PrunedPlanner(messages: seq<PlannerMessage>, blank: BlankTest): (after: seq<PlannerMessage>)
    ensures |after| == |messages|
  {
    var latest := LastIndex(messages, Thought(blank));
    if latest < 0 then messages else KeepOnly(messages, latest)
  }

  function KeepOnly(messages: seq<PlannerMessage>, latest: int): (after: seq<PlannerMessage>)
    ensures |after| == |messages|
    ensures forall i | 0 <= i < |messages| ::
              after[i] == if i == latest then messages[i] else WithoutReasoning(messages[i])
  {
    seq(|messages|, i requires 0 <= i < |messages| =>
      if i == latest then messages[i] else WithoutReasoning(messages[i]))
  }

  /** The filter: messages that are not thinking, and the one at `keep`. */
  function KeepOthers(messages: seq<PersistedMessage>, keep: int): seq<PersistedMessage> {
    if messages == [] then []
    else
      var last := |messages| - 1;
      KeepOthers(messages[..last], keep) + if !IsThinking(messages[last]) || last == keep then [messages[last]] else []
  }

  /** What pruning a persisted transcript yields with per-step thinking off. */
  function PrunedPersisted(messages: seq<PersistedMessage>): seq<PersistedMessage> {
    var latest := LastIndex(messages, IsThinking);
    if latest < 0 then messages else KeepOthers(messages, latest)
  }

  method AnyOf<T(==)>(s: set<T>) returns (x: T)
    requires s != {}
    ensures x in s
  {
    x :| x in s;
  }

  /** The thinking recorded per turn; an object the policy changes in place. */
  class TurnThinking {
    var texts: map<int, string>

    constructor ()
      ensures texts == map[]
    {
      texts := map[];
    }
  }

  class ThinkingRetentionPolicy {
    const maintainPerStepThinking: bool
    const blank: BlankTest

    constructor (maintainPerStepThinking: bool, blank: BlankTest)
      ensures this.maintainPerStepThinking == maintainPerStepThinking && this.blank == blank
    {
      this.maintainPerStepThinking := maintainPerStepThinking;
      this.blank := blank;
    }

    method FindLatestPlannerThinkingIndex(messages: seq<PlannerMessage>) returns (index: int)
      ensures index == LastIndex(messages, Thought(blank))
    {
      index := |messages| - 1;
      while index >= 0
        invariant -1 <= index < |messages|
        invariant forall i | index < i < |messages| :: !IsThought(messages[i], blank)
      {
        if IsThought(messages[index], blank) {
          LastIndexUnique(messages, Thought(blank), index);
          return;
        }
        index := index - 1;
      }
      LastIndexUnique(messages, Thought(blank), -1);
    }

    method FindLatestPersistedThinkingIndex(messages: seq<PersistedMessage>) returns (index: int)
      ensures index == LastIndex(messages, IsThinking)
    {
      index := |messages| - 1;
      while index >= 0
        invariant -1 <= index < |messages|
        invariant forall i | index < i < |messages| :: !IsThinking(messages[i])
      {
        if IsThinking(messages[index]) {
          LastIndexUnique(messages, IsThinking, index);
          return;
        }
        index := index - 1;
      }
      LastIndexUnique(messages, IsThinking, -1);
    }

    /** `same` is what lets the transcript's owner skip recording a rewrite. */
    method PrunePlannerMessages(messages: seq<PlannerMessage>) returns (after: seq<PlannerMessage>, same: bool)
      ensures after == if maintainPerStepThinking then messages else PrunedPlanner(messages, blank)
      ensures same <==> after == messages
    {
      if maintainPerStepThinking {
        return messages, true;
      }
      var latest := FindLatestPlannerThinkingIndex(messages);
      if latest < 0 {
        return messages, true;
      }
      after := PrunedPlanner(messages, blank);
      var stale := exists i | 0 <= i < |messages| :: i != latest && !messages[i].reasoning.Absent?;
      if !stale {
        assert after == messages;
        return messages, true;
      }
      var k :| 0 <= k < |messages| && k != latest && !messages[k].reasoning.Absent?;
      assert after[k] != messages[k];
      return after, false;
    }

    method PrunePersistedMessages(messages: seq<PersistedMessage>) returns (after: seq<PersistedMessage>)
      ensures after == if maintainPerStepThinking then messages else PrunedPersisted(messages)
    {
      if maintainPerStepThinking {
        return messages;
      }
      var latest := FindLatestPersistedThinkingIndex(messages);
      if latest < 0 {
        return messages;
      }
      return KeepOthers(messages, latest);
    }

    method RecordTurnThinking(turnThinking: TurnThinking, turn: int, thinkingText: string)
      modifies turnThinking
      ensures turnThinking.texts ==
              (if maintainPerStepThinking then old(turnThinking.texts) else map[])[turn := thinkingText]
    {
      if !maintainPerStepThinking {
        var keys := turnThinking.texts.Keys;
        while keys != {}
          invariant turnThinking.texts.Keys == keys
          decreases keys
        {
          var key := AnyOf(keys);
          turnThinking.texts := turnThinking.texts - {key};
          keys := keys - {key};
        }
      }
      turnThinking.texts := turnThinking.texts[turn := thinkingText];
    }
  }

  // ---------------------------------------------------------------------------------------------
  // Planner messages
  // ---------------------------------------------------------------------------------------------

  predicate Carries(message: PlannerMessage) {
    !message.reasoning.Absent?
  }

  /**
   When some thinking is not blank, pruning keeps exactly one reasoning field, that of the latest such
   message, and changes nothing else; otherwise it changes nothing at all.
   */
  lemma {:induction false} PlannerKeepsLatest(messages: seq<PlannerMessage>, blank: BlankTest)
    ensures var after := PrunedPlanner(messages, blank);
            var latest := LastIndex(messages, Thought(blank));
            && (forall i | 0 <= i < |messages| :: after[i].rest == messages[i].rest)
            && (latest < 0 ==> after == messages)
            && (latest >= 0 ==> after[latest] == messages[latest])
            && (latest >= 0 ==> forall i | 0 <= i < |messages| :: Carries(after[i]) <==> i == latest)
  {
  }

  ghost predicate AtMostOneCarries(messages: seq<PlannerMessage>) {
    forall i, j | 0 <= i < |messages| && 0 <= j < |messages| :: Carries(messages[i]) && Carries(messages[j]) ==> i == j
  }

  /**
   "At most one thinking block is left" holds exactly when some thinking is not blank or there was at most
   one block to begin with: blank blocks alone are never pruned.
   */
  lemma {:induction false} AtMostOneIff(messages: seq<PlannerMessage>, blank: BlankTest)
    ensures AtMostOneCarries(PrunedPlanner(messages, blank)) <==>
              (exists i | 0 <= i < |messages| :: IsThought(messages[i], blank)) || AtMostOneCarries(messages)
  {
    PlannerKeepsLatest(messages, blank);
  }

  /** Two empty thinking blocks both stay. */
  lemma {:induction false} BlankBlocksStay(blank: BlankTest)
    requires blank("")
    ensures var messages := [PlannerMessage(Text(""), "first"), PlannerMessage(Text(""), "second")];
            PrunedPlanner(messages, blank) == messages && !AtMostOneCarries(messages)
  {
    var messages := [PlannerMessage(Text(""), "first"), PlannerMessage(Text(""), "second")];
    assert Carries(messages[0]) && Carries(messages[1]);
  }

  lemma {:induction false} PlannerPruneTwice(messages: seq<PlannerMessage>, blank: BlankTest)
    ensures PrunedPlanner(PrunedPlanner(messages, blank), blank) == PrunedPlanner(messages, blank)
  {
    PrunedPlannerIndex(messages, blank);
  }

  /** Pruning moves nothing, so the latest thought stays where it was. */
  lemma {:induction false} PrunedPlannerIndex(messages: seq<PlannerMessage>, blank: BlankTest)
    ensures LastIndex(PrunedPlanner(messages, blank), Thought(blank)) == LastIndex(messages, Thought(blank))
  {
    LastIndexUnique(PrunedPlanner(messages, blank), Thought(blank), LastIndex(messages, Thought(blank)));
  }

  lemma {:induction false} LastIndexOfAppend<T>(a: seq<T>, b: seq<T>, property: T -> bool)
    ensures LastIndex(a + b, property) ==
            if LastIndex(b, property) >= 0 then |a| + LastIndex(b, property) else LastIndex(a, property)
  {
    var index := if LastIndex(b, property) >= 0 then |a| + LastIndex(b, property) else LastIndex(a, property);
    LastIndexUnique(a + b, property, index);
  }

  lemma {:induction false} PlannerPruneThenAppend(a: seq<PlannerMessage>, b: seq<PlannerMessage>, blank: BlankTest)
    ensures PrunedPlanner(PrunedPlanner(a, blank) + b, blank) == PrunedPlanner(a + b, blank)
  {
    var pruned := PrunedPlanner(a, blank);
    PrunedPlannerIndex(a, blank);
    LastIndexOfAppend(a, b, Thought(blank));
    LastIndexOfAppend(pruned, b, Thought(blank));
    var latest := LastIndex(a + b, Thought(blank));
    if latest >= 0 {
      forall i | 0 <= i < |a + b|
        ensures KeepOnly(pruned + b, latest)[i] == KeepOnly(a + b, latest)[i]
      {
        assert i >= |a| ==> (pruned + b)[i] == (a + b)[i];
        assert i < |a| ==> (pruned + b)[i] == pruned[i] && (a + b)[i] == a[i];
      }
    }
  }

  function PlannerAsYouGo(appends: seq<seq<PlannerMessage>>, blank: BlankTest): seq<PlannerMessage> {
    if appends == [] then []
    else PrunedPlanner(PlannerAsYouGo(appends[..|appends| - 1], blank) + appends[|appends| - 1], blank)
  }

  function Everything<T>(appends: seq<seq<T>>): seq<T> {
    if appends == [] then [] else Everything(appends[..|appends| - 1]) + appends[|appends| - 1]
  }

  /** Pruning after every append is pruning the whole transcript once. */
  lemma {:induction false} PlannerAsYouGoIsOnce(appends: seq<seq<PlannerMessage>>, blank: BlankTest)
    ensures PlannerAsYouGo(appends, blank) == PrunedPlanner(Everything(appends), blank)
  {
    if appends != [] {
      var front, last := appends[..|appends| - 1], appends[|appends| - 1];
      PlannerAsYouGoIsOnce(front, blank);
      PlannerPruneThenAppend(Everything(front), last, blank);
    }
  }

  // ---------------------------------------------------------------------------------------------
  // Persisted messages
  // ---------------------------------------------------------------------------------------------

  predicate HasThinking(messages: seq<PersistedMessage>) {
    messages != [] && (IsThinking(messages[|messages| - 1]) || HasThinking(messages[..|messages| - 1]))
  }

  /**
   Pruning without indices: reading from the end, the first thinking met is kept, unless one was met
   further on (`newer`), and all others are dropped.
   */
  function KeepNewest(messages: seq<PersistedMessage>, newer: bool): seq<PersistedMessage> {
    if messages == [] then []
    else
      var front, last := messages[..|messages| - 1], messages[|messages| - 1];
      if !IsThinking(last) then KeepNewest(front, newer) + [last]
      else if newer then KeepNewest(front, true)
      else KeepNewest(front, true) + [last]
  }

  lemma {:induction false} KeepNewestIsFilter(messages: seq<PersistedMessage>, keep: int)
    requires keep < 0 || keep >= |messages|
    ensures KeepNewest(messages, true) == KeepOthers(messages, keep)
  {
    if messages != [] {
      KeepNewestIsFilter(messages[..|messages| - 1], keep);
    }
  }

  /** The index-based filter keeps the newest thinking, in its place, and drops the rest. */
  lemma {:induction false} PrunedIsKeepNewest(messages: seq<PersistedMessage>)
    ensures PrunedPersisted(messages) == KeepNewest(messages, false)
  {
    if messages != [] {
      var front, last := messages[..|messages| - 1], messages[|messages| - 1];
      PrunedIsKeepNewest(front);
      if IsThinking(last) {
        KeepNewestIsFilter(front, |front|);
      } else if LastIndex(front, IsThinking) < 0 {
        assert messages == front + [last];
      }
    }
  }

  lemma {:induction false} KeepNewestOfAppend(a: seq<PersistedMessage>, b: seq<PersistedMessage>, newer: bool)
    ensures KeepNewest(a + b, newer) == KeepNewest(a, newer || HasThinking(b)) + KeepNewest(b, newer)
    decreases |b|
  {
    if b == [] {
      assert a + b == a;
    } else {
      var front, last := b[..|b| - 1], b[|b| - 1];
      assert (a + b)[..|a + b| - 1] == a + front;
      KeepNewestOfAppend(a, front, newer || IsThinking(last));
    }
  }

  lemma {:induction false} KeepNewestTwice(messages: seq<PersistedMessage>, first: bool, second: bool)
    ensures KeepNewest(KeepNewest(messages, first), second) == KeepNewest(messages, first || second)
  {
    if messages != [] {
      var front, last := messages[..|messages| - 1], messages[|messages| - 1];
      var kept := KeepNewest(messages, first);
      if !IsThinking(last) {
        KeepNewestTwice(front, first, second);
        assert kept[..|kept| - 1] == KeepNewest(front, first);
      } else {
        KeepNewestTwice(front, true, true);
        KeepNewestTwice(front, true, second);
        assert !first ==> kept[..|kept| - 1] == KeepNewest(front, true);
      }
    }
  }

  lemma {:induction false} PersistedPruneThenAppend(a: seq<PersistedMessage>, b: seq<PersistedMessage>)
    ensures PrunedPersisted(PrunedPersisted(a) + b) == PrunedPersisted(a + b)
  {
    PrunedIsKeepNewest(a);
    PrunedIsKeepNewest(a + b);
    PrunedIsKeepNewest(PrunedPersisted(a) + b);
    KeepNewestOfAppend(a, b, false);
    KeepNewestOfAppend(KeepNewest(a, false), b, false);
    KeepNewestTwice(a, false, HasThinking(b));
  }

  function ThinkingIn(messages: seq<PersistedMessage>): seq<PersistedMessage> {
    if messages == [] then []
    else ThinkingIn(messages[..|messages| - 1]) +
         if IsThinking(messages[|messages| - 1]) then [messages[|messages| - 1]] else []
  }

  function NotThinkingIn(messages: seq<PersistedMessage>): seq<PersistedMessage> {
    if messages == [] then []
    else NotThinkingIn(messages[..|messages| - 1]) +
         if IsThinking(messages[|messages| - 1]) then [] else [messages[|messages| - 1]]
  }

  /** At most one thinking is left, the latest; every other message stays, in order. */
  lemma {:induction false} PersistedKeepsLatest(messages: seq<PersistedMessage>, newer: bool)
    ensures ThinkingIn(KeepNewest(messages, newer)) ==
            if newer || ThinkingIn(messages) == [] then [] else [ThinkingIn(messages)[|ThinkingIn(messages)| - 1]]
    ensures NotThinkingIn(KeepNewest(messages, newer)) == NotThinkingIn(messages)
  {
    if messages != [] {
      var front, last := messages[..|messages| - 1], messages[|messages| - 1];
      var kept := KeepNewest(messages, newer);
      PersistedKeepsLatest(front, newer || IsThinking(last));
      if !IsThinking(last) || !newer {
        assert kept[..|kept| - 1] == KeepNewest(front, newer || IsThinking(last));
      }
    }
  }

  function PersistedAsYouGo(appends: seq<seq<PersistedMessage>>): seq<PersistedMessage> {
    if appends == [] then []
    else PrunedPersisted(PersistedAsYouGo(appends[..|appends| - 1]) + appends[|appends| - 1])
  }

  /** Pruning after every append is pruning the whole persisted transcript once. */
  lemma {:induction false} PersistedAsYouGoIsOnce(appends: seq<seq<PersistedMessage>>)
    ensures PersistedAsYouGo(appends) == PrunedPersisted(Everything(appends))
  {
    if appends != [] {
      var front, last := appends[..|appends| - 1], appends[|appends| - 1];
      PersistedAsYouGoIsOnce(front);
      PersistedPruneThenAppend(Everything(front), last);
    }
  }
}
