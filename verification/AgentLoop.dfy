/**
 The agent loop against arbitrary adapters. Adapters may answer anything, keep state and throw, so one run
 is described by a script: what each adapter would answer on each turn. Every possible run has a script.
 */
module AgentLoopModel {
  import opened Prelude

  datatype Outcome = Continue | Stop

  /** An adapter call either answers or throws. */
  datatype Answer<+T> = Gives(value: T) | Throws

  datatype Usage = Usage(promptTokens: Option<nat>, outputTokens: Option<nat>, thinkingTokens: Option<nat>)

  datatype Action = Finish(text: string) | Tool(callId: string, toolName: string)

  datatype ToolResult = ToolResult(callId: string, text: string)

  datatype Turn = Turn(turnNumber: nat, usage: Usage, actions: seq<Action>, toolResults: seq<ToolResult>)

  datatype Reason = Finished | MaxTurns | Aborted

  datatype Result = Result(
    finishText: string, turns: seq<Turn>, reason: Reason, promptTokens: nat, outputTokens: nat, thinkingTokens: nat)

  datatype Evaluation = Evaluation(accepted: bool, outcome: Outcome, finishText: Option<string>)

  datatype ToolExecution = ToolExecution(outcome: Outcome, results: seq<ToolResult>)

  datatype ModelResponse = Stopped | Responded(usage: Usage)

  datatype Inspection = StopNow | Skip | Proceed

  datatype Parsed = Actions(actions: seq<Action>) | Invalid(handled: Answer<Outcome>)

  /** What the adapters answer on one turn; `evaluations` is indexed by the action's position. */
  datatype TurnScript = TurnScript(
    prepared: Answer<Outcome>,
    response: Answer<ModelResponse>,
    inspected: Answer<Inspection>,
    parsed: Parsed,
    evaluations: nat -> Answer<Evaluation>,
    tools: Answer<ToolExecution>)

  type Script = nat -> TurnScript

  /** One call of the tool adapter. */
  datatype Batch = Batch(turnNumber: nat, actions: seq<Action>)

  /** How the finish actions of one turn end the turn's evaluation. */
  datatype Verdict = AllRejected | Accepted(text: string) | StopAsked | Threw

  /** How one run ends: with a result, or with an adapter's exception. */
  datatype Ending = Returns(result: Result) | Fails

  /** Everything one run leaves behind. */
  datatype Run = Run(ending: Ending, turns: seq<Turn>, modelCalls: nat, batches: seq<Batch>)

  function OrZero(count: Option<nat>): nat {
    if count.None? then 0 else count.value
  }

  function PromptTokensOf(turn: Turn): nat { OrZero(turn.usage.promptTokens) }
  function OutputTokensOf(turn: Turn): nat { OrZero(turn.usage.outputTokens) }
  function ThinkingTokensOf(turn: Turn): nat { OrZero(turn.usage.thinkingTokens) }

  function BuildResult(turns: seq<Turn>, finishText: string, reason: Reason): Result {
    Result(finishText, turns, reason,
           Total(turns, PromptTokensOf), Total(turns, OutputTokensOf), Total(turns, ThinkingTokensOf))
  }

  function ToolActions(actions: seq<Action>): seq<Action> {
    if actions == [] then []
    else ToolActions(actions[..|actions| - 1]) +
         if actions[|actions| - 1].Tool? then [actions[|actions| - 1]] else []
  }

  /** The finish actions among the first `count`, in order, until one is accepted, asks to stop or throws. */
  function Judge(actions: seq<Action>, evaluations: nat -> Answer<Evaluation>, count: nat): Verdict
    requires count <= |actions|
  {
    if count == 0 then AllRejected
    else
      var before := Judge(actions, evaluations, count - 1);
      if !before.AllRejected? || actions[count - 1].Tool? then before
      else
        var answer := evaluations(count - 1);
        if answer.Throws? then Threw
        else if answer.value.accepted then
          Accepted(if answer.value.finishText.Some? then answer.value.finishText.value else actions[count - 1].text)
        else if answer.value.outcome.Stop? then StopAsked
        else AllRejected
  }

  // ---------------------------------------------------------------------------------------------
  // The specification: one turn after another
  // ---------------------------------------------------------------------------------------------

  function Return(turns: seq<Turn>, modelCalls: nat, batches: seq<Batch>, finishText: string, reason: Reason): Run {
    Run(Returns(BuildResult(turns, finishText, reason)), turns, modelCalls, batches)
  }

  function Fail(turns: seq<Turn>, modelCalls: nat, batches: seq<Batch>): Run {
    Run(Fails, turns, modelCalls, batches)
  }

  /** One turn either ends the run or leaves something for the next. */
  datatype Progress = Ended(run: Run) | Went(turns: seq<Turn>, modelCalls: nat, batches: seq<Batch>)

  function TakeTurn(n: nat, t: TurnScript, turns: seq<Turn>, calls: nat, batches: seq<Batch>): Progress {
    if t.prepared.Throws? then Ended(Fail(turns, calls, batches))
    else if t.prepared.value.Stop? then Ended(Return(turns, calls, batches, "", Aborted))
    else if t.response.Throws? then Ended(Fail(turns, calls + 1, batches))
    else if t.response.value.Stopped? then Ended(Return(turns, calls + 1, batches, "", Aborted))
    else if t.inspected.Throws? then Ended(Fail(turns, calls + 1, batches))
    else if t.inspected.value.StopNow? then Ended(Return(turns, calls + 1, batches, "", Aborted))
    else if t.inspected.value.Skip? then Went(turns, calls + 1, batches)
    else if t.parsed.Invalid? then
      if t.parsed.handled.Throws? then Ended(Fail(turns, calls + 1, batches))
      else if t.parsed.handled.value.Stop? then Ended(Return(turns, calls + 1, batches, "", Aborted))
      else Went(turns, calls + 1, batches)
    else Act(Turn(n, t.response.value.usage, t.parsed.actions, []), t, turns, calls + 1, batches)
  }

  /** The turn is recorded before its finishes are evaluated and its tools run. */
  function Act(turn: Turn, t: TurnScript, turns: seq<Turn>, calls: nat, batches: seq<Batch>): Progress {
    var recorded := turns + [turn];
    var verdict := Judge(turn.actions, t.evaluations, |turn.actions|);
    if verdict.Threw? then Ended(Fail(recorded, calls, batches))
    else if verdict.Accepted? then Ended(Return(recorded, calls, batches, verdict.text, Finished))
    else if verdict.StopAsked? then Ended(Return(recorded, calls, batches, "", Aborted))
    else if ToolActions(turn.actions) == [] then Went(recorded, calls, batches)
    else UseTools(turn, t, turns, calls, batches + [Batch(turn.turnNumber, ToolActions(turn.actions))])
  }

  function UseTools(turn: Turn, t: TurnScript, turns: seq<Turn>, calls: nat, executed: seq<Batch>): Progress {
    if t.tools.Throws? then Ended(Fail(turns + [turn], calls, executed))
    else
      var completed := turns + [turn.(toolResults := t.tools.value.results)];
      if t.tools.value.outcome.Stop? then Ended(Return(completed, calls, executed, "", Aborted))
      else Went(completed, calls, executed)
  }

  /** The loop from turn `n` on, given what earlier turns left behind. */
  function RunFrom(n: nat, maxTurns: int, script: Script, turns: seq<Turn>, calls: nat, batches: seq<Batch>): Run
    decreases maxTurns - n
  {
    if n > maxTurns then Return(turns, calls, batches, "", MaxTurns)
    else
      match TakeTurn(n, script(n), turns, calls, batches)
      case Ended(run) => run
      case Went(turns', calls', batches') => RunFrom(n + 1, maxTurns, script, turns', calls', batches')
  }

  // ---------------------------------------------------------------------------------------------
  // The loop itself
  // ---------------------------------------------------------------------------------------------

  class AgentLoop {
    var turns: seq<Turn>
    // the calls made to the model and tool adapters
    var modelCalls: nat
    var batches: seq<Batch>

    constructor ()
      ensures turns == [] && modelCalls == 0 && batches == []
    {
      turns, modelCalls, batches := [], 0, [];
    }

    /** Walks a turn's actions: evaluates finishes, collects tool calls. */
    method JudgeActions(actions: seq<Action>, evaluations: nat -> Answer<Evaluation>)
      returns (verdict: Verdict, toolActions: seq<Action>)
      ensures verdict == Judge(actions, evaluations, |actions|)
      ensures verdict.AllRejected? ==> toolActions == ToolActions(actions)
    {
      toolActions := [];
      verdict := AllRejected;
      for i := 0 to |actions|
        invariant verdict == AllRejected == Judge(actions, evaluations, i)
        invariant toolActions == ToolActions(actions[..i])
      {
        assert actions[..i + 1][..i] == actions[..i];
        var action := actions[i];
        if action.Finish? {
          var answer := evaluations(i);
          if answer.Throws? {
            verdict := Threw;
          } else if answer.value.accepted {
            verdict := Accepted(if answer.value.finishText.Some? then answer.value.finishText.value else action.text);
          } else if answer.value.outcome.Stop? {
            verdict := StopAsked;
          }
          if !verdict.AllRejected? {
            JudgeSettled(actions, evaluations, i + 1, |actions|);
            return;
          }
          continue;
        }
        toolActions := toolActions + [action];
      }
      assert actions[..|actions|] == actions;
    }

    /** `run`; a loop that was given no adapters refuses to start. */
    method RunLoop(adaptersPresent: bool, maxTurns: int, script: Script) returns (ending: Ending)
      modifies this
      ensures !adaptersPresent ==> ending == Fails && unchanged(this)
      ensures adaptersPresent ==>
                Run(ending, turns, modelCalls, batches)
                  == RunFrom(1, maxTurns, script, old(turns), old(modelCalls), old(batches))
    {
      if !adaptersPresent {
        return Fails;
      }
      ghost var whole := RunFrom(1, maxTurns, script, turns, modelCalls, batches);
      var turnNumber: nat := 1;
      while turnNumber <= maxTurns
        invariant RunFrom(turnNumber, maxTurns, script, turns, modelCalls, batches) == whole
        decreases maxTurns - turnNumber
      {
        var t := script(turnNumber);
        turnNumber := turnNumber + 1;
        if t.prepared.Throws? {
          return Fails;
        }
        if t.prepared.value.Stop? {
          return Returns(BuildResult(turns, "", Aborted));
        }
        modelCalls := modelCalls + 1;
        if t.response.Throws? {
          return Fails;
        }
        if t.response.value.Stopped? {
          return Returns(BuildResult(turns, "", Aborted));
        }
        if t.inspected.Throws? {
          return Fails;
        }
        if t.inspected.value.StopNow? {
          return Returns(BuildResult(turns, "", Aborted));
        }
        if t.inspected.value.Skip? {
          continue;
        }
        if t.parsed.Invalid? {
          if t.parsed.handled.Throws? {
            return Fails;
          }
          if t.parsed.handled.value.Stop? {
            return Returns(BuildResult(turns, "", Aborted));
          }
          continue;
        }
        var turn := Turn(turnNumber - 1, t.response.value.usage, t.parsed.actions, []);
        ghost var earlier := turns;
        turns := turns + [turn];
        var verdict, toolActions := JudgeActions(t.parsed.actions, t.evaluations);
        match verdict {
          case Threw => return Fails;
          case Accepted(text) => return Returns(BuildResult(turns, text, Finished));
          case StopAsked => return Returns(BuildResult(turns, "", Aborted));
          case AllRejected =>
        }
        if toolActions == [] {
          continue;
        }
        batches := batches + [Batch(turnNumber - 1, toolActions)];
        if t.tools.Throws? {
          return Fails;
        }
        turns := turns[|turns| - 1 := turn.(toolResults := t.tools.value.results)];
        assert turns == earlier + [turn.(toolResults := t.tools.value.results)];
        if t.tools.value.outcome.Stop? {
          return Returns(BuildResult(turns, "", Aborted));
        }
      }
      return Returns(BuildResult(turns, "", MaxTurns));
    }
  }

  /** Once a verdict is reached, later actions are not looked at. */
  lemma {:induction false} JudgeSettled(actions: seq<Action>, evaluations: nat -> Answer<Evaluation>, i: nat, j: nat)
    requires i <= j <= |actions| && !Judge(actions, evaluations, i).AllRejected?
    ensures Judge(actions, evaluations, j) == Judge(actions, evaluations, i)
    decreases j
  {
    if i < j {
      JudgeSettled(actions, evaluations, i, j - 1);
    }
  }

  // ---------------------------------------------------------------------------------------------
  // What decides a turn
  // ---------------------------------------------------------------------------------------------

  predicate Rejects(answer: Answer<Evaluation>) {
    answer.Gives? && !answer.value.accepted && answer.value.outcome.Continue?
  }

  /** Every finish among the first `count` actions was evaluated, not accepted, and asked to go on. */
  predicate RejectedBefore(actions: seq<Action>, evaluations: nat -> Answer<Evaluation>, count: nat)
    requires count <= |actions|
  {
    forall j: nat | j < count && actions[j].Finish? :: Rejects(evaluations(j))
  }

  /** Action `i` is the first finish that was not simply rejected. */
  predicate DecidesAt(actions: seq<Action>, evaluations: nat -> Answer<Evaluation>, i: nat) {
    && i < |actions| && actions[i].Finish? && !Rejects(evaluations(i))
    && RejectedBefore(actions, evaluations, i)
  }

  predicate AcceptsAt(actions: seq<Action>, evaluations: nat -> Answer<Evaluation>, i: nat) {
    DecidesAt(actions, evaluations, i) && evaluations(i).Gives? && evaluations(i).value.accepted
  }

  /** The text the evaluation puts in place of the action's, or the action's own. */
  predicate IsAcceptedText(actions: seq<Action>, evaluations: nat -> Answer<Evaluation>, i: nat, text: string)
    requires AcceptsAt(actions, evaluations, i)
  {
    var replaced := evaluations(i).value.finishText;
    text == if replaced.Some? then replaced.value else actions[i].text
  }

  /** The verdict on the first actions is that of the finish that decides, if one of them does. */
  lemma {:induction false} JudgeIsFirst(actions: seq<Action>, evaluations: nat -> Answer<Evaluation>, count: nat)
    returns (i: nat)
    requires count <= |actions|
    ensures var verdict := Judge(actions, evaluations, count);
            && (verdict.AllRejected? <==> RejectedBefore(actions, evaluations, count))
            && (!verdict.AllRejected? ==> i < count && DecidesAt(actions, evaluations, i))
            && (verdict.Threw? ==> evaluations(i).Throws?)
            && (verdict.Accepted? ==>
                  AcceptsAt(actions, evaluations, i) && IsAcceptedText(actions, evaluations, i, verdict.text))
            && (verdict.StopAsked? ==>
                  evaluations(i).Gives? && !evaluations(i).value.accepted && evaluations(i).value.outcome.Stop?)
  {
    i := 0;
    if count > 0 {
      i := JudgeIsFirst(actions, evaluations, count - 1);
      if Judge(actions, evaluations, count - 1).AllRejected? && !Judge(actions, evaluations, count).AllRejected? {
        i := count - 1;
      }
    }
  }

  /** At most one finish decides. */
  lemma {:induction false} DecidesOnce(actions: seq<Action>, evaluations: nat -> Answer<Evaluation>, i: nat, j: nat)
    requires DecidesAt(actions, evaluations, i) && DecidesAt(actions, evaluations, j)
    ensures i == j
  {
  }

  /** Tool actions are kept one by one, in order, and finishes are left out. */
  lemma {:induction false} ToolActionsKept(a: seq<Action>, b: seq<Action>, action: Action)
    ensures ToolActions(a + b) == ToolActions(a) + ToolActions(b)
    ensures ToolActions([action]) == if action.Tool? then [action] else []
    decreases |b|
  {
    assert [action][..0] == [];
    if b == [] {
      assert a + b == a;
    } else {
      var front := b[..|b| - 1];
      assert (a + b)[..|a + b| - 1] == a + front;
      ToolActionsKept(a, front, action);
    }
  }

  /** A result's totals grow by what each turn used, counting what was not reported as nothing. */
  lemma {:induction false} TotalsGrow(turns: seq<Turn>, turn: Turn, text: string, reason: Reason)
    ensures var before, after := BuildResult(turns, text, reason), BuildResult(turns + [turn], text, reason);
            && after.promptTokens
                 == before.promptTokens + (if turn.usage.promptTokens.Some? then turn.usage.promptTokens.value else 0)
            && after.outputTokens
                 == before.outputTokens + (if turn.usage.outputTokens.Some? then turn.usage.outputTokens.value else 0)
            && after.thinkingTokens
                 == before.thinkingTokens +
                    (if turn.usage.thinkingTokens.Some? then turn.usage.thinkingTokens.value else 0)
    ensures var none := BuildResult([], text, reason);
            none.promptTokens == none.outputTokens == none.thinkingTokens == 0
  {
    TotalAppend(turns, [turn], PromptTokensOf);
    TotalAppend(turns, [turn], OutputTokensOf);
    TotalAppend(turns, [turn], ThinkingTokensOf);
    assert Total([turn], PromptTokensOf) == PromptTokensOf(turn) + Total([], PromptTokensOf);
    assert Total([turn], OutputTokensOf) == OutputTokensOf(turn) + Total([], OutputTokensOf);
    assert Total([turn], ThinkingTokensOf) == ThinkingTokensOf(turn) + Total([], ThinkingTokensOf);
  }

  // ---------------------------------------------------------------------------------------------
  // What every run keeps, whatever the adapters answer
  // ---------------------------------------------------------------------------------------------

  /** Turn numbers ascend strictly and stay below `bound`. */
  ghost predicate Ascending(turns: seq<Turn>, bound: int) {
    && (forall i, j | 0 <= i < j < |turns| :: turns[i].turnNumber < turns[j].turnNumber)
    && (forall i | 0 <= i < |turns| :: 1 <= turns[i].turnNumber < bound)
  }

  /** The batch is its turn's tool actions in order, and the turn's finishes had all been rejected. */
  ghost predicate BatchOf(batch: Batch, turn: Turn, script: Script) {
    && batch.turnNumber == turn.turnNumber
    && batch.actions == ToolActions(turn.actions) != []
    && AllFinishesRejected(turn, script)
  }

  predicate AllFinishesRejected(turn: Turn, script: Script) {
    RejectedBefore(turn.actions, script(turn.turnNumber).evaluations, |turn.actions|)
  }

  predicate RanTools(turn: Turn, batches: seq<Batch>) {
    exists i | 0 <= i < |batches| :: batches[i].turnNumber == turn.turnNumber
  }

  ghost predicate Traced(batch: Batch, turns: seq<Turn>, script: Script) {
    exists k | 0 <= k < |turns| :: BatchOf(batch, turns[k], script)
  }

  ghost predicate BatchesTraced(turns: seq<Turn>, batches: seq<Batch>, script: Script) {
    && (forall i | 0 <= i < |batches| :: Traced(batches[i], turns, script))
    && (forall i, j | 0 <= i < j < |batches| :: batches[i].turnNumber < batches[j].turnNumber)
  }

  /** A turn is recorded when its response arrived, passed inspection and was parsed. */
  predicate Records(t: TurnScript) {
    && t.prepared == Gives(Continue) && t.response.Gives? && t.response.value.Responded?
    && t.inspected == Gives(Proceed) && t.parsed.Actions?
  }

  /** All finishes rejected, and tools asked for. */
  predicate UsesTools(turn: Turn, script: Script) {
    ToolActions(turn.actions) != [] && AllFinishesRejected(turn, script)
  }

  /**
   The turn holds what the adapters gave for it, its tools ran exactly when it uses tools, and its results are
   then what the tool adapter gave; a call that throws gives none.
   */
  ghost predicate TurnOf(turn: Turn, batches: seq<Batch>, script: Script) {
    var t := script(turn.turnNumber);
    && Records(t) && turn.usage == t.response.value.usage && turn.actions == t.parsed.actions
    && (RanTools(turn, batches) <==> UsesTools(turn, script))
    && turn.toolResults == if UsesTools(turn, script) && t.tools.Gives? then t.tools.value.results else []
  }

  ghost predicate TurnsTraced(turns: seq<Turn>, batches: seq<Batch>, script: Script) {
    forall k | 0 <= k < |turns| :: TurnOf(turns[k], batches, script)
  }

  predicate HasTurn(turns: seq<Turn>, n: nat) {
    exists k :: 0 <= k < |turns| && turns[k].turnNumber == n
  }

  /** No turn that should be recorded is left out. */
  ghost predicate AllRecorded(turns: seq<Turn>, script: Script, upTo: nat) {
    forall n: nat | 1 <= n <= upTo && Records(script(n)) :: HasTurn(turns, n)
  }

  ghost predicate AcceptedFinish(turn: Turn, script: Script) {
    exists i: nat :: AcceptsAt(turn.actions, script(turn.turnNumber).evaluations, i)
  }

  /** The turn was accepted with this text. */
  ghost predicate AcceptedWith(turn: Turn, script: Script, text: string) {
    var evaluations := script(turn.turnNumber).evaluations;
    exists i: nat :: AcceptsAt(turn.actions, evaluations, i) && IsAcceptedText(turn.actions, evaluations, i, text)
  }

  lemma {:induction false} TurnVerdict(turn: Turn, script: Script)
    ensures var verdict := Judge(turn.actions, script(turn.turnNumber).evaluations, |turn.actions|);
            && (verdict.AllRejected? <==> AllFinishesRejected(turn, script))
            && (verdict.Accepted? <==> AcceptedFinish(turn, script))
            && (verdict.Accepted? ==> AcceptedWith(turn, script, verdict.text))
  {
    var evaluations := script(turn.turnNumber).evaluations;
    var i := JudgeIsFirst(turn.actions, evaluations, |turn.actions|);
    if j: nat :| AcceptsAt(turn.actions, evaluations, j) {
      if !AllFinishesRejected(turn, script) {
        DecidesOnce(turn.actions, evaluations, i, j);
      }
    }
  }

  ghost predicate NoneAccepted(turns: seq<Turn>, script: Script) {
    forall k | 0 <= k < |turns| :: !AcceptedFinish(turns[k], script)
  }

  /** What a number of model calls has left behind. */
  ghost predicate Left(turns: seq<Turn>, calls: nat, batches: seq<Batch>, script: Script, bound: int) {
    && Ascending(turns, bound)
    && BatchesTraced(turns, batches, script)
    && TurnsTraced(turns, batches, script)
    && AllRecorded(turns, script, calls)
  }

  /** The state of the loop before turn `n`. */
  ghost predicate LoopInv(n: nat, script: Script, turns: seq<Turn>, calls: nat, batches: seq<Batch>) {
    && n >= 1
    && calls == n - 1
    && Left(turns, calls, batches, script, n)
    && (forall i | 0 <= i < |batches| :: batches[i].turnNumber < n)
    && NoneAccepted(turns, script)
  }

  /** The result holds the recorded turns and the sums of what they used. */
  ghost predicate Reports(result: Result, turns: seq<Turn>) {
    && result.turns == turns
    && result.promptTokens == Total(turns, PromptTokensOf)
    && result.outputTokens == Total(turns, OutputTokensOf)
    && result.thinkingTokens == Total(turns, ThinkingTokensOf)
  }

  /** The result says finished exactly when the last turn was accepted, and with the text it was accepted with. */
  ghost predicate EndsHonestly(run: Run, script: Script) {
    && (run.ending.Returns? ==> Reports(run.ending.result, run.turns))
    && (run.ending.Returns? && run.ending.result.reason.Finished? <==>
          run.turns != [] && AcceptedFinish(run.turns[|run.turns| - 1], script))
    && (run.ending.Returns? && run.ending.result.reason.Finished? ==>
          && AcceptedWith(run.turns[|run.turns| - 1], script, run.ending.result.finishText)
          && !RanTools(run.turns[|run.turns| - 1], run.batches))
    && (run.ending.Returns? && !run.ending.result.reason.Finished? ==> run.ending.result.finishText == "")
    && (run.ending.Returns? && run.ending.result.reason.MaxTurns? ==> NoneAccepted(run.turns, script))
    && (forall k | 0 <= k < |run.turns| - 1 :: !AcceptedFinish(run.turns[k], script))
  }

  /** What a finished run promises. */
  ghost predicate RunFacts(run: Run, maxTurns: int, script: Script) {
    && run.modelCalls <= Max(0, maxTurns)
    && Left(run.turns, run.modelCalls, run.batches, script, maxTurns + 1)
    && EndsHonestly(run, script)
  }

  lemma {:induction false} TracedLater(batch: Batch, turns: seq<Turn>, turn: Turn, script: Script)
    requires Traced(batch, turns, script) || BatchOf(batch, turn, script)
    ensures Traced(batch, turns + [turn], script)
  {
    var all := turns + [turn];
    if BatchOf(batch, turn, script) {
      assert BatchOf(batch, all[|turns|], script);
    } else {
      var k :| 0 <= k < |turns| && BatchOf(batch, turns[k], script);
      assert BatchOf(batch, all[k], script);
    }
  }

  lemma {:induction false} RanToolsAppend(turn: Turn, batches: seq<Batch>, batch: Batch)
    ensures RanTools(turn, batches + [batch]) <==> RanTools(turn, batches) || batch.turnNumber == turn.turnNumber
  {
    var all := batches + [batch];
    if batch.turnNumber == turn.turnNumber {
      assert all[|batches|].turnNumber == turn.turnNumber;
    } else if i :| 0 <= i < |batches| && batches[i].turnNumber == turn.turnNumber {
      assert all[i].turnNumber == turn.turnNumber;
    }
  }

  lemma {:induction false} RecordedAppend(turns: seq<Turn>, turn: Turn, script: Script, calls: nat)
    requires AllRecorded(turns, script, calls) && turn.turnNumber == calls + 1
    ensures AllRecorded(turns + [turn], script, calls + 1)
  {
    var all := turns + [turn];
    forall n: nat | 1 <= n <= calls + 1 && Records(script(n))
      ensures HasTurn(all, n)
    {
      if n == calls + 1 {
        assert all[|turns|].turnNumber == n;
      } else {
        var k :| 0 <= k < |turns| && turns[k].turnNumber == n;
        assert all[k].turnNumber == n;
      }
    }
  }

  /** The turn as it is recorded, before any tool runs. */
  ghost predicate Fresh(turn: Turn, n: nat, script: Script) {
    && turn.turnNumber == n && Records(script(n))
    && turn == Turn(n, script(n).response.value.usage, script(n).parsed.actions, [])
  }

  lemma {:induction false} AscendingAppend(
    n: nat, script: Script, turns: seq<Turn>, calls: nat, batches: seq<Batch>, turn: Turn)
    requires LoopInv(n, script, turns, calls, batches) && turn.turnNumber == n
    ensures Ascending(turns + [turn], n + 1)
  {
  }

  lemma {:induction false} BatchesTracedAppend(turns: seq<Turn>, batches: seq<Batch>, script: Script, turn: Turn)
    requires BatchesTraced(turns, batches, script)
    ensures BatchesTraced(turns + [turn], batches, script)
  {
    forall i | 0 <= i < |batches|
      ensures Traced(batches[i], turns + [turn], script)
    {
      TracedLater(batches[i], turns, turn, script);
    }
  }

  lemma {:induction false} NoBatchYet(n: nat, batches: seq<Batch>, turn: Turn)
    requires turn.turnNumber == n && forall i | 0 <= i < |batches| :: batches[i].turnNumber < n
    ensures !RanTools(turn, batches)
  {
  }

  /** A turn that uses no tools is recorded. */
  lemma {:induction false} RecordTurn(
    n: nat, script: Script, turns: seq<Turn>, calls: nat, batches: seq<Batch>, turn: Turn)
    requires LoopInv(n, script, turns, calls, batches) && Fresh(turn, n, script) && !UsesTools(turn, script)
    ensures Left(turns + [turn], calls + 1, batches, script, n + 1)
  {
    AscendingAppend(n, script, turns, calls, batches, turn);
    BatchesTracedAppend(turns, batches, script, turn);
    NoBatchYet(n, batches, turn);
    RecordedAppend(turns, turn, script, calls);
  }

  lemma {:induction false} TurnsTracedWithBatch(
    n: nat, script: Script, turns: seq<Turn>, batches: seq<Batch>, turn: Turn, batch: Batch)
    requires TurnsTraced(turns, batches, script) && Ascending(turns, n) && batch.turnNumber == turn.turnNumber == n
    requires TurnOf(turn, batches + [batch], script)
    ensures TurnsTraced(turns + [turn], batches + [batch], script)
  {
    forall k | 0 <= k < |turns|
      ensures TurnOf(turns[k], batches + [batch], script)
    {
      RanToolsAppend(turns[k], batches, batch);
    }
  }

  lemma {:induction false} BatchTracedAppend(
    n: nat, script: Script, turns: seq<Turn>, batches: seq<Batch>, turn: Turn, batch: Batch)
    requires BatchesTraced(turns, batches, script) && BatchOf(batch, turn, script)
    requires batch.turnNumber == n && forall i | 0 <= i < |batches| :: batches[i].turnNumber < n
    ensures BatchesTraced(turns + [turn], batches + [batch], script)
  {
    var executed := batches + [batch];
    forall i | 0 <= i < |executed|
      ensures Traced(executed[i], turns + [turn], script)
    {
      TracedLater(executed[i], turns, turn, script);
    }
  }

  /** A turn whose tools run is recorded together with its batch. */
  lemma {:induction false} RecordBatch(
    n: nat, script: Script, turns: seq<Turn>, calls: nat, batches: seq<Batch>, turn: Turn)
    requires LoopInv(n, script, turns, calls, batches)
    requires Fresh(turn.(toolResults := []), n, script) && UsesTools(turn, script)
    requires turn.toolResults == if script(n).tools.Gives? then script(n).tools.value.results else []
    ensures Left(turns + [turn], calls + 1, batches + [Batch(n, ToolActions(turn.actions))], script, n + 1)
  {
    var batch := Batch(n, ToolActions(turn.actions));
    AscendingAppend(n, script, turns, calls, batches, turn);
    RecordedAppend(turns, turn, script, calls);
    BatchTracedAppend(n, script, turns, batches, turn, batch);
    RanToolsAppend(turn, batches, batch);
    TurnsTracedWithBatch(n, script, turns, batches, turn, batch);
  }

  ghost predicate Kept(progress: Progress, n: nat, maxTurns: int, script: Script) {
    match progress
    case Ended(run) => RunFacts(run, maxTurns, script)
    case Went(turns, calls, batches) => LoopInv(n + 1, script, turns, calls, batches)
  }

  lemma {:induction false} LeftLater(
    turns: seq<Turn>, calls: nat, batches: seq<Batch>, script: Script, bound: int, later: int)
    requires Left(turns, calls, batches, script, bound) && bound <= later
    ensures Left(turns, calls, batches, script, later)
  {
  }

  /** A run that ends with its last recorded turn not accepted, by a stop or by an exception. */
  lemma {:induction false} CutShortKeeps(
    n: nat, maxTurns: int, script: Script, turns: seq<Turn>, calls: nat, batches: seq<Batch>, run: Run)
    requires 1 <= n <= maxTurns && calls <= n && Left(turns, calls, batches, script, n + 1)
    requires NoneAccepted(turns, script)
    requires run.turns == turns && run.modelCalls == calls && run.batches == batches
    requires run.ending == Fails || run.ending == Returns(BuildResult(turns, "", Aborted))
    ensures RunFacts(run, maxTurns, script)
  {
    LeftLater(turns, calls, batches, script, n + 1, maxTurns + 1);
  }

  lemma {:induction false} UseToolsKeeps(
    n: nat, maxTurns: int, script: Script, turn: Turn, turns: seq<Turn>, calls: nat, batches: seq<Batch>)
    requires LoopInv(n, script, turns, calls, batches) && n <= maxTurns
    requires Fresh(turn, n, script) && UsesTools(turn, script)
    ensures Kept(UseTools(turn, script(n), turns, calls + 1, batches + [Batch(n, ToolActions(turn.actions))]),
                 n, maxTurns, script)
  {
    var executed := batches + [Batch(n, ToolActions(turn.actions))];
    var results := if script(n).tools.Gives? then script(n).tools.value.results else [];
    var completed := turn.(toolResults := results);
    TurnVerdict(completed, script);
    RecordBatch(n, script, turns, calls, batches, completed);
    assert results == [] ==> completed == turn;
    match UseTools(turn, script(n), turns, calls + 1, executed)
    case Ended(run) => CutShortKeeps(n, maxTurns, script, turns + [completed], calls + 1, executed, run);
    case Went(_, _, _) =>
  }

  lemma {:induction false} AcceptedKeeps(
    n: nat, maxTurns: int, script: Script, turn: Turn, turns: seq<Turn>, calls: nat, batches: seq<Batch>, text: string)
    requires LoopInv(n, script, turns, calls, batches) && n <= maxTurns && Fresh(turn, n, script)
    requires AcceptedFinish(turn, script) && AcceptedWith(turn, script, text)
    ensures RunFacts(Return(turns + [turn], calls + 1, batches, text, Finished), maxTurns, script)
  {
    TurnVerdict(turn, script);
    RecordTurn(n, script, turns, calls, batches, turn);
    NoBatchYet(n, batches, turn);
    LeftLater(turns + [turn], calls + 1, batches, script, n + 1, maxTurns + 1);
    var all := turns + [turn];
    assert all[|all| - 1] == turn;
  }

  lemma {:induction false} ActKeeps(
    n: nat, maxTurns: int, script: Script, turn: Turn, turns: seq<Turn>, calls: nat, batches: seq<Batch>)
    requires LoopInv(n, script, turns, calls, batches) && n <= maxTurns && Fresh(turn, n, script)
    ensures Kept(Act(turn, script(n), turns, calls + 1, batches), n, maxTurns, script)
  {
    var verdict := Judge(turn.actions, script(n).evaluations, |turn.actions|);
    TurnVerdict(turn, script);
    if UsesTools(turn, script) {
      UseToolsKeeps(n, maxTurns, script, turn, turns, calls, batches);
    } else if verdict.Accepted? {
      AcceptedKeeps(n, maxTurns, script, turn, turns, calls, batches, verdict.text);
    } else {
      RecordTurn(n, script, turns, calls, batches, turn);
      match Act(turn, script(n), turns, calls + 1, batches)
      case Ended(run) => CutShortKeeps(n, maxTurns, script, turns + [turn], calls + 1, batches, run);
      case Went(_, _, _) =>
    }
  }

  /** A run that ends before its turn is recorded leaves what earlier turns left. */
  lemma {:induction false} EarlyEndKeeps(
    n: nat, maxTurns: int, script: Script, turns: seq<Turn>, calls: nat, batches: seq<Batch>, run: Run)
    requires LoopInv(n, script, turns, calls, batches) && n <= maxTurns
    requires !Records(script(n)) && run.turns == turns && run.batches == batches
    requires calls <= run.modelCalls <= calls + 1
    requires run.ending == Fails || run.ending == Returns(BuildResult(turns, "", Aborted))
    ensures RunFacts(run, maxTurns, script)
  {
    LeftLater(turns, calls, batches, script, n, n + 1);
    CutShortKeeps(n, maxTurns, script, turns, run.modelCalls, batches, run);
  }

  /** A run that used up its turns. */
  lemma {:induction false} MaxTurnsKeeps(
    n: nat, maxTurns: int, script: Script, turns: seq<Turn>, calls: nat, batches: seq<Batch>)
    requires LoopInv(n, script, turns, calls, batches) && n == Max(0, maxTurns) + 1
    ensures RunFacts(Return(turns, calls, batches, "", MaxTurns), maxTurns, script)
  {
    assert turns != [] ==> 1 <= turns[0].turnNumber < n;
  }

  lemma {:induction false} NextTurnKeeps(n: nat, script: Script, turns: seq<Turn>, calls: nat, batches: seq<Batch>)
    requires LoopInv(n, script, turns, calls, batches) && !Records(script(n))
    ensures LoopInv(n + 1, script, turns, calls + 1, batches)
  {
  }

  lemma {:induction false} UnrecordedTurn(n: nat, t: TurnScript, turns: seq<Turn>, calls: nat, batches: seq<Batch>)
    requires !Records(t)
    ensures match TakeTurn(n, t, turns, calls, batches)
            case Ended(run) =>
              && run.turns == turns && run.batches == batches && calls <= run.modelCalls <= calls + 1
              && (run.ending == Fails || run.ending == Returns(BuildResult(turns, "", Aborted)))
            case Went(turns', calls', batches') => turns' == turns && calls' == calls + 1 && batches' == batches
  {
  }

  lemma {:induction false} TakeTurnKeeps(
    n: nat, maxTurns: int, script: Script, turns: seq<Turn>, calls: nat, batches: seq<Batch>)
    requires LoopInv(n, script, turns, calls, batches) && n <= maxTurns
    ensures Kept(TakeTurn(n, script(n), turns, calls, batches), n, maxTurns, script)
  {
    var t := script(n);
    if Records(t) {
      var turn := Turn(n, t.response.value.usage, t.parsed.actions, []);
      ActKeeps(n, maxTurns, script, turn, turns, calls, batches);
      assert TakeTurn(n, t, turns, calls, batches) == Act(turn, t, turns, calls + 1, batches);
    } else {
      UnrecordedTurn(n, t, turns, calls, batches);
      match TakeTurn(n, t, turns, calls, batches)
      case Ended(run) => EarlyEndKeeps(n, maxTurns, script, turns, calls, batches, run);
      case Went(_, _, _) => NextTurnKeeps(n, script, turns, calls, batches);
    }
  }

  /** From any state the loop can be in, the run keeps its promises. */
  lemma {:induction false} RunFromKeeps(
    n: nat, maxTurns: int, script: Script, turns: seq<Turn>, calls: nat, batches: seq<Batch>)
    requires LoopInv(n, script, turns, calls, batches) && n <= Max(0, maxTurns) + 1
    ensures RunFacts(RunFrom(n, maxTurns, script, turns, calls, batches), maxTurns, script)
    decreases maxTurns - n
  {
    if n <= maxTurns {
      TakeTurnKeeps(n, maxTurns, script, turns, calls, batches);
      match TakeTurn(n, script(n), turns, calls, batches)
      case Ended(_) =>
      case Went(turns', calls', batches') => RunFromKeeps(n + 1, maxTurns, script, turns', calls', batches');
    } else {
      MaxTurnsKeeps(n, maxTurns, script, turns, calls, batches);
    }
  }

  /**
   A fresh loop, whatever its adapters answer: at most `maxTurns` model calls, strictly increasing turn
   numbers, every turn whose response was parsed recorded as it was given, token totals equal to the sums over
   recorded turns, tools run exactly on the recorded turns that ask for them after all their finishes were
   rejected, with that turn's tool actions in order and the tool adapter's results, and `finished` exactly when
   the last recorded turn has an accepted finish, in which case that turn ran no tools.
   */
  lemma {:induction false} EveryRunKeepsItsPromises(maxTurns: int, script: Script)
    ensures RunFacts(RunFrom(1, maxTurns, script, [], 0, []), maxTurns, script)
  {
    RunFromKeeps(1, maxTurns, script, [], 0, []);
  }

  // ---------------------------------------------------------------------------------------------
  // Where a run ends, and how
  // ---------------------------------------------------------------------------------------------

  datatype Fate = GoesOn | IsStopped | Raises | IsFinished(text: string)

  /** The first adapter call of a turn that does not let it go on decides it. */
  ghost predicate HasFate(t: TurnScript, fate: Fate) {
    if t.prepared != Gives(Continue) then fate == if t.prepared.Throws? then Raises else IsStopped
    else if t.response.Throws? || t.response.value.Stopped? then
      fate == if t.response.Throws? then Raises else IsStopped
    else if t.inspected != Gives(Proceed) then
      fate == if t.inspected.Throws? then Raises else if t.inspected.value.Skip? then GoesOn else IsStopped
    else if t.parsed.Invalid? then
      fate == if t.parsed.handled.Throws? then Raises else if t.parsed.handled.value.Stop? then IsStopped else GoesOn
    else if RejectedBefore(t.parsed.actions, t.evaluations, |t.parsed.actions|) then
      if (forall a | a in t.parsed.actions :: a.Finish?) then fate == GoesOn
      else fate == if t.tools.Throws? then Raises else if t.tools.value.outcome.Stop? then IsStopped else GoesOn
    else
      exists i: nat :: DecidesAt(t.parsed.actions, t.evaluations, i) && FateOfFinish(t, i, fate)
  }

  predicate FateOfFinish(t: TurnScript, i: nat, fate: Fate)
    requires t.parsed.Actions? && DecidesAt(t.parsed.actions, t.evaluations, i)
  {
    if t.evaluations(i).Throws? then fate.Raises?
    else if t.evaluations(i).value.accepted then
      fate.IsFinished? && IsAcceptedText(t.parsed.actions, t.evaluations, i, fate.text)
    else fate.IsStopped?
  }

  lemma {:induction false} NoToolActions(actions: seq<Action>)
    ensures ToolActions(actions) == [] <==> forall a | a in actions :: a.Finish?
  {
    if actions != [] {
      var front, last := actions[..|actions| - 1], actions[|actions| - 1];
      NoToolActions(front);
      assert actions == front + [last];
      assert last in actions && forall a :: a in actions <==> a in front || a == last;
      assert ToolActions(actions) == if last.Tool? then ToolActions(front) + [last] else ToolActions(front);
    }
  }

  predicate EndsWith(run: Run, fate: Fate) {
    match fate
    case GoesOn => false
    case IsStopped => run.ending.Returns? && run.ending.result.reason.Aborted?
    case Raises => run.ending.Fails?
    case IsFinished(text) =>
      run.ending.Returns? && run.ending.result.reason.Finished? && run.ending.result.finishText == text
  }

  predicate AsksModel(t: TurnScript) {
    t.prepared == Gives(Continue)
  }

  lemma {:induction false} TurnFate(
    n: nat, t: TurnScript, turns: seq<Turn>, calls: nat, batches: seq<Batch>) returns (fate: Fate)
    ensures HasFate(t, fate)
    ensures match TakeTurn(n, t, turns, calls, batches)
            case Went(_, calls', _) => fate.GoesOn? && calls' == calls + 1
            case Ended(run) => EndsWith(run, fate) && run.modelCalls == calls + if AsksModel(t) then 1 else 0
  {
    fate := GoesOn;
    if Records(t) {
      var turn := Turn(n, t.response.value.usage, t.parsed.actions, []);
      fate := ActFate(turn, t, turns, calls + 1, batches);
      assert TakeTurn(n, t, turns, calls, batches) == Act(turn, t, turns, calls + 1, batches);
    } else {
      match TakeTurn(n, t, turns, calls, batches)
      case Ended(run) => fate := if run.ending.Fails? then Raises else IsStopped;
      case Went(_, _, _) =>
    }
  }

  lemma {:induction false} ActFate(
    turn: Turn, t: TurnScript, turns: seq<Turn>, calls: nat, batches: seq<Batch>) returns (fate: Fate)
    requires Records(t) && turn.actions == t.parsed.actions
    ensures HasFate(t, fate)
    ensures match Act(turn, t, turns, calls, batches)
            case Went(_, calls', _) => fate.GoesOn? && calls' == calls
            case Ended(run) => EndsWith(run, fate) && run.modelCalls == calls
  {
    var verdict := Judge(turn.actions, t.evaluations, |turn.actions|);
    var i := JudgeIsFirst(turn.actions, t.evaluations, |turn.actions|);
    NoToolActions(turn.actions);
    match verdict
    case Threw => fate := Raises;
    case Accepted(text) => fate := IsFinished(text);
    case StopAsked => fate := IsStopped;
    case AllRejected =>
      fate := if ToolActions(turn.actions) == [] then GoesOn
              else if t.tools.Throws? then Raises
              else if t.tools.value.outcome.Stop? then IsStopped
              else GoesOn;
  }

  /**
   A run goes on through its turns until the first one whose adapters do not let it go on, and that turn's fate is
   how it ends; if there is none within `maxTurns`, it ends there. The model is called once on every turn that
   was reached and prepared.
   */
  ghost predicate EndsAtFirst(run: Run, n: nat, maxTurns: int, script: Script, calls: nat) {
    || ((forall k: nat | n <= k <= maxTurns :: HasFate(script(k), GoesOn))
        && run.ending.Returns? && run.ending.result.reason.MaxTurns?
        && run.modelCalls == calls + Max(0, maxTurns + 1 - n))
    || (exists last: nat, fate ::
          && n <= last <= maxTurns && HasFate(script(last), fate) && EndsWith(run, fate)
          && (forall k: nat | n <= k < last :: HasFate(script(k), GoesOn))
          && run.modelCalls == calls + (last - n) + (if AsksModel(script(last)) then 1 else 0))
  }

  lemma {:induction false} RunFromEnds(
    n: nat, maxTurns: int, script: Script, turns: seq<Turn>, calls: nat, batches: seq<Batch>)
    ensures EndsAtFirst(RunFrom(n, maxTurns, script, turns, calls, batches), n, maxTurns, script, calls)
    decreases maxTurns - n
  {
    if n <= maxTurns {
      var fate := TurnFate(n, script(n), turns, calls, batches);
      match TakeTurn(n, script(n), turns, calls, batches)
      case Ended(run) =>
        assert n <= n <= maxTurns && HasFate(script(n), fate) && EndsWith(run, fate);
      case Went(turns', calls', batches') =>
        RunFromEnds(n + 1, maxTurns, script, turns', calls', batches');
        LaterEnd(RunFrom(n, maxTurns, script, turns, calls, batches), n, maxTurns, script, calls);
    }
  }

  lemma {:induction false} LaterEnd(run: Run, n: nat, maxTurns: int, script: Script, calls: nat)
    requires n <= maxTurns && HasFate(script(n), GoesOn) && EndsAtFirst(run, n + 1, maxTurns, script, calls + 1)
    ensures EndsAtFirst(run, n, maxTurns, script, calls)
  {
    if !((forall k: nat | n + 1 <= k <= maxTurns :: HasFate(script(k), GoesOn))
         && run.ending.Returns? && run.ending.result.reason.MaxTurns?) {
      var last: nat, fate :| n + 1 <= last <= maxTurns && HasFate(script(last), fate) && EndsWith(run, fate)
        && (forall k: nat | n + 1 <= k < last :: HasFate(script(k), GoesOn))
        && run.modelCalls == calls + 1 + (last - (n + 1)) + (if AsksModel(script(last)) then 1 else 0);
      assert n <= last <= maxTurns && HasFate(script(last), fate) && EndsWith(run, fate);
    }
  }

  /** The fate of a turn is unique. */
  lemma {:induction false} FateUnique(t: TurnScript, a: Fate, b: Fate)
    requires HasFate(t, a) && HasFate(t, b)
    ensures a == b
  {
    if Records(t) && !RejectedBefore(t.parsed.actions, t.evaluations, |t.parsed.actions|) {
      var i: nat :| DecidesAt(t.parsed.actions, t.evaluations, i) && FateOfFinish(t, i, a);
      var j: nat :| DecidesAt(t.parsed.actions, t.evaluations, j) && FateOfFinish(t, j, b);
      DecidesOnce(t.parsed.actions, t.evaluations, i, j);
    }
  }

  /** A fresh loop ends at the first turn that does not go on, and as that turn decides. */
  lemma {:induction false} RunEndsAtFirst(maxTurns: int, script: Script)
    ensures EndsAtFirst(RunFrom(1, maxTurns, script, [], 0, []), 1, maxTurns, script, 0)
  {
    RunFromEnds(1, maxTurns, script, [], 0, []);
  }
}
