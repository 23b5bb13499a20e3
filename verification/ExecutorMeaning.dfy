/** What an execution records, says and answers, in the terms of the model's messages and the tools' replies. */
module ExecutorMeaning {
  import opened Common
  import opened AgentModel
  import opened Registry
  import opened Executor
  import opened ExecutorLoop
  import opened ExecutorGuarantees

  // -- The recorded rows -------------------------------------------------------------------

  /** The row of a tool call carries the call's own name and arguments, and its result or its error. */
  ghost predicate Records(row: StepRow, call: ToolCall, o: ToolOutcome) {
    && row.ToolCallRow? && row.name == call.name && row.arguments == call.arguments
    && (match o
        case Refused(text) => row.error == text && row.result == ""
        case Ran(Failure(text)) => row.error == text && row.result == ""
        case Ran(Content(content)) => row.result == content && row.error == "")
  }

  lemma {:induction false} RowsInPlace(xs: seq<Exchange>, i: nat) returns (rest: seq<StepRow>)
    requires AllWellFormed(xs) && i < |xs|
    ensures AllWellFormed(xs[..i]) && Rows(xs) == (Rows(xs[..i]) + TurnRows(xs[i])) + rest
  {
    var n := |xs| - 1;
    if i < n {
      rest := RowsInPlace(xs[..n], i);
      assert xs[..n][..i] == xs[..i];
      Regroup3(Rows(xs[..i]) + TurnRows(xs[i]), rest, TurnRows(xs[n]));
      rest := rest + TurnRows(xs[n]);
    } else {
      rest := [];
    }
  }

  lemma {:induction false} PartAt<T>(a: seq<T>, b: seq<T>, rest: seq<T>, k: nat)
    requires k < |b|
    ensures |a| + k < |(a + b) + rest| && ((a + b) + rest)[|a| + k] == b[k]
  {
  }

  lemma {:induction false} TurnRowAt(xs: seq<Exchange>, i: nat, k: nat)
    requires AllWellFormed(xs) && i < |xs| && k <= |xs[i].outcomes|
    ensures AllWellFormed(xs[..i]) && |Rows(xs[..i])| + k < |Rows(xs)|
    ensures Rows(xs)[|Rows(xs[..i])| + k] == TurnRows(xs[i])[k]
  {
    var rest := RowsInPlace(xs, i);
    PartAt(Rows(xs[..i]), TurnRows(xs[i]), rest, k);
  }

  lemma {:induction false} StoredIsPrefix(
      e: Setting, xs: seq<Exchange>, sent: seq<seq<Message>>, stored: seq<StepRow>, outcome: Outcome)
    requires IsExecution(e, xs, sent, stored, outcome)
    ensures AllWellFormed(xs) && stored <= Rows(xs)
  {
  }

  ghost predicate RowsOfTurn(x: Exchange, stored: seq<StepRow>, at: nat) {
    && |x.outcomes| <= |x.message.toolCalls|
    && (at < |stored| ==> stored[at] == ModelCallRow(x.message.content, x.usage))
    && forall j :: 0 <= j < |x.outcomes| && at + 1 + j < |stored| ==>
         Records(stored[at + 1 + j], x.message.toolCalls[j], x.outcomes[j])
  }

  lemma {:induction false} PrefixRowsMean(xs: seq<Exchange>, stored: seq<StepRow>, i: nat)
    requires AllWellFormed(xs) && stored <= Rows(xs) && i < |xs|
    ensures AllWellFormed(xs[..i]) && RowsOfTurn(xs[i], stored, |Rows(xs[..i])|)
  {
    assert WellFormed(xs[i]);
    TurnRowAt(xs, i, 0);
    var at := |Rows(xs[..i])|;
    forall j | 0 <= j < |xs[i].outcomes| && at + 1 + j < |stored|
      ensures Records(stored[at + 1 + j], xs[i].message.toolCalls[j], xs[i].outcomes[j])
    {
      TurnRowAt(xs, i, 1 + j);
      ToolRowRecords(xs[i].message.toolCalls, xs[i].outcomes, j);
    }
  }

  /** Of every turn, the model call and each tool call have their rows, as far as rows were stored. */
  lemma {:induction false} StoredRowsMean(
      e: Setting, xs: seq<Exchange>, sent: seq<seq<Message>>, stored: seq<StepRow>, outcome: Outcome, i: nat)
    requires IsExecution(e, xs, sent, stored, outcome) && i < |xs|
    ensures AllWellFormed(xs[..i]) && RowsOfTurn(xs[i], stored, |Rows(xs[..i])|)
  {
    StoredIsPrefix(e, xs, sent, stored, outcome);
    PrefixRowsMean(xs, stored, i);
  }

  lemma {:induction false} ToolRowRecords(calls: seq<ToolCall>, os: seq<ToolOutcome>, j: nat)
    requires |os| <= |calls| && j < |os|
    ensures Records(ToolRows(calls, os)[j], calls[j], os[j])
  {
    ToolsAt(calls, os, j);
  }

  /** A turn takes one row for the model call and one for each tool call dealt with. */
  lemma {:induction false} RowsCount(xs: seq<Exchange>, i: nat)
    requires AllWellFormed(xs) && i < |xs|
    ensures Rows([]) == [] && AllWellFormed(xs[..i]) && AllWellFormed(xs[..i + 1])
    ensures |Rows(xs[..i + 1])| == |Rows(xs[..i])| + 1 + |xs[i].outcomes|
  {
    assert xs[..i + 1][..i] == xs[..i];
  }

  // -- The conversation --------------------------------------------------------------------

  /** What a tool call is answered with: the tool's content, or the error after a fixed prefix. */
  ghost predicate Answers(m: Message, call: ToolCall, o: ToolOutcome) {
    && m.role == "tool" && m.toolCallId == call.id && m.toolCalls == []
    && (match o
        case Refused(text) => m.content == "Error: " + text
        case Ran(Failure(text)) => m.content == "Error: " + text
        case Ran(Content(content)) => m.content == content)
  }

  /** One conversation is another followed by a message of the model and the answers to its tool calls. */
  ghost predicate Continued(before: seq<Message>, after: seq<Message>, x: Exchange) {
    && |after| == |before| + 1 + |x.message.toolCalls| && before <= after && after[|before|] == x.message
    && |x.outcomes| == |x.message.toolCalls|
    && forall j :: 0 <= j < |x.outcomes| ==>
         Answers(after[|before| + 1 + j], x.message.toolCalls[j], x.outcomes[j])
  }

  lemma {:induction false} TurnContinuesFrom(before: seq<Message>, x: Exchange)
    requires Complete(x)
    ensures Continued(before, before + TurnMessages(x), x)
  {
    var after := before + TurnMessages(x);
    forall j | 0 <= j < |x.outcomes|
      ensures Answers(after[|before| + 1 + j], x.message.toolCalls[j], x.outcomes[j])
    {
      ToolsAt(x.message.toolCalls, x.outcomes, j);
      assert after[|before| + 1 + j] == ToolMessages(x.message.toolCalls, x.outcomes)[j];
    }
  }

  lemma {:induction false} NextTurns(initial: seq<Message>, xs: seq<Exchange>, k: nat)
    requires k < |xs| && AllWellFormed(xs[..k + 1]) && Complete(xs[k])
    ensures AllWellFormed(xs[..k]) && Continued(initial + Turns(xs[..k]), initial + Turns(xs[..k + 1]), xs[k])
  {
    assert xs[..k + 1][..k] == xs[..k] && xs[..k + 1][k] == xs[k];
    Regroup3(initial, Turns(xs[..k]), TurnMessages(xs[k]));
    TurnContinuesFrom(initial + Turns(xs[..k]), xs[k]);
  }

  /**
   The first model call is sent the initial conversation, and each further one what was sent before, the
   model's message, and the answer to each of its tool calls.
   */
  lemma {:induction false} ConversationGrows(
      e: Setting, xs: seq<Exchange>, sent: seq<seq<Message>>, stored: seq<StepRow>, outcome: Outcome, k: nat)
    requires IsExecution(e, xs, sent, stored, outcome) && k < |sent|
    ensures k == 0 ==> sent[k] == e.initial
    ensures k > 0 ==>
      && k <= |xs| && Answered(e.w, k - 1) && xs[k - 1].message == e.w.model(k - 1).choices[0]
      && Continued(sent[k - 1], sent[k], xs[k - 1])
  {
    EarlierConversation(e, xs, sent, stored, outcome, k);
    if k == 0 {
      assert xs[..0] == [];
      assert e.initial + [] == e.initial;
    } else {
      EarlierConversation(e, xs, sent, stored, outcome, k - 1);
      MessageIsTheModels(e, xs, k - 1);
      assert Continues(xs[..k][k - 1]);
      NextTurns(e.initial, xs, k - 1);
    }
  }

  // -- The tools ---------------------------------------------------------------------------

  /**
   A tool is run exactly if it was granted, is registered and its arguments, or an empty object for blank
   ones, are valid JSON. Its reply is the outcome; a call that is not carried out is refused with the
   wording for what was wrong with it.
   */
  lemma {:induction false} OutcomesMean(
      e: Setting, xs: seq<Exchange>, sent: seq<seq<Message>>, stored: seq<StepRow>, outcome: Outcome, i: nat, j: nat)
    requires IsExecution(e, xs, sent, stored, outcome) && i < |xs| && j < |xs[i].outcomes|
    ensures j < |xs[i].message.toolCalls| && AllWellFormed(xs[..i])
    ensures var call := xs[i].message.toolCalls[j];
            var arguments := if e.w.blank(call.arguments) then "{}" else call.arguments;
            && (call.name !in e.granted || call.name !in e.catalog ==>
                  xs[i].outcomes[j] == Refused(e.w.wording(NotGranted(call.name))))
            && (call.name in e.granted && call.name in e.catalog && !e.w.validJson(arguments) ==>
                  xs[i].outcomes[j] == Refused(e.w.wording(BadArguments)))
            && (call.name in e.granted && call.name in e.catalog && e.w.validJson(arguments) ==>
                  xs[i].outcomes[j] == Ran(e.w.tool(e.catalog[call.name], arguments, |Rows(xs[..i])| + 1 + j)))
  {
    FollowsAt(e.granted, e.catalog, e.w, xs, i);
    OutcomeMeans(e, xs[i].message.toolCalls, |Rows(xs[..i])| + 1, xs[i].outcomes, j);
  }

  lemma {:induction false} OutcomeMeans(e: Setting, calls: seq<ToolCall>, index: nat, os: seq<ToolOutcome>, j: nat)
    requires AreOutcomes(e.granted, e.catalog, e.w, calls, index, os) && j < |os|
    ensures j < |calls|
    ensures var call := calls[j];
            var arguments := if e.w.blank(call.arguments) then "{}" else call.arguments;
            && (call.name !in e.granted || call.name !in e.catalog ==>
                  os[j] == Refused(e.w.wording(NotGranted(call.name))))
            && (call.name in e.granted && call.name in e.catalog && !e.w.validJson(arguments) ==>
                  os[j] == Refused(e.w.wording(BadArguments)))
            && (call.name in e.granted && call.name in e.catalog && e.w.validJson(arguments) ==>
                  os[j] == Ran(e.w.tool(e.catalog[call.name], arguments, index + j)))
  {
    assert IsOutcome(e.granted, e.catalog, e.w, calls[j], index + j, os[j]);
  }

  // -- The end -----------------------------------------------------------------------------

  /** The loop has spent its steps, its time or its tokens, in this order, and says which. */
  ghost predicate SpentUp(e: Setting, xs: seq<Exchange>, output: string) {
    var tokens := Spent(xs).prompt + Spent(xs).completion;
    var late := e.w.clock(|xs|) > e.w.startedAt + e.limits.seconds;
    || (|xs| >= e.limits.steps && output == "the run exceeded its step limit")
    || (|xs| < e.limits.steps && late && output == "the run exceeded its time limit")
    || (|xs| < e.limits.steps && !late && tokens > e.limits.tokens && output == "the run exceeded its token limit")
  }

  lemma {:induction false} LimitMeans(e: Setting, xs: seq<Exchange>, b: Budget)
    requires Limit(e, xs) == Some(b)
    ensures SpentUp(e, xs, Reason(b))
  {
  }

  /**
   An execution ends with a budget spent, naming it; with the content of an answer that makes no tool
   calls; or with an error, for a model call without an answer or a row that could not be recorded.
   */
  lemma {:induction false} EndMeans(
      e: Setting, xs: seq<Exchange>, sent: seq<seq<Message>>, stored: seq<StepRow>, outcome: Outcome)
    requires IsExecution(e, xs, sent, stored, outcome)
    ensures outcome.Done? && outcome.result.budgetExceeded ==> |sent| == |xs| && SpentUp(e, xs, outcome.result.output)
    ensures outcome.Done? && !outcome.result.budgetExceeded ==>
      && xs != [] && |sent| == |xs| && xs[|xs| - 1].message.toolCalls == []
      && outcome.result.output == xs[|xs| - 1].message.content
    ensures outcome.Error? ==>
      || (|sent| == |xs| + 1 && (e.w.model(|xs|).ProviderError? || e.w.model(|xs|).choices == []))
      || (xs != [] && |sent| == |xs| && RecordingFailed(e, xs))
  {
    if outcome.Done? && outcome.result.budgetExceeded {
      LimitMeans(e, xs, Limit(e, xs).value);
    }
  }

  /** The database refused the last row, or the row was there before. */
  ghost predicate RecordingFailed(e: Setting, xs: seq<Exchange>)
    requires AllWellFormed(xs)
  {
    |Rows(xs)| > 0 && (e.w.database(|Rows(xs)| - 1) != Stored || |Rows(xs)| - 1 in e.before)
  }

  // -- For an agent ------------------------------------------------------------------------

  /**
   An execution for an agent is under that agent's own limits: its steps, its seconds and its tokens, the
   last with the overshoot of one call; and it runs no tool that the agent was not granted.
   */
  lemma {:induction false} AgentsOwnLimits(
      agent: Agent, registry: ToolRegistry, store: StepStore, w: World, initial: seq<Message>,
      xs: seq<Exchange>, sent: seq<seq<Message>>, stored: seq<StepRow>, outcome: Outcome)
    requires IsExecution(SettingOf(agent, registry, store, w, initial), xs, sent, stored, outcome)
    ensures sent != [] ==> |sent| <= agent.maxSteps && sent[0] == initial
    ensures forall k :: 0 <= k < |sent| ==> w.clock(k) <= w.startedAt + agent.maxDurationSeconds
    ensures xs != [] ==>
      var spent, usage := Spent(xs), xs[|xs| - 1].usage;
      spent.prompt + spent.completion <= agent.maxTokens + usage.prompt + usage.completion
    ensures forall i, j :: 0 <= i < |xs| && 0 <= j < |xs[i].outcomes| && xs[i].outcomes[j].Ran? ==>
      j < |xs[i].message.toolCalls| && RunsFor(agent, registry, xs[i].message.toolCalls[j])
  {
    var e := SettingOf(agent, registry, store, w, initial);
    BudgetsHold(e, xs, sent, stored, outcome);
    if sent != [] {
      ConversationGrows(e, xs, sent, stored, outcome, 0);
    }
    forall i, j | 0 <= i < |xs| && 0 <= j < |xs[i].outcomes| && xs[i].outcomes[j].Ran?
      ensures j < |xs[i].message.toolCalls| && RunsFor(agent, registry, xs[i].message.toolCalls[j])
    {
      OutcomesMean(e, xs, sent, stored, outcome, i, j);
    }
  }

  /** The tool called is one the agent was granted, and registered. */
  predicate RunsFor(agent: Agent, registry: ToolRegistry, call: ToolCall)
    reads agent, registry
  {
    agent.tools.Some? && call.name in agent.tools.value && call.name in registry.tools
  }
}
