/** What holds of every execution, whatever the model, the tools, the clock and the database answer. */
module ExecutorGuarantees {
  import opened Common
  import AgentModel
  import opened Registry
  import opened Executor
  import opened ExecutorLoop

  // -- Budgets -----------------------------------------------------------------------------

  /** Every exchange was a model call, and at most one model call was no exchange. */
  lemma {:induction false} CallsMade(
      e: Setting, xs: seq<Exchange>, sent: seq<seq<Message>>, stored: seq<StepRow>, outcome: Outcome)
    requires IsExecution(e, xs, sent, stored, outcome)
    ensures AllAsked(e, xs, sent) && |xs| <= |sent| <= |xs| + 1
  {
  }

  lemma {:induction false} SpentBeforeLast(e: Setting, xs: seq<Exchange>, sent: seq<seq<Message>>)
    requires AllAsked(e, xs, sent) && 0 < |xs| <= |sent|
    ensures var spent := Spent(xs[..|xs| - 1]); spent.prompt + spent.completion <= e.limits.tokens
  {
    AskedAt(e, xs, sent, |xs| - 1);
  }

  lemma {:induction false} CallIsInTime(e: Setting, xs: seq<Exchange>, sent: seq<seq<Message>>, k: nat)
    requires AllAsked(e, xs, sent) && k < |sent|
    ensures k < e.limits.steps && e.w.clock(k) <= e.w.startedAt + e.limits.seconds
  {
    AskedAt(e, xs, sent, k);
  }

  /**
   At most as many model calls as the step limit, none begun after the deadline, and the tokens exceed
   the token limit by no more than the last call's own usage.
   */
  lemma {:induction false} BudgetsHold(
      e: Setting, xs: seq<Exchange>, sent: seq<seq<Message>>, stored: seq<StepRow>, outcome: Outcome)
    requires IsExecution(e, xs, sent, stored, outcome)
    ensures sent != [] ==> |sent| <= e.limits.steps
    ensures forall k :: 0 <= k < |sent| ==> e.w.clock(k) <= e.w.startedAt + e.limits.seconds
    ensures xs != [] ==>
      var spent, usage := Spent(xs), xs[|xs| - 1].usage;
      spent.prompt + spent.completion <= e.limits.tokens + usage.prompt + usage.completion
  {
    CallsMade(e, xs, sent, stored, outcome);
    forall k | 0 <= k < |sent|
      ensures k < e.limits.steps && e.w.clock(k) <= e.w.startedAt + e.limits.seconds
    {
      CallIsInTime(e, xs, sent, k);
    }
    if xs != [] {
      SpentBeforeLast(e, xs, sent);
    }
  }

  /** An agent that passed validation makes at most 100 model calls. */
  lemma {:induction false} CallsOfAStoredAgent(
      agent: AgentModel.Agent, registry: ToolRegistry, store: StepStore, w: World, initial: seq<Message>,
      xs: seq<Exchange>, sent: seq<seq<Message>>, stored: seq<StepRow>, outcome: Outcome)
    requires agent.Storable() && IsExecution(SettingOf(agent, registry, store, w, initial), xs, sent, stored, outcome)
    ensures |sent| <= 100
  {
    BudgetsHold(SettingOf(agent, registry, store, w, initial), xs, sent, stored, outcome);
  }

  // -- The reported totals -----------------------------------------------------------------

  /** The sums over the model-call rows of a trace. */
  function RecordedUsage(rows: seq<StepRow>): Usage {
    if rows == [] then Usage(0, 0)
    else
      var n := |rows| - 1;
      var before := RecordedUsage(rows[..n]);
      if rows[n].ModelCallRow?
      then Usage(before.prompt + rows[n].usage.prompt, before.completion + rows[n].usage.completion)
      else before
  }

  lemma {:induction false} ToolRowsCostNothing(rows: seq<StepRow>, calls: seq<ToolCall>, os: seq<ToolOutcome>)
    requires |os| <= |calls|
    ensures RecordedUsage(rows + ToolRows(calls, os)) == RecordedUsage(rows)
  {
    if os == [] {
      assert rows + ToolRows(calls, os) == rows;
    } else {
      var n := |os| - 1;
      ToolRowsCostNothing(rows, calls, os[..n]);
      Regroup(rows, ToolRows(calls, os[..n]), ToolRow(calls[n], os[n]));
      UsageSnoc(rows + ToolRows(calls, os[..n]), ToolRow(calls[n], os[n]));
    }
  }

  lemma {:induction false} UsageSnoc(rows: seq<StepRow>, row: StepRow)
    ensures RecordedUsage(rows + [row]) ==
            if row.ModelCallRow?
            then Usage(RecordedUsage(rows).prompt + row.usage.prompt,
                       RecordedUsage(rows).completion + row.usage.completion)
            else RecordedUsage(rows)
  {
    assert (rows + [row])[..|rows|] == rows;
  }

  lemma {:induction false} TraceAddsUp(xs: seq<Exchange>)
    requires AllWellFormed(xs)
    ensures RecordedUsage(Rows(xs)) == Spent(xs)
  {
    if xs != [] {
      var n := |xs| - 1;
      var x, front := xs[n], Rows(xs[..n]);
      var row, rest := ModelCallRow(x.message.content, x.usage), ToolRows(x.message.toolCalls, x.outcomes);
      TraceAddsUp(xs[..n]);
      UsageSnoc(front, row);
      ToolRowsCostNothing(front + [row], x.message.toolCalls, x.outcomes);
      Prepend(front, row, rest);
    }
  }

  /** A run that ends with an answer or a spent budget reports the sums over the model calls in its trace. */
  lemma {:induction false} ReportedTotalsAreRecorded(
    e: Setting, xs: seq<Exchange>, sent: seq<seq<Message>>, stored: seq<StepRow>, outcome: Outcome)
    requires IsExecution(e, xs, sent, stored, outcome) && outcome.Done?
    ensures outcome.result.tokens == RecordedUsage(stored)
  {
    TraceAddsUp(xs);
  }

  // -- The 32-bit report -------------------------------------------------------------------

  const INT32_MAX := 0x7FFF_FFFF

  /** The conversion of the totals for the wire keeps the low 32 bits, as a signed number. */
  function ToInt32(x: int): int {
    (x + 0x8000_0000) % 0x1_0000_0000 - 0x8000_0000
  }

  predicate Natural(u: Usage) {
    0 <= u.prompt && 0 <= u.completion
  }

  predicate Moderate(u: Usage) {
    && 0 <= u.prompt <= INT32_MAX - AgentModel.CEILING_MAX_TOKENS
    && 0 <= u.completion <= INT32_MAX - AgentModel.CEILING_MAX_TOKENS
  }

  lemma {:induction false} SpentIsNatural(xs: seq<Exchange>)
    requires forall i :: 0 <= i < |xs| ==> Natural(xs[i].usage)
    ensures Natural(Spent(xs))
  {
    if xs != [] {
      SpentIsNatural(xs[..|xs| - 1]);
    }
  }

  lemma {:induction false} ToInt32IsExactIff(x: nat)
    ensures ToInt32(x) == x <==> x <= INT32_MAX
  {
  }

  /** What the worker reports is what the trace adds up to. */
  predicate Exact(r: Result, stored: seq<StepRow>) {
    Usage(ToInt32(r.tokens.prompt), ToInt32(r.tokens.completion)) == RecordedUsage(stored)
  }

  /**
   With usage that is not negative, a report is exact if and only if the last call uses no more prompt
   and no more completion tokens than the earlier calls left of the 32-bit range.
   */
  lemma {:induction false} ReportIsExactIff(
      e: Setting, xs: seq<Exchange>, sent: seq<seq<Message>>, stored: seq<StepRow>, outcome: Outcome)
    requires IsExecution(e, xs, sent, stored, outcome) && outcome.Done? && xs != []
    requires forall i :: 0 <= i < |xs| ==> Natural(xs[i].usage)
    ensures Exact(outcome.result, stored) <==>
      && xs[|xs| - 1].usage.prompt <= INT32_MAX - Spent(xs[..|xs| - 1]).prompt
      && xs[|xs| - 1].usage.completion <= INT32_MAX - Spent(xs[..|xs| - 1]).completion
  {
    ReportedTotalsAreRecorded(e, xs, sent, stored, outcome);
    SpentIsNatural(xs);
    ToInt32IsExactIff(Spent(xs).prompt);
    ToInt32IsExactIff(Spent(xs).completion);
  }

  /** So under the token ceiling calls of moderate usage are reported exactly. */
  lemma {:induction false} ReportIsExact(
      e: Setting, xs: seq<Exchange>, sent: seq<seq<Message>>, stored: seq<StepRow>, outcome: Outcome)
    requires IsExecution(e, xs, sent, stored, outcome) && outcome.Done?
    requires e.limits.tokens <= AgentModel.CEILING_MAX_TOKENS
    requires forall i :: 0 <= i < |xs| ==> Moderate(xs[i].usage)
    ensures Exact(outcome.result, stored)
  {
    if xs == [] {
      ReportedTotalsAreRecorded(e, xs, sent, stored, outcome);
      ToInt32IsExactIff(0);
    } else {
      ReportIsExactIff(e, xs, sent, stored, outcome);
      CallsMade(e, xs, sent, stored, outcome);
      SpentBeforeLast(e, xs, sent);
      SpentIsNatural(xs[..|xs| - 1]);
    }
  }

  // -- The conversation and the trace ------------------------------------------------------

  lemma {:induction false} RowsPrefix(xs: seq<Exchange>, k: nat)
    requires AllWellFormed(xs) && k <= |xs|
    ensures AllWellFormed(xs[..k]) && Rows(xs[..k]) <= Rows(xs)
    ensures k < |xs| ==> |Rows(xs[..k])| < |Rows(xs)|
  {
    if k == |xs| {
      assert xs[..k] == xs;
    } else {
      var n := |xs| - 1;
      RowsPrefix(xs[..n], k);
      assert xs[..n][..k] == xs[..k];
    }
  }

  lemma {:induction false} EarlierTurnsContinue(e: Setting, xs: seq<Exchange>, k: nat)
    requires Follows(e.granted, e.catalog, e.w, xs) && k <= |xs| && (k == |xs| ==> AllContinue(xs))
    ensures AllContinue(xs[..k])
  {
    forall i | 0 <= i < k ensures Continues(xs[i]) {
      if k < |xs| {
        FollowsAt(e.granted, e.catalog, e.w, xs, i);
      }
    }
  }

  lemma {:induction false} EarlierConversation(
    e: Setting, xs: seq<Exchange>, sent: seq<seq<Message>>, stored: seq<StepRow>, outcome: Outcome, k: nat)
    requires IsExecution(e, xs, sent, stored, outcome) && k < |sent|
    ensures k <= |xs| && AllWellFormed(xs[..k]) && AllContinue(xs[..k])
    ensures sent[k] == e.initial + Turns(xs[..k])
  {
    AskedAt(e, xs, sent, k);
    EarlierTurnsContinue(e, xs, k);
  }

  /** Every turn before a model call went through all its tools, and its rows were stored by then. */
  lemma {:induction false} EarlierTurnsAreStored(
    e: Setting, xs: seq<Exchange>, sent: seq<seq<Message>>, stored: seq<StepRow>, outcome: Outcome, k: nat)
    requires IsExecution(e, xs, sent, stored, outcome) && k < |sent|
    ensures k <= |xs| && AllWellFormed(xs[..k]) && AllContinue(xs[..k]) && Rows(xs[..k]) <= stored
    ensures sent[k] == e.initial + Turns(xs[..k])
  {
    EarlierConversation(e, xs, sent, stored, outcome, k);
    RowsPrefix(xs, k);
  }

  /** The messages of a turn are the model's and one reply to each tool call, in order and by its id. */
  ghost predicate IsTurn(part: seq<Message>, x: Exchange) {
    && |part| == 1 + |x.message.toolCalls| && part[0] == x.message
    && forall j :: 1 <= j < |part| ==> IsReply(part[j], x.message.toolCalls[j - 1])
  }

  predicate IsReply(m: Message, call: ToolCall) {
    m.role == "tool" && m.toolCallId == call.id
  }

  lemma {:induction false} TurnShape(x: Exchange)
    requires Complete(x)
    ensures IsTurn(TurnMessages(x), x)
  {
    var part := TurnMessages(x);
    forall j | 1 <= j < |part| ensures IsReply(part[j], x.message.toolCalls[j - 1]) {
      ToolsAt(x.message.toolCalls, x.outcomes, j - 1);
    }
  }

  lemma {:induction false} ToolsAt(calls: seq<ToolCall>, os: seq<ToolOutcome>, j: nat)
    requires |os| <= |calls| && j < |os|
    ensures ToolMessages(calls, os)[j] == ToolMessage(calls[j], os[j])
    ensures ToolRows(calls, os)[j] == ToolRow(calls[j], os[j])
  {
    if j < |os| - 1 {
      ToolsAt(calls, os[..|os| - 1], j);
    }
  }

  lemma {:induction false} TurnInPlace(xs: seq<Exchange>, i: nat) returns (rest: seq<Message>)
    requires AllWellFormed(xs) && i < |xs|
    ensures AllWellFormed(xs[..i]) && Turns(xs) == (Turns(xs[..i]) + TurnMessages(xs[i])) + rest
  {
    var n := |xs| - 1;
    if i < n {
      rest := TurnInPlace(xs[..n], i);
      assert xs[..n][..i] == xs[..i];
      Regroup3(Turns(xs[..i]) + TurnMessages(xs[i]), rest, TurnMessages(xs[n]));
      rest := rest + TurnMessages(xs[n]);
    } else {
      rest := [];
    }
  }

  ghost predicate HoldsTurn(conversation: seq<Message>, at: nat, x: Exchange) {
    var end := at + 1 + |x.message.toolCalls|;
    end <= |conversation| && IsTurn(conversation[at..end], x)
  }

  lemma {:induction false} HeldInPlace(
      initial: seq<Message>, before: seq<Message>, part: seq<Message>, rest: seq<Message>, x: Exchange)
    requires IsTurn(part, x)
    ensures HoldsTurn(initial + ((before + part) + rest), |initial| + |before|, x)
  {
    InPlace(initial, before, part, rest);
  }

  lemma {:induction false} TurnIsHeld(initial: seq<Message>, ys: seq<Exchange>, i: nat)
    requires AllWellFormed(ys) && i < |ys| && Complete(ys[i])
    ensures AllWellFormed(ys[..i]) && HoldsTurn(initial + Turns(ys), |initial| + |Turns(ys[..i])|, ys[i])
  {
    var rest := TurnInPlace(ys, i);
    TurnShape(ys[i]);
    HeldInPlace(initial, Turns(ys[..i]), TurnMessages(ys[i]), rest, ys[i]);
  }

  /**
   The conversation sent with a model call holds each earlier turn in its place: the message the model
   sent in that iteration, then one tool message for each of its calls with the call's id.
   */
  lemma {:induction false} ConversationShape(
    e: Setting, xs: seq<Exchange>, sent: seq<seq<Message>>, stored: seq<StepRow>, outcome: Outcome, k: nat, i: nat)
    requires IsExecution(e, xs, sent, stored, outcome) && i < k < |sent|
    ensures k <= |xs| && Answered(e.w, i) && e.w.model(i).choices[0] == xs[i].message
    ensures AllWellFormed(xs[..i]) && HoldsTurn(sent[k], |e.initial| + |Turns(xs[..i])|, xs[i])
  {
    EarlierConversation(e, xs, sent, stored, outcome, k);
    MessageIsTheModels(e, xs, i);
    TurnIsHeldAmong(e.initial, xs, k, i);
  }

  lemma {:induction false} MessageIsTheModels(e: Setting, xs: seq<Exchange>, i: nat)
    requires Follows(e.granted, e.catalog, e.w, xs) && i < |xs|
    ensures Answered(e.w, i) && e.w.model(i).choices[0] == xs[i].message
  {
    FollowsAt(e.granted, e.catalog, e.w, xs, i);
  }

  lemma {:induction false} TurnIsHeldAmong(initial: seq<Message>, xs: seq<Exchange>, k: nat, i: nat)
    requires i < k <= |xs| && AllWellFormed(xs[..k]) && AllContinue(xs[..k])
    ensures AllWellFormed(xs[..i]) && HoldsTurn(initial + Turns(xs[..k]), |initial| + |Turns(xs[..i])|, xs[i])
  {
    var ys := xs[..k];
    assert ys[i] == xs[i] && ys[..i] == xs[..i];
    assert Continues(ys[i]);
    TurnIsHeld(initial, ys, i);
  }

  lemma {:induction false} InPlace<T>(a: seq<T>, b: seq<T>, part: seq<T>, rest: seq<T>)
    ensures (a + ((b + part) + rest))[|a| + |b|..|a| + |b| + |part|] == part
  {
  }

  // -- Reading the conversation back from the trace ----------------------------------------

  /** The tool message a row of the trace stands for. */
  function MessageFrom(call: ToolCall, row: StepRow): Message {
    var text := if row.ModelCallRow? then row.content
                else if row.error != "" then "Error: " + row.error
                else row.result;
    Message("tool", text, [], call.id)
  }

  function MessagesFrom(calls: seq<ToolCall>, rows: seq<StepRow>): (ms: seq<Message>)
    requires |rows| <= |calls|
    ensures |ms| == |rows|
  {
    if rows == [] then []
    else
      var n := |rows| - 1;
      MessagesFrom(calls, rows[..n]) + [MessageFrom(calls[n], rows[n])]
  }

  /** The conversation, from the model's own messages and the trace alone. */
  function Rebuild(answers: seq<Message>, rows: seq<StepRow>): seq<Message> {
    if answers == [] then []
    else
      var n := |answers| - 1;
      var c := |answers[n].toolCalls|;
      if |rows| < c + 1 then []
      else
        Rebuild(answers[..n], rows[..|rows| - c - 1])
        + ([answers[n]] + MessagesFrom(answers[n].toolCalls, rows[|rows| - c..]))
  }

  function Answers(xs: seq<Exchange>): (ms: seq<Message>)
    ensures |ms| == |xs|
  {
    if xs == [] then [] else Answers(xs[..|xs| - 1]) + [xs[|xs| - 1].message]
  }

  /** No tool failed without saying why. */
  ghost predicate Worded(os: seq<ToolOutcome>) {
    os == [] || (Worded(os[..|os| - 1]) && ErrorOf(os[|os| - 1]) != Some(""))
  }

  ghost predicate AllWorded(xs: seq<Exchange>) {
    xs == [] || (AllWorded(xs[..|xs| - 1]) && Worded(xs[|xs| - 1].outcomes))
  }

  lemma {:induction false} MessageFromRow(call: ToolCall, o: ToolOutcome)
    ensures MessageFrom(call, ToolRow(call, o)) == ToolMessage(call, o) <==> ErrorOf(o) != Some("")
  {
    if ErrorOf(o) == Some("") {
      assert |"Error: " + ""| != |""|;
    }
  }

  lemma {:induction false} MessagesFromRows(calls: seq<ToolCall>, os: seq<ToolOutcome>)
    requires |os| <= |calls|
    ensures MessagesFrom(calls, ToolRows(calls, os)) == ToolMessages(calls, os) <==> Worded(os)
  {
    if os != [] {
      var n := |os| - 1;
      var rows := ToolRows(calls, os[..n]);
      MessagesFromRows(calls, os[..n]);
      MessageFromRow(calls[n], os[n]);
      MessagesFromSnoc(calls, rows, ToolRow(calls[n], os[n]));
      SnocEqualIff(MessagesFrom(calls, rows), MessageFrom(calls[n], ToolRow(calls[n], os[n])),
                   ToolMessages(calls, os[..n]), ToolMessage(calls[n], os[n]));
    }
  }

  lemma {:induction false} MessagesFromSnoc(calls: seq<ToolCall>, rows: seq<StepRow>, row: StepRow)
    requires |rows| < |calls|
    ensures MessagesFrom(calls, rows + [row]) == MessagesFrom(calls, rows) + [MessageFrom(calls[|rows|], row)]
  {
    assert (rows + [row])[..|rows|] == rows;
  }

  lemma {:induction false} SnocEqualIff<T>(a: seq<T>, x: T, b: seq<T>, y: T)
    requires |a| == |b|
    ensures a + [x] == b + [y] <==> a == b && x == y
  {
    if a + [x] == b + [y] {
      assert a == (a + [x])[..|a|] && b == (b + [y])[..|a|];
      assert x == (a + [x])[|a|] && y == (b + [y])[|a|];
    }
  }

  lemma {:induction false} ConcatEqualIff<T>(a: seq<T>, b: seq<T>, c: seq<T>, d: seq<T>)
    requires |a| == |c|
    ensures a + b == c + d <==> a == c && b == d
  {
    if a + b == c + d {
      assert a == (a + b)[..|a|] && c == (c + d)[..|a|];
      assert b == (a + b)[|a|..] && d == (c + d)[|a|..];
    }
  }

  ghost predicate AllComplete(xs: seq<Exchange>) {
    forall i :: 0 <= i < |xs| ==> Complete(xs[i])
  }

  /**
   The conversation can be read back from the trace exactly when no tool failed with an empty error
   text: such a failure is told to the model as an error but recorded like an empty result.
   */
  lemma {:induction false} RebuildIff(xs: seq<Exchange>)
    requires AllComplete(xs)
    ensures |Rebuild(Answers(xs), Rows(xs))| == |Turns(xs)|
    ensures Rebuild(Answers(xs), Rows(xs)) == Turns(xs) <==> AllWorded(xs)
  {
    if xs != [] {
      var n := |xs| - 1;
      var x := xs[n];
      RebuildIff(xs[..n]);
      RebuildLast(xs);
      MessagesFromRows(x.message.toolCalls, x.outcomes);
      var read := MessagesFrom(x.message.toolCalls, ToolRows(x.message.toolCalls, x.outcomes));
      ConcatEqualIff([x.message], read, [x.message], ToolMessages(x.message.toolCalls, x.outcomes));
      ConcatEqualIff(Rebuild(Answers(xs[..n]), Rows(xs[..n])), [x.message] + read, Turns(xs[..n]), TurnMessages(x));
    }
  }

  lemma {:induction false} RebuildLast(xs: seq<Exchange>)
    requires AllComplete(xs) && xs != []
    ensures var n := |xs| - 1;
            var x := xs[n];
            Rebuild(Answers(xs), Rows(xs))
            == Rebuild(Answers(xs[..n]), Rows(xs[..n]))
               + ([x.message] + MessagesFrom(x.message.toolCalls, ToolRows(x.message.toolCalls, x.outcomes)))
  {
    var n := |xs| - 1;
    var x := xs[n];
    RebuildSnoc(Answers(xs[..n]), x.message, Rows(xs[..n]), ModelCallRow(x.message.content, x.usage),
                ToolRows(x.message.toolCalls, x.outcomes));
  }

  lemma {:induction false} RebuildSnoc(
      answers: seq<Message>, m: Message, front: seq<StepRow>, row: StepRow, tail: seq<StepRow>)
    requires |tail| == |m.toolCalls|
    ensures Rebuild(answers + [m], front + ([row] + tail))
      == Rebuild(answers, front) + ([m] + MessagesFrom(m.toolCalls, tail))
  {
    CutTail(front, row, tail);
    var all, n := answers + [m], |answers|;
    assert all[..n] == answers && all[n] == m;
  }

  lemma {:induction false} CutTail(front: seq<StepRow>, row: StepRow, tail: seq<StepRow>)
    ensures var rows := front + ([row] + tail);
            rows[..|rows| - |tail| - 1] == front && rows[|rows| - |tail|..] == tail
  {
  }

  /** A tool that fails without a word: the model is told of an error, the trace shows an empty result. */
  lemma {:induction false} WordlessFailureIsLost(call: ToolCall)
    ensures var m := Message("assistant", "", [call], "");
            var xs := [Exchange(m, Usage(0, 0), [Ran(Failure(""))])];
            AllComplete(xs) && Rebuild(Answers(xs), Rows(xs)) != Turns(xs)
  {
    var x := Exchange(Message("assistant", "", [call], ""), Usage(0, 0), [Ran(Failure(""))]);
    assert x.outcomes[..|x.outcomes| - 1] == [];
    assert !Worded(x.outcomes);
    assert [x][|[x]| - 1] == x;
    RebuildIff([x]);
  }

  /**
   Every conversation sent to the model is the initial one continued from the model's earlier messages
   and the stored trace, exactly when no tool of an earlier turn failed with an empty error text.
   */
  lemma {:induction false} ConversationIsInTheTrace(
    e: Setting, xs: seq<Exchange>, sent: seq<seq<Message>>, stored: seq<StepRow>, outcome: Outcome, k: nat)
    requires IsExecution(e, xs, sent, stored, outcome) && k < |sent|
    ensures k <= |xs| && AllWellFormed(xs[..k]) && |Rows(xs[..k])| <= |stored|
    ensures sent[k] == e.initial + Rebuild(Answers(xs[..k]), stored[..|Rows(xs[..k])|]) <==> AllWorded(xs[..k])
  {
    EarlierTurnsAreStored(e, xs, sent, stored, outcome, k);
    var ys := xs[..k];
    assert stored[..|Rows(ys)|] == Rows(ys);
    RebuildIff(ys);
    ConcatEqualIff(e.initial, Rebuild(Answers(ys), Rows(ys)), e.initial, Turns(ys));
  }

  // -- Which tools are run -----------------------------------------------------------------

  /**
   A tool call is carried out exactly when the tool was among those declared to the model and its
   arguments, blank ones read as an empty object, are valid JSON.
   */
  lemma {:induction false} OnlyDeclaredToolsAreRun(
    e: Setting, xs: seq<Exchange>, sent: seq<seq<Message>>, stored: seq<StepRow>, outcome: Outcome, i: nat, j: nat)
    requires IsExecution(e, xs, sent, stored, outcome) && i < |xs| && j < |xs[i].outcomes|
    ensures j < |xs[i].message.toolCalls|
    ensures var call := xs[i].message.toolCalls[j];
            xs[i].outcomes[j].Ran? <==>
              call.name in KnownOf(e.catalog, e.granted) && e.w.validJson(Arguments(e.w, call))
  {
    FollowsAt(e.granted, e.catalog, e.w, xs, i);
    var call := xs[i].message.toolCalls[j];
    KnownIff(e.catalog, e.granted, call.name);
    assert IsOutcome(e.granted, e.catalog, e.w, call, |Rows(xs[..i])| + 1 + j, xs[i].outcomes[j]);
  }

  // -- A second execution of the same run --------------------------------------------------

  lemma {:induction false} UntakenAt(rows: map<nat, StepRow>, n: nat, k: nat)
    requires Untaken(rows, n) && k < n
    ensures k !in rows
  {
    if k < n - 1 {
      UntakenAt(rows, n - 1, k);
    }
  }

  lemma {:induction false} NothingStored(e: Setting, xs: seq<Exchange>, calls: nat, outcome: Outcome)
    requires AllWellFormed(xs) && Ended(e, xs, calls, [], outcome)
    ensures calls <= 1 && (forall i :: 0 <= i < |xs| ==> xs[i].outcomes == []) && (xs != [] ==> outcome.Error?)
  {
    ShortTrace(xs);
  }

  /** An execution that finds the trace begun stores nothing, runs no tool and asks the model at most once. */
  lemma {:induction false} LatecomerDoesNothing(
    e: Setting, xs: seq<Exchange>, sent: seq<seq<Message>>, stored: seq<StepRow>, outcome: Outcome)
    requires IsExecution(e, xs, sent, stored, outcome) && 0 in e.before
    ensures stored == [] && Recorded(e.before, stored) == e.before
    ensures |sent| <= 1 && forall i :: 0 <= i < |xs| ==> xs[i].outcomes == []
    ensures xs != [] ==> outcome.Error?
  {
    if stored != [] {
      UntakenAt(e.before, |stored|, 0);
    }
    NothingStored(e, xs, |sent|, outcome);
  }

  lemma {:induction false} ShortTrace(xs: seq<Exchange>)
    requires AllWellFormed(xs)
    ensures Rows(xs) == [] ==> xs == []
    ensures |Rows(xs)| <= 1 ==> |xs| <= 1 && forall i :: 0 <= i < |xs| ==> xs[i].outcomes == []
  {
    if |xs| > 1 {
      RowsPrefix(xs, |xs| - 1);
      RowsPrefix(xs[..|xs| - 1], 0);
    } else if |xs| == 1 {
      assert xs[..0] == [];
    }
  }
}
