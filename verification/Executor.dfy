/**
 The loop that runs an agent (pkg/executor/executor.go): budgets, the conversation, the recorded trace
 and the tools that may be run. The model provider, the tools, the clock and the database are what the
 loop asks, and answer as they like.
 */
module Executor {
  import opened Common
  import opened AgentModel
  import opened Registry

  // -- What passes between the loop and the world ------------------------------------------

  datatype ToolCall = ToolCall(id: string, name: string, arguments: string)

  datatype Message = Message(role: string, content: string, toolCalls: seq<ToolCall>, toolCallId: string)

  datatype Usage = Usage(prompt: int, completion: int)

  /** A completion, or why there is none. */
  datatype Reply = ProviderError(error: string) | Response(choices: seq<Message>, usage: Usage)

  datatype ToolReply = Content(content: string) | Failure(error: string)

  datatype Refusal = NotGranted(name: string) | BadArguments

  /** What became of a tool call: refused before any tool was run, or run. */
  datatype ToolOutcome = Refused(error: string) | Ran(reply: ToolReply)

  /** A failed insert may or may not have left its row. */
  datatype DbReply = Stored | FailedWithoutRow | FailedWithRow

  /**
   The replies to one execution: the model by iteration, a tool by the arguments it is handed and the
   row it is run for, the clock by iteration, the database by row; the wording of a refusal; and two
   properties of text.
   */
  datatype World = World(
    model: nat -> Reply,
    tool: (Tool, string, nat) -> ToolReply,
    clock: nat -> int,
    startedAt: int,
    database: nat -> DbReply,
    wording: Refusal -> string,
    blank: string -> bool,
    validJson: string -> bool)

  datatype StepRow =
    | ModelCallRow(content: string, usage: Usage)
    | ToolCallRow(name: string, arguments: string, result: string, error: string)

  datatype Budget = Time | Tokens | Steps

  function Reason(b: Budget): (text: string)
    ensures text != ""
  {
    match b
    case Time => "the run exceeded its time limit"
    case Tokens => "the run exceeded its token limit"
    case Steps => "the run exceeded its step limit"
  }

  datatype Result = Result(output: string, tokens: Usage, budgetExceeded: bool)

  datatype Outcome = Error | Done(result: Result)

  // -- One turn of the conversation --------------------------------------------------------

  /** A completion the loop got, and what became of the tool calls it made of it, in order. */
  datatype Exchange = Exchange(message: Message, usage: Usage, outcomes: seq<ToolOutcome>)

  predicate WellFormed(x: Exchange) {
    |x.outcomes| <= |x.message.toolCalls|
  }

  predicate Complete(x: Exchange) {
    |x.outcomes| == |x.message.toolCalls|
  }

  function ErrorOf(o: ToolOutcome): Option<string> {
    match o
    case Refused(error) => Some(error)
    case Ran(Failure(error)) => Some(error)
    case Ran(Content(_)) => None
  }

  /** What the model is told. */
  function ToolText(o: ToolOutcome): string {
    if ErrorOf(o).Some? then "Error: " + ErrorOf(o).value else o.reply.content
  }

  function ToolMessage(call: ToolCall, o: ToolOutcome): Message {
    Message("tool", ToolText(o), [], call.id)
  }

  function ToolRow(call: ToolCall, o: ToolOutcome): StepRow {
    if ErrorOf(o).Some? then ToolCallRow(call.name, call.arguments, "", ErrorOf(o).value)
    else ToolCallRow(call.name, call.arguments, o.reply.content, "")
  }

  function ToolMessages(calls: seq<ToolCall>, os: seq<ToolOutcome>): (ms: seq<Message>)
    requires |os| <= |calls|
    ensures |ms| == |os|
  {
    if os == [] then []
    else
      var n := |os| - 1;
      ToolMessages(calls, os[..n]) + [ToolMessage(calls[n], os[n])]
  }

  function ToolRows(calls: seq<ToolCall>, os: seq<ToolOutcome>): (rows: seq<StepRow>)
    requires |os| <= |calls|
    ensures |rows| == |os|
  {
    if os == [] then []
    else
      var n := |os| - 1;
      ToolRows(calls, os[..n]) + [ToolRow(calls[n], os[n])]
  }

  lemma {:induction false} ToolsSnoc(calls: seq<ToolCall>, os: seq<ToolOutcome>, o: ToolOutcome)
    requires |os| < |calls|
    ensures ToolRows(calls, os + [o]) == ToolRows(calls, os) + [ToolRow(calls[|os|], o)]
    ensures ToolMessages(calls, os + [o]) == ToolMessages(calls, os) + [ToolMessage(calls[|os|], o)]
  {
    assert (os + [o])[..|os|] == os;
  }

  // -- A whole conversation ----------------------------------------------------------------

  function TurnRows(x: Exchange): seq<StepRow>
    requires WellFormed(x)
  {
    [ModelCallRow(x.message.content, x.usage)] + ToolRows(x.message.toolCalls, x.outcomes)
  }

  function TurnMessages(x: Exchange): seq<Message>
    requires WellFormed(x)
  {
    [x.message] + ToolMessages(x.message.toolCalls, x.outcomes)
  }

  predicate AllWellFormed(xs: seq<Exchange>) {
    forall i :: 0 <= i < |xs| ==> WellFormed(xs[i])
  }

  /** The trace of a conversation. */
  function Rows(xs: seq<Exchange>): seq<StepRow>
    requires AllWellFormed(xs)
  {
    if xs == [] then []
    else
      var n := |xs| - 1;
      Rows(xs[..n]) + TurnRows(xs[n])
  }

  /** What a conversation adds to the messages it started from. */
  function Turns(xs: seq<Exchange>): seq<Message>
    requires AllWellFormed(xs)
  {
    if xs == [] then []
    else
      var n := |xs| - 1;
      Turns(xs[..n]) + TurnMessages(xs[n])
  }

  function Spent(xs: seq<Exchange>): Usage {
    if xs == [] then Usage(0, 0)
    else
      var n := |xs| - 1;
      var before := Spent(xs[..n]);
      Usage(before.prompt + xs[n].usage.prompt, before.completion + xs[n].usage.completion)
  }

  lemma {:induction false} RowsSnoc(xs: seq<Exchange>, x: Exchange)
    requires AllWellFormed(xs) && WellFormed(x)
    ensures AllWellFormed(xs + [x]) && Rows(xs + [x]) == Rows(xs) + TurnRows(x)
    ensures Turns(xs + [x]) == Turns(xs) + TurnMessages(x)
    ensures Spent(xs + [x]) == Usage(Spent(xs).prompt + x.usage.prompt, Spent(xs).completion + x.usage.completion)
  {
    assert (xs + [x])[..|xs|] == xs;
  }

  // -- What the world makes of a run -------------------------------------------------------

  /** A tool is run exactly if it was granted, is registered, and its arguments are blank or valid. */
  predicate Runs(granted: seq<string>, catalog: Catalog, w: World, call: ToolCall) {
    call.name in granted && call.name in catalog && w.validJson(Arguments(w, call))
  }

  function Arguments(w: World, call: ToolCall): string {
    if w.blank(call.arguments) then "{}" else call.arguments
  }

  /** The outcome the source's rules give a tool call made for row `index`. */
  predicate IsOutcome(granted: seq<string>, catalog: Catalog, w: World, call: ToolCall, index: nat, o: ToolOutcome) {
    if Runs(granted, catalog, w, call) then o == Ran(w.tool(catalog[call.name], Arguments(w, call), index))
    else o == Refused(w.wording(
      if call.name in granted && call.name in catalog then BadArguments else NotGranted(call.name)))
  }

  /** The exchange of iteration `i`, whose model call is row `index`, is what the world answered. */
  predicate IsExchange(granted: seq<string>, catalog: Catalog, w: World, i: nat, index: nat, x: Exchange) {
    && Answered(w, i)
    && x.message == w.model(i).choices[0] && x.usage == w.model(i).usage
    && AreOutcomes(granted, catalog, w, x.message.toolCalls, index + 1, x.outcomes)
  }

  /** A completion without choices is an error. */
  predicate Answered(w: World, i: nat) {
    w.model(i).Response? && |w.model(i).choices| > 0
  }

  predicate AreOutcomes(
    granted: seq<string>, catalog: Catalog, w: World, calls: seq<ToolCall>, index: nat, os: seq<ToolOutcome>)
  {
    && |os| <= |calls|
    && forall j :: 0 <= j < |os| ==> IsOutcome(granted, catalog, w, calls[j], index + j, os[j])
  }

  lemma {:induction false} OutcomesSnoc(
      granted: seq<string>, catalog: Catalog, w: World, calls: seq<ToolCall>, index: nat, os: seq<ToolOutcome>,
      o: ToolOutcome)
    requires AreOutcomes(granted, catalog, w, calls, index, os) && |os| < |calls|
    requires IsOutcome(granted, catalog, w, calls[|os|], index + |os|, o)
    ensures AreOutcomes(granted, catalog, w, calls, index, os + [o])
  {
  }

  /** Every exchange is what the world answered, and every one but the last went through all its tools. */
  ghost predicate Follows(granted: seq<string>, catalog: Catalog, w: World, xs: seq<Exchange>) {
    xs == [] ||
    var n := |xs| - 1;
    && Follows(granted, catalog, w, xs[..n])
    && AllWellFormed(xs[..n]) && IsExchange(granted, catalog, w, n, |Rows(xs[..n])|, xs[n])
    && (n > 0 ==> Continues(xs[n - 1]))
  }

  /** The loop goes on after a turn in which tools were called and all of them were dealt with. */
  predicate Continues(x: Exchange) {
    Complete(x) && x.message.toolCalls != []
  }

  lemma {:induction false} FollowsSnoc(granted: seq<string>, catalog: Catalog, w: World, xs: seq<Exchange>, x: Exchange)
    requires Follows(granted, catalog, w, xs) && AllWellFormed(xs)
    requires IsExchange(granted, catalog, w, |xs|, |Rows(xs)|, x)
    requires xs != [] ==> Continues(xs[|xs| - 1])
    ensures Follows(granted, catalog, w, xs + [x])
  {
    assert (xs + [x])[..|xs|] == xs;
  }

  lemma {:induction false} FollowsAt(granted: seq<string>, catalog: Catalog, w: World, xs: seq<Exchange>, i: nat)
    requires Follows(granted, catalog, w, xs) && i < |xs|
    ensures AllWellFormed(xs[..i]) && IsExchange(granted, catalog, w, i, |Rows(xs[..i])|, xs[i])
    ensures i < |xs| - 1 ==> Continues(xs[i])
  {
    var n := |xs| - 1;
    if i < n {
      FollowsAt(granted, catalog, w, xs[..n], i);
      assert xs[..n][..i] == xs[..i];
    }
  }

  lemma {:induction false} Regroup<T>(a: seq<T>, b: seq<T>, x: T)
    ensures (a + b) + [x] == a + (b + [x])
  {
  }

  // -- The store ---------------------------------------------------------------------------

  /** The rows with a run's recorded steps added at 0, 1, ... */
  function Recorded(rows: map<nat, StepRow>, steps: seq<StepRow>): map<nat, StepRow> {
    if steps == [] then rows
    else
      var n := |steps| - 1;
      Recorded(rows, steps[..n])[n := steps[n]]
  }

  lemma {:induction false} RecordedAt(rows: map<nat, StepRow>, steps: seq<StepRow>, k: nat)
    ensures k in Recorded(rows, steps) <==> k < |steps| || k in rows
    ensures k < |steps| ==> Recorded(rows, steps)[k] == steps[k]
    ensures k >= |steps| && k in rows ==> Recorded(rows, steps)[k] == rows[k]
  {
    if steps != [] {
      RecordedAt(rows, steps[..|steps| - 1], k);
    }
  }

  lemma {:induction false} RecordedSnoc(rows: map<nat, StepRow>, steps: seq<StepRow>, step: StepRow)
    ensures Recorded(rows, steps + [step]) == Recorded(rows, steps)[|steps| := step]
  {
    assert (steps + [step])[..|steps|] == steps;
  }

  /** None of the first `n` rows was there before. */
  ghost predicate Untaken(rows: map<nat, StepRow>, n: nat) {
    n == 0 || (n - 1 !in rows && Untaken(rows, n - 1))
  }

  /** The trace of one run. The unique index refuses a second row with the same number. */
  class StepStore {
    var rows: map<nat, StepRow>

    method Record(index: nat, step: StepRow, db: DbReply) returns (ok: bool)
      modifies this
      ensures ok <==> index !in old(rows) && db == Stored
      ensures rows == if index in old(rows) || db == FailedWithoutRow then old(rows) else old(rows)[index := step]
    {
      if index in rows {
        return false;
      }
      if db != FailedWithoutRow {
        rows := rows[index := step];
      }
      ok := db == Stored;
    }

    /** The next of a run's steps: stored and acknowledged, stored, or not stored. */
    method Append(ghost before: map<nat, StepRow>, ghost steps: seq<StepRow>, index: nat, step: StepRow, db: DbReply)
      returns (ok: bool, ghost stored: seq<StepRow>)
      requires rows == Recorded(before, steps) && Untaken(before, |steps|) && index == |steps|
      modifies this
      ensures rows == Recorded(before, stored) && Untaken(before, |stored|)
      ensures stored == steps + [step] || stored == steps
      ensures ok ==> stored == steps + [step]
      ensures !ok ==> db != Stored || index in before
    {
      RecordedAt(before, steps, index);
      RecordedSnoc(before, steps, step);
      ok := Record(index, step, db);
      stored := if index in before || db == FailedWithoutRow then steps else steps + [step];
    }
  }

  // -- The loop ----------------------------------------------------------------------------

  method RunTool(agent: Agent, registry: ToolRegistry, w: World, call: ToolCall, index: nat) returns (o: ToolOutcome)
    requires registry.Valid()
    ensures IsOutcome(agent.Granted(), registry.tools, w, call, index, o)
  {
    var granted := agent.HasTool(call.name);
    if !granted {
      return Refused(w.wording(NotGranted(call.name)));
    }
    var tool := registry.Get(call.name);
    if tool.None? {
      return Refused(w.wording(NotGranted(call.name)));
    }
    var arguments := call.arguments;
    if w.blank(call.arguments) {
      arguments := "{}";
    }
    if !w.validJson(arguments) {
      return Refused(w.wording(BadArguments));
    }
    return Ran(w.tool(tool.value, arguments, index));
  }

  /** The first tool calls of an answer have been run, recorded after `steps`, and told to the model. */
  ghost predicate DealtWith(granted: seq<string>, catalog: Catalog, w: World, calls: seq<ToolCall>,
                            steps: seq<StepRow>, os: seq<ToolOutcome>, told: seq<Message>, stored: seq<StepRow>)
  {
    && AreOutcomes(granted, catalog, w, calls, |steps|, os)
    && told == ToolMessages(calls, os)
    && stored == steps + ToolRows(calls, os)
  }

  lemma {:induction false} DealtWithSnoc(
      granted: seq<string>, catalog: Catalog, w: World, calls: seq<ToolCall>, steps: seq<StepRow>,
      os: seq<ToolOutcome>, told: seq<Message>, stored: seq<StepRow>, o: ToolOutcome)
    requires DealtWith(granted, catalog, w, calls, steps, os, told, stored) && |os| < |calls|
    requires IsOutcome(granted, catalog, w, calls[|os|], |stored|, o)
    ensures DealtWith(granted, catalog, w, calls, steps, os + [o],
                      told + [ToolMessage(calls[|os|], o)], stored + [ToolRow(calls[|os|], o)])
  {
    OutcomesSnoc(granted, catalog, w, calls, |steps|, os, o);
    ToolsSnoc(calls, os, o);
    Regroup(steps, ToolRows(calls, os), ToolRow(calls[|os|], o));
  }

  lemma {:induction false} DealtWithButLast(
      granted: seq<string>, catalog: Catalog, w: World, calls: seq<ToolCall>, steps: seq<StepRow>,
      os: seq<ToolOutcome>, told: seq<Message>, acknowledged: seq<StepRow>, o: ToolOutcome,
      before: map<nat, StepRow>, stored: seq<StepRow>)
    requires DealtWith(granted, catalog, w, calls, steps, os, told, acknowledged) && |os| < |calls|
    requires IsOutcome(granted, catalog, w, calls[|os|], |acknowledged|, o)
    requires stored == acknowledged + [ToolRow(calls[|os|], o)] || stored == acknowledged
    requires Refuses(before, w, |acknowledged|)
    ensures AreOutcomes(granted, catalog, w, calls, |steps|, os + [o])
    ensures CutShort(before, w, steps + ToolRows(calls, os + [o]), stored)
  {
    DealtWithSnoc(granted, catalog, w, calls, steps, os, told, acknowledged, o);
    LastRefused(before, w, acknowledged, ToolRow(calls[|os|], o), stored);
  }

  lemma {:induction false} LastRefused(
      before: map<nat, StepRow>, w: World, acknowledged: seq<StepRow>, row: StepRow, stored: seq<StepRow>)
    requires (stored == acknowledged + [row] || stored == acknowledged) && Refuses(before, w, |acknowledged|)
    ensures CutShort(before, w, acknowledged + [row], stored)
  {
    assert (acknowledged + [row])[..|acknowledged|] == acknowledged;
  }

  /** The tool calls of one answer: each is run, recorded and told to the model before the next. */
  method RunTools(agent: Agent, registry: ToolRegistry, store: StepStore, w: World, calls: seq<ToolCall>,
                  stepIndex: nat, ghost before: map<nat, StepRow>, ghost steps: seq<StepRow>)
    returns (ok: bool, outcomes: seq<ToolOutcome>, told: seq<Message>, ghost stored: seq<StepRow>)
    requires registry.Valid() && stepIndex == |steps|
    requires store.rows == Recorded(before, steps) && Untaken(before, |steps|)
    modifies store
    ensures store.rows == Recorded(before, stored) && Untaken(before, |stored|)
    ensures AreOutcomes(agent.Granted(), registry.tools, w, calls, |steps|, outcomes)
    ensures ok ==> |outcomes| == |calls| && told == ToolMessages(calls, outcomes)
    ensures ok ==> stored == steps + ToolRows(calls, outcomes)
    ensures !ok ==> outcomes != [] && CutShort(before, w, steps + ToolRows(calls, outcomes), stored)
  {
    outcomes, told, stored := [], [], steps;
    var index := stepIndex;
    for i := 0 to |calls|
      invariant |outcomes| == i && index == |stored|
      invariant DealtWith(agent.Granted(), registry.tools, w, calls, steps, outcomes, told, stored)
      invariant store.rows == Recorded(before, stored) && Untaken(before, |stored|)
    {
      ghost var acknowledged := stored;
      var o;
      ok, o, stored := RunAndRecord(agent, registry, store, w, calls[i], index, before, stored);
      if !ok {
        DealtWithButLast(agent.Granted(), registry.tools, w, calls, steps, outcomes, told,
                         acknowledged, o, before, stored);
        outcomes := outcomes + [o];
        return;
      }
      DealtWithSnoc(agent.Granted(), registry.tools, w, calls, steps, outcomes, told, acknowledged, o);
      outcomes, told, index := outcomes + [o], told + [ToolMessage(calls[i], o)], index + 1;
    }
    ok := true;
  }

  /** The last of the rows to be recorded was refused, or its reply was lost. */
  ghost predicate CutShort(before: map<nat, StepRow>, w: World, rows: seq<StepRow>, stored: seq<StepRow>) {
    && rows != [] && (stored == rows || stored == rows[..|rows| - 1])
    && Refuses(before, w, |rows| - 1)
  }

  method RunAndRecord(agent: Agent, registry: ToolRegistry, store: StepStore, w: World, call: ToolCall,
                      index: nat, ghost before: map<nat, StepRow>, ghost steps: seq<StepRow>)
    returns (ok: bool, o: ToolOutcome, ghost stored: seq<StepRow>)
    requires registry.Valid() && index == |steps|
    requires store.rows == Recorded(before, steps) && Untaken(before, |steps|)
    modifies store
    ensures IsOutcome(agent.Granted(), registry.tools, w, call, index, o)
    ensures store.rows == Recorded(before, stored) && Untaken(before, |stored|)
    ensures stored == steps + [ToolRow(call, o)] || stored == steps
    ensures ok ==> stored == steps + [ToolRow(call, o)]
    ensures !ok ==> Refuses(before, w, index)
  {
    o := RunTool(agent, registry, w, call, index);
    ok, stored := store.Append(before, steps, index, ToolRow(call, o), w.database(index));
  }

  predicate Refuses(before: map<nat, StepRow>, w: World, index: nat) {
    w.database(index) != Stored || index in before
  }
}
