/** Executions that show where the guarantees of the agent loop end. */
module ExecutorExamples {
  import opened Common
  import AgentModel
  import opened Registry
  import opened Executor
  import opened ExecutorLoop
  import opened ExecutorGuarantees

  // -- A turn with a tool call, and an answer ----------------------------------------------

  const FIRST := Usage(AgentModel.CEILING_MAX_TOKENS, 0)
  const SECOND := Usage(INT32_MAX - AgentModel.CEILING_MAX_TOKENS + 1, 0)

  /**
   An agent under the ceiling whose model makes one tool call and spends the whole token budget, and then
   answers with one token more than the 32-bit range has left.
   */
  ghost predicate Overspends(e: Setting, calling: Message, answering: Message) {
    && e.limits == Limits(2, AgentModel.CEILING_MAX_TOKENS, 10) && e.before == map[]
    && e.w.model(0) == Response([calling], FIRST) && e.w.model(1) == Response([answering], SECOND)
    && e.w.clock(0) == e.w.startedAt && e.w.clock(1) == e.w.startedAt
    && |calling.toolCalls| == 1 && answering.toolCalls == []
  }

  lemma {:induction false} AnsweringExchange(e: Setting, calling: Message, answering: Message, index: nat)
    requires Overspends(e, calling, answering)
    ensures IsExchange(e.granted, e.catalog, e.w, 1, index, Exchange(answering, SECOND, []))
  {
  }

  lemma {:induction false} CallingExchange(e: Setting, calling: Message, answering: Message, o: ToolOutcome)
    requires Overspends(e, calling, answering)
    requires IsOutcome(e.granted, e.catalog, e.w, calling.toolCalls[0], 1, o)
    ensures var x := Exchange(calling, FIRST, [o]);
            IsExchange(e.granted, e.catalog, e.w, 0, 0, x) && Continues(x)
  {
  }

  lemma {:induction false} WithinLimits(e: Setting, calling: Message, answering: Message, xs: seq<Exchange>)
    requires Overspends(e, calling, answering) && (xs == [] || (|xs| == 1 && xs[0].usage == FIRST))
    ensures Limit(e, xs) == None
  {
    if xs != [] {
      assert xs[..0] == [];
      assert Spent(xs[..0]) == Usage(0, 0);
      assert Spent(xs) == FIRST;
    }
  }

  lemma {:induction false} NothingTaken(n: nat)
    ensures Untaken(map[], n)
  {
    if n > 0 {
      NothingTaken(n - 1);
    }
  }

  lemma {:induction false} AfterFirstTurn(
      e: Setting, xs: seq<Exchange>, sent: seq<seq<Message>>, stored: seq<StepRow>, x: Exchange)
    requires xs == [] && sent == [] && stored == [] && x.usage == FIRST && Limit(e, xs) == None
    requires IsExchange(e.granted, e.catalog, e.w, 0, 0, x) && Continues(x)
    ensures Looping(e, xs + [x], sent + [e.initial], e.initial + TurnMessages(x), FIRST, stored + TurnRows(x))
  {
    LoopBegins(e);
    TurnContinues(e, xs, sent, e.initial, Usage(0, 0), stored, x);
  }

  /** There is an execution with these exchanges, two model calls and this result. */
  ghost predicate Ends(e: Setting, xs: seq<Exchange>, r: Result) {
    exists sent, stored :: IsExecution(e, xs, sent, stored, Done(r)) && |sent| == 2
  }

  lemma {:induction false} AnswerEndsRun(e: Setting, xs: seq<Exchange>, sent: seq<seq<Message>>, messages: seq<Message>,
                      tokens: Usage, stored: seq<StepRow>, y: Exchange, r: Result)
    requires Looping(e, xs, sent, messages, tokens, stored) && Limit(e, xs) == None && e.before == map[]
    requires IsExchange(e.granted, e.catalog, e.w, |xs|, |stored|, y) && y.message.toolCalls == [] && |xs| == 1
    requires r == Result(y.message.content,
                         Usage(tokens.prompt + y.usage.prompt, tokens.completion + y.usage.completion), false)
    ensures Ends(e, xs + [y], r)
  {
    NothingTaken(|stored + TurnRows(y)|);
    TurnAnswers(e, xs, sent, messages, tokens, stored, y, r);
  }

  /** Whatever becomes of the tool call, both turns together are an execution. */
  lemma {:induction false} BothTurns(
      e: Setting, calling: Message, answering: Message, o: ToolOutcome, none: seq<Exchange>, r: Result)
    requires Overspends(e, calling, answering) && none == []
    requires IsOutcome(e.granted, e.catalog, e.w, calling.toolCalls[0], 1, o)
    requires r == Result(
      answering.content, Usage(FIRST.prompt + SECOND.prompt, FIRST.completion + SECOND.completion), false)
    ensures Ends(e, none + [Exchange(calling, FIRST, [o])] + [Exchange(answering, SECOND, [])], r)
  {
    var x := Exchange(calling, FIRST, [o]);
    var sent: seq<seq<Message>>, stored: seq<StepRow> := [], [];
    CallingExchange(e, calling, answering, o);
    WithinLimits(e, calling, answering, none);
    AfterFirstTurn(e, none, sent, stored, x);
    AnsweringExchange(e, calling, answering, |stored + TurnRows(x)|);
    WithinLimits(e, calling, answering, none + [x]);
    AnswerEndsRun(e, none + [x], sent + [e.initial], e.initial + TurnMessages(x), FIRST, stored + TurnRows(x),
                  Exchange(answering, SECOND, []), r);
  }

  // -- The report wraps --------------------------------------------------------------------

  /** There is a run whose reported prompt tokens are negative. */
  ghost predicate Wraps(e: Setting) {
    exists xs, r :: Ends(e, xs, r) && ToInt32(r.tokens.prompt) < 0
  }

  lemma {:induction false} BothTurnsWrap()
    ensures ToInt32(FIRST.prompt + SECOND.prompt) < 0
  {
  }

  /** The outcome of the tool call, whatever the agent was granted. */
  function OutcomeOf(e: Setting, call: ToolCall): (o: ToolOutcome)
    ensures IsOutcome(e.granted, e.catalog, e.w, call, 1, o)
  {
    if Runs(e.granted, e.catalog, e.w, call) then Ran(e.w.tool(e.catalog[call.name], Arguments(e.w, call), 1))
    else Refused(e.w.wording(
      if call.name in e.granted && call.name in e.catalog then BadArguments else NotGranted(call.name)))
  }

  /** The bound is tight: one token more in the last call, and a run under the ceiling reports a negative total. */
  lemma {:induction false} ReportWrapsBeyondTheBound(e: Setting, calling: Message, answering: Message)
    requires Overspends(e, calling, answering)
    ensures Wraps(e)
  {
    var r := Result(
      answering.content, Usage(FIRST.prompt + SECOND.prompt, FIRST.completion + SECOND.completion), false);
    BothTurns(e, calling, answering, OutcomeOf(e, calling.toolCalls[0]), [], r);
    BothTurnsWrap();
  }

  // -- A failure without a word -------------------------------------------------------------

  /** What was sent with model call `k` can be read back from the trace. */
  ghost predicate ReadsBack(e: Setting, xs: seq<Exchange>, sent: seq<seq<Message>>, stored: seq<StepRow>, k: nat)
    requires k < |sent|
  {
    && k <= |xs| && AllWellFormed(xs[..k]) && |Rows(xs[..k])| <= |stored|
    && sent[k] == e.initial + Rebuild(Answers(xs[..k]), stored[..|Rows(xs[..k])|])
  }

  /** There is a run whose second conversation cannot be read back. */
  ghost predicate Forgets(e: Setting) {
    exists xs, sent, stored, outcome ::
      IsExecution(e, xs, sent, stored, outcome) && |sent| == 2 && !ReadsBack(e, xs, sent, stored, 1)
  }

  lemma {:induction false} UnwordedIsForgotten(e: Setting, xs: seq<Exchange>, r: Result)
    requires Ends(e, xs, r) && |xs| == 2 && !AllWorded(xs[..1])
    ensures Forgets(e)
  {
    var sent, stored :| IsExecution(e, xs, sent, stored, Done(r)) && |sent| == 2;
    ConversationIsInTheTrace(e, xs, sent, stored, Done(r), 1);
  }

  lemma {:induction false} WordlessTurn(xs: seq<Exchange>)
    requires |xs| > 0 && xs[0].outcomes == [Ran(Failure(""))]
    ensures !AllWorded(xs[..1])
  {
    assert xs[..1][..0] == [] && xs[..1][0] == xs[0];
    assert xs[0].outcomes[..0] == [];
  }

  /** A tool that is run and fails without a word makes the loop forget what it told the model. */
  lemma {:induction false} WordlessFailureIsForgotten(e: Setting, calling: Message, answering: Message)
    requires Overspends(e, calling, answering) && Runs(e.granted, e.catalog, e.w, calling.toolCalls[0])
    requires var call := calling.toolCalls[0];
             e.w.tool(e.catalog[call.name], Arguments(e.w, call), 1) == Failure("")
    ensures Forgets(e)
  {
    var r := Result(
      answering.content, Usage(FIRST.prompt + SECOND.prompt, FIRST.completion + SECOND.completion), false);
    var o, none: seq<Exchange> := Ran(Failure("")), [];
    BothTurns(e, calling, answering, o, none, r);
    var xs := none + [Exchange(calling, FIRST, [o])] + [Exchange(answering, SECOND, [])];
    WordlessTurn(xs);
    UnwordedIsForgotten(e, xs, r);
  }

  // -- There are such settings --------------------------------------------------------------

  /** A world with this model, whose tools fail without a word. */
  function Spendthrift(calling: Message, answering: Message): World {
    World(i => if i == 0 then Response([calling], FIRST) else Response([answering], SECOND),
          (tool, arguments, index) => Failure(""), i => 0, 0, index => Stored,
          why => "", text => false, text => true)
  }

  function SettingFor(calling: Message, answering: Message, granted: seq<string>, catalog: Catalog): Setting {
    Setting(Limits(2, AgentModel.CEILING_MAX_TOKENS, 10), granted, catalog, Spendthrift(calling, answering), [], map[])
  }

  lemma {:induction false} SpendthriftOverspends(
      calling: Message, answering: Message, granted: seq<string>, catalog: Catalog)
    requires |calling.toolCalls| == 1 && answering.toolCalls == []
    ensures Overspends(SettingFor(calling, answering, granted, catalog), calling, answering)
  {
  }

  lemma {:induction false} SpendthriftIsWordless(calling: Message, answering: Message, tool: Tool)
    requires |calling.toolCalls| == 1 && tool.name == calling.toolCalls[0].name
    ensures var e := SettingFor(calling, answering, [tool.name], map[tool.name := tool]);
            var call := calling.toolCalls[0];
            && Runs(e.granted, e.catalog, e.w, call)
            && e.w.tool(e.catalog[call.name], Arguments(e.w, call), 1) == Failure("")
  {
  }
}
