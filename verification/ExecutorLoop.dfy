/** Execute, and what every execution of it guarantees (pkg/executor/executor.go, pkg/worker/worker.go). */
module ExecutorLoop {
  import opened Common
  import opened AgentModel
  import opened Registry
  import opened Executor

  datatype Limits = Limits(steps: int, tokens: int, seconds: int)

  /** What an execution starts from: the agent, the tools, the conversation so far, the rows already there. */
  datatype Setting = Setting(
    limits: Limits, granted: seq<string>, catalog: Catalog, w: World, initial: seq<Message>, before: map<nat, StepRow>)

  /** The limit that stops the loop before its next model call, if one does. */
  function Limit(e: Setting, xs: seq<Exchange>): Option<Budget> {
    if |xs| >= e.limits.steps then Some(Steps)
    else if e.w.clock(|xs|) > e.w.startedAt + e.limits.seconds then Some(Time)
    else if Spent(xs).prompt + Spent(xs).completion > e.limits.tokens then Some(Tokens)
    else None
  }

  /** The `k`-th model call is made within all limits and is sent the whole conversation so far. */
  predicate Asked(e: Setting, xs: seq<Exchange>, k: nat, conversation: seq<Message>) {
    k <= |xs| && AllWellFormed(xs[..k]) && Limit(e, xs[..k]) == None && conversation == e.initial + Turns(xs[..k])
  }

  ghost predicate AllAsked(e: Setting, xs: seq<Exchange>, sent: seq<seq<Message>>) {
    sent == [] || (AllAsked(e, xs, sent[..|sent| - 1]) && Asked(e, xs, |sent| - 1, sent[|sent| - 1]))
  }

  predicate AllContinue(xs: seq<Exchange>) {
    forall i :: 0 <= i < |xs| ==> Continues(xs[i])
  }

  /** How an execution may end, in terms of the exchanges it had and the rows it stored. */
  ghost predicate Ended(e: Setting, xs: seq<Exchange>, calls: nat, stored: seq<StepRow>, outcome: Outcome)
    requires AllWellFormed(xs)
  {
    match outcome
    case Error =>
      || (calls == |xs| + 1 && AllContinue(xs) && !Answered(e.w, |xs|) && stored == Rows(xs))
      || (calls == |xs| && CutShort(e.before, e.w, Rows(xs), stored))
    case Done(r) =>
      && calls == |xs| && stored == Rows(xs) && r.tokens == Spent(xs)
      && if r.budgetExceeded
         then AllContinue(xs) && Limit(e, xs).Some? && r.output == Reason(Limit(e, xs).value)
         else xs != [] && xs[|xs| - 1].message.toolCalls == [] && r.output == xs[|xs| - 1].message.content
  }

  ghost predicate IsExecution(
    e: Setting, xs: seq<Exchange>, sent: seq<seq<Message>>, stored: seq<StepRow>, outcome: Outcome)
  {
    && AllWellFormed(xs) && Follows(e.granted, e.catalog, e.w, xs)
    && AllAsked(e, xs, sent) && Ended(e, xs, |sent|, stored, outcome)
    && Untaken(e.before, |stored|)
  }

  // -- The loop ----------------------------------------------------------------------------

  /** One iteration's answer: none, or an exchange that was recorded throughout or not. */
  datatype Turn = NoAnswer | Got(exchange: Exchange, recorded: bool, told: seq<Message>)

  method TakeTurn(agent: Agent, registry: ToolRegistry, store: StepStore, w: World, i: nat,
                  stepIndex: nat, ghost before: map<nat, StepRow>, ghost steps: seq<StepRow>)
    returns (turn: Turn, ghost stored: seq<StepRow>)
    requires registry.Valid() && stepIndex == |steps|
    requires store.rows == Recorded(before, steps) && Untaken(before, |steps|)
    modifies store
    ensures store.rows == Recorded(before, stored) && Untaken(before, |stored|)
    ensures turn.NoAnswer? ==> !Answered(w, i) && stored == steps
    ensures turn.Got? ==> IsExchange(agent.Granted(), registry.tools, w, i, |steps|, turn.exchange)
    ensures turn.Got? && turn.recorded ==>
              Complete(turn.exchange) && [turn.exchange.message] + turn.told == TurnMessages(turn.exchange)
              && stored == steps + TurnRows(turn.exchange)
    ensures turn.Got? && !turn.recorded ==> CutShort(before, w, steps + TurnRows(turn.exchange), stored)
  {
    stored := steps;
    var reply := w.model(i);
    if reply.ProviderError? || |reply.choices| == 0 {
      return NoAnswer, stored;
    }
    var choice := reply.choices[0];
    var row := ModelCallRow(choice.content, reply.usage);
    var ok;
    ok, stored := store.Append(before, steps, stepIndex, row, w.database(stepIndex));
    if !ok {
      assert (steps + [row])[..|steps|] == steps;
      return Got(Exchange(choice, reply.usage, []), false, []), stored;
    }
    var outcomes, told;
    ok, outcomes, told, stored := RunTools(
      agent, registry, store, w, choice.toolCalls, stepIndex + 1, before, steps + [row]);
    turn := Got(Exchange(choice, reply.usage, outcomes), ok, told);
    Prepend(steps, row, ToolRows(choice.toolCalls, outcomes));
  }

  lemma {:induction false} Prepend<T>(a: seq<T>, x: T, b: seq<T>)
    ensures (a + [x]) + b == a + ([x] + b)
  {
  }

  function StoppedByBudget(output: string, tokens: Usage, b: Budget): Result {
    Result(if output == "" then Reason(b) else output, tokens, true)
  }

  /** The loop after some turns, all of which let it go on. */
  ghost predicate Looping(e: Setting, xs: seq<Exchange>, sent: seq<seq<Message>>, messages: seq<Message>, tokens: Usage,
                          stored: seq<StepRow>)
  {
    && AllWellFormed(xs) && Follows(e.granted, e.catalog, e.w, xs) && AllContinue(xs)
    && AllAsked(e, xs, sent) && |sent| == |xs|
    && messages == e.initial + Turns(xs) && tokens == Spent(xs) && stored == Rows(xs)
  }

  lemma {:induction false} LoopBegins(e: Setting)
    ensures Looping(e, [], [], e.initial, Usage(0, 0), [])
  {
    assert e.initial + [] == e.initial;
  }

  lemma {:induction false} AskedNow(e: Setting, xs: seq<Exchange>, messages: seq<Message>)
    requires AllWellFormed(xs) && messages == e.initial + Turns(xs) && Limit(e, xs) == None
    ensures Asked(e, xs, |xs|, messages)
  {
    assert xs[..|xs|] == xs;
  }

  lemma {:induction false} AskedNext(e: Setting, xs: seq<Exchange>, sent: seq<seq<Message>>, messages: seq<Message>)
    requires AllAsked(e, xs, sent) && |sent| == |xs| && Asked(e, xs, |xs|, messages)
    ensures AllAsked(e, xs, sent + [messages])
  {
    assert (sent + [messages])[..|sent|] == sent;
  }

  lemma {:induction false} AskedSnoc(e: Setting, xs: seq<Exchange>, x: Exchange, sent: seq<seq<Message>>)
    requires AllAsked(e, xs, sent)
    ensures AllAsked(e, xs + [x], sent)
  {
    if sent != [] {
      var n := |sent| - 1;
      AskedSnoc(e, xs, x, sent[..n]);
      assert (xs + [x])[..n] == xs[..n];
    }
  }

  lemma {:induction false} AskedAt(e: Setting, xs: seq<Exchange>, sent: seq<seq<Message>>, k: nat)
    requires AllAsked(e, xs, sent) && k < |sent|
    ensures Asked(e, xs, k, sent[k])
  {
    if k < |sent| - 1 {
      AskedAt(e, xs, sent[..|sent| - 1], k);
    }
  }

  lemma {:induction false} AskedInTurn(
      e: Setting, xs: seq<Exchange>, sent: seq<seq<Message>>, messages: seq<Message>, x: Exchange)
    requires AllWellFormed(xs) && messages == e.initial + Turns(xs) && Limit(e, xs) == None
    requires AllAsked(e, xs, sent) && |sent| == |xs|
    ensures AllAsked(e, xs, sent + [messages]) && AllAsked(e, xs + [x], sent + [messages])
  {
    AskedNow(e, xs, messages);
    AskedNext(e, xs, sent, messages);
    AskedSnoc(e, xs, x, sent + [messages]);
  }

  lemma {:induction false} Regroup3<T>(a: seq<T>, b: seq<T>, c: seq<T>)
    ensures (a + b) + c == a + (b + c)
  {
  }

  lemma {:induction false} TurnFollows(e: Setting, xs: seq<Exchange>, x: Exchange)
    requires AllWellFormed(xs) && Follows(e.granted, e.catalog, e.w, xs) && AllContinue(xs)
    requires IsExchange(e.granted, e.catalog, e.w, |xs|, |Rows(xs)|, x)
    ensures AllWellFormed(xs + [x]) && Follows(e.granted, e.catalog, e.w, xs + [x])
  {
    FollowsSnoc(e.granted, e.catalog, e.w, xs, x);
  }

  lemma {:induction false} TurnAdds(initial: seq<Message>, xs: seq<Exchange>, x: Exchange)
    requires AllWellFormed(xs) && WellFormed(x)
    ensures AllWellFormed(xs + [x]) && Rows(xs + [x]) == Rows(xs) + TurnRows(x)
    ensures Spent(xs + [x]) == Usage(Spent(xs).prompt + x.usage.prompt, Spent(xs).completion + x.usage.completion)
    ensures initial + Turns(xs + [x]) == (initial + Turns(xs)) + TurnMessages(x)
  {
    RowsSnoc(xs, x);
    Regroup3(initial, Turns(xs), TurnMessages(x));
  }

  lemma {:induction false} ContinuesSnoc(xs: seq<Exchange>, x: Exchange)
    requires AllContinue(xs) && Continues(x)
    ensures AllContinue(xs + [x])
  {
  }

  lemma {:induction false} TurnContinues(
      e: Setting, xs: seq<Exchange>, sent: seq<seq<Message>>, messages: seq<Message>, tokens: Usage,
      stored: seq<StepRow>, x: Exchange)
    requires Looping(e, xs, sent, messages, tokens, stored) && Limit(e, xs) == None
    requires IsExchange(e.granted, e.catalog, e.w, |xs|, |stored|, x) && Continues(x)
    ensures Looping(e, xs + [x], sent + [messages], messages + TurnMessages(x),
                    Usage(tokens.prompt + x.usage.prompt, tokens.completion + x.usage.completion), stored + TurnRows(x))
  {
    ContinuesSnoc(xs, x);
    TurnFollows(e, xs, x);
    TurnAdds(e.initial, xs, x);
    AskedInTurn(e, xs, sent, messages, x);
  }

  lemma {:induction false} AnswerEnds(e: Setting, ys: seq<Exchange>, r: Result)
    requires AllWellFormed(ys) && ys != [] && ys[|ys| - 1].message.toolCalls == []
    requires r == Result(ys[|ys| - 1].message.content, Spent(ys), false)
    ensures Ended(e, ys, |ys|, Rows(ys), Done(r))
  {
  }

  lemma {:induction false} TurnAnswers(
      e: Setting, xs: seq<Exchange>, sent: seq<seq<Message>>, messages: seq<Message>, tokens: Usage,
      stored: seq<StepRow>, x: Exchange, r: Result)
    requires Looping(e, xs, sent, messages, tokens, stored) && Limit(e, xs) == None
    requires IsExchange(e.granted, e.catalog, e.w, |xs|, |stored|, x) && x.message.toolCalls == []
    requires r == Result(x.message.content,
                         Usage(tokens.prompt + x.usage.prompt, tokens.completion + x.usage.completion), false)
    requires Untaken(e.before, |stored + TurnRows(x)|)
    ensures IsExecution(e, xs + [x], sent + [messages], stored + TurnRows(x), Done(r))
  {
    TurnFollows(e, xs, x);
    TurnAdds(e.initial, xs, x);
    AskedInTurn(e, xs, sent, messages, x);
    AnswerEnds(e, xs + [x], r);
  }

  lemma {:induction false} TurnBreaks(
      e: Setting, xs: seq<Exchange>, sent: seq<seq<Message>>, messages: seq<Message>, tokens: Usage,
      acknowledged: seq<StepRow>, x: Exchange, stored: seq<StepRow>)
    requires Looping(e, xs, sent, messages, tokens, acknowledged) && Limit(e, xs) == None
    requires IsExchange(e.granted, e.catalog, e.w, |xs|, |acknowledged|, x)
    requires CutShort(e.before, e.w, acknowledged + TurnRows(x), stored) && Untaken(e.before, |stored|)
    ensures IsExecution(e, xs + [x], sent + [messages], stored, Error)
  {
    TurnFollows(e, xs, x);
    TurnAdds(e.initial, xs, x);
    AskedInTurn(e, xs, sent, messages, x);
  }

  lemma {:induction false} NoAnswerEnds(
      e: Setting, xs: seq<Exchange>, sent: seq<seq<Message>>, messages: seq<Message>, tokens: Usage,
      stored: seq<StepRow>)
    requires Looping(e, xs, sent, messages, tokens, stored) && Limit(e, xs) == None
    requires !Answered(e.w, |xs|) && Untaken(e.before, |stored|)
    ensures IsExecution(e, xs, sent + [messages], stored, Error)
  {
    AskedNow(e, xs, messages);
    AskedNext(e, xs, sent, messages);
  }

  lemma {:induction false} LimitEnds(
      e: Setting, xs: seq<Exchange>, sent: seq<seq<Message>>, messages: seq<Message>, tokens: Usage,
      stored: seq<StepRow>, b: Budget)
    requires Looping(e, xs, sent, messages, tokens, stored) && Limit(e, xs) == Some(b) && Untaken(e.before, |stored|)
    ensures IsExecution(e, xs, sent, stored, Done(StoppedByBudget("", tokens, b)))
  {
  }

  lemma {:induction false} UnrecordedEnds(
    e: Setting, xs: seq<Exchange>, sent: seq<seq<Message>>, messages: seq<Message>, tokens: Usage,
    steps: seq<StepRow>, turn: Turn, stored: seq<StepRow>)
    requires Looping(e, xs, sent, messages, tokens, steps) && Limit(e, xs) == None && Untaken(e.before, |stored|)
    requires turn.NoAnswer? || !turn.recorded
    requires turn.NoAnswer? ==> !Answered(e.w, |xs|) && stored == steps
    requires turn.Got? ==> IsExchange(e.granted, e.catalog, e.w, |xs|, |steps|, turn.exchange)
    requires turn.Got? ==> CutShort(e.before, e.w, steps + TurnRows(turn.exchange), stored)
    ensures IsExecution(e, if turn.NoAnswer? then xs else xs + [turn.exchange], sent + [messages], stored, Error)
  {
    if turn.NoAnswer? {
      NoAnswerEnds(e, xs, sent, messages, tokens, stored);
    } else {
      TurnBreaks(e, xs, sent, messages, tokens, steps, turn.exchange, stored);
    }
  }

  ghost function SettingOf(
      agent: Agent, registry: ToolRegistry, store: StepStore, w: World, initial: seq<Message>): Setting
    reads agent, registry, store
  {
    Setting(Limits(agent.maxSteps, agent.maxTokens, agent.maxDurationSeconds), agent.Granted(), registry.tools, w,
            initial, store.rows)
  }

  /** `xs` are the exchanges it had, `sent` the conversation of each model call, `stored` the rows it left. */
  method Execute(agent: Agent, registry: ToolRegistry, store: StepStore, w: World, initial: seq<Message>)
    returns (outcome: Outcome, ghost xs: seq<Exchange>, ghost sent: seq<seq<Message>>, ghost stored: seq<StepRow>)
    requires registry.Valid()
    modifies store
    ensures IsExecution(old(SettingOf(agent, registry, store, w, initial)), xs, sent, stored, outcome)
    ensures store.rows == Recorded(old(store.rows), stored)
  {
    ghost var e := SettingOf(agent, registry, store, w, initial);
    xs, sent, stored := [], [], [];
    var messages, output, tokens, stepIndex := initial, "", Usage(0, 0), 0;
    var step: nat := 0;
    while step < agent.maxSteps
      invariant Looping(e, xs, sent, messages, tokens, stored) && step == |xs| && output == ""
      invariant store.rows == Recorded(e.before, stored) && Untaken(e.before, |stored|) && stepIndex == |stored|
      decreases agent.maxSteps - step
    {
      if w.clock(step) > w.startedAt + agent.maxDurationSeconds {
        LimitEnds(e, xs, sent, messages, tokens, stored, Time);
        return Done(StoppedByBudget(output, tokens, Time)), xs, sent, stored;
      }
      if tokens.prompt + tokens.completion > agent.maxTokens {
        LimitEnds(e, xs, sent, messages, tokens, stored, Tokens);
        return Done(StoppedByBudget(output, tokens, Tokens)), xs, sent, stored;
      }
      ghost var acknowledged := stored;
      var turn;
      turn, stored := TakeTurn(agent, registry, store, w, step, stepIndex, e.before, stored);
      if turn.NoAnswer? || !turn.recorded {
        UnrecordedEnds(e, xs, sent, messages, tokens, acknowledged, turn, stored);
        return Error, if turn.NoAnswer? then xs else xs + [turn.exchange], sent + [messages], stored;
      }
      var x := turn.exchange;
      var spent := Usage(tokens.prompt + x.usage.prompt, tokens.completion + x.usage.completion);
      if x.message.toolCalls == [] {
        output := x.message.content;
        TurnAnswers(e, xs, sent, messages, tokens, acknowledged, x, Result(output, spent, false));
        return Done(Result(output, spent, false)), xs + [x], sent + [messages], stored;
      }
      TurnContinues(e, xs, sent, messages, tokens, acknowledged, x);
      xs, sent, tokens := xs + [x], sent + [messages], spent;
      messages := messages + ([x.message] + turn.told);
      stepIndex := stepIndex + 1 + |turn.told|;
      step := step + 1;
    }
    LimitEnds(e, xs, sent, messages, tokens, stored, Steps);
    return Done(StoppedByBudget(output, tokens, Steps)), xs, sent, stored;
  }
}
