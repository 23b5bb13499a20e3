/**
 Several executions of one run at once (pkg/executor/executor.go, pkg/store/steps.go). A run dispatched
 twice is executed twice; the only thing the executions share is the run's trace, whose rows are unique
 by index (pkg/db/migrations/0004_run_steps.sql). Their statements interleave freely.
 */
module Trace {
  type ExecutionId = nat

  datatype Kind = ModelCall | ToolCall

  /** A row of the trace: what was recorded, and which execution recorded it. */
  datatype Row = Row(owner: ExecutionId, kind: Kind, content: string)

  /** What an execution does next; `left` counts the tool calls still to be made in this iteration. */
  datatype Phase =
    | AskModel
    | InsertModelCall(left: nat, content: string)
    | RunTool(left: nat)
    | InsertToolCall(left: nat, content: string)
    | Ended

  /** `recorded` is the trace as this execution believes it to be, a reply lost with the row in it included. */
  datatype Execution = Execution(phase: Phase, index: nat, recorded: seq<Row>)

  /** A tool that was run: by whom, and for which row of the trace. */
  datatype ToolRun = ToolRun(owner: ExecutionId, index: nat)

  datatype State = State(table: map<nat, Row>, executions: map<ExecutionId, Execution>, toolRuns: seq<ToolRun>)

  const INITIAL := State(map[], map[], [])

  /** An insert is refused when the index is taken; a failure of the database may or may not leave the row. */
  datatype Reply = Success | FailedWithoutRow | FailedWithRow

  datatype Step =
    | Spawn(id: ExecutionId)
    | Ask(id: ExecutionId, left: nat, content: string)
    | UseTool(id: ExecutionId, refused: bool, content: string)
    | Insert(id: ExecutionId, reply: Reply)
    | End(id: ExecutionId)

  predicate In(s: State, e: ExecutionId) {
    e in s.executions
  }

  predicate Inserting(p: Phase) {
    p.InsertModelCall? || p.InsertToolCall?
  }

  predicate Enabled(s: State, step: Step) {
    match step
    case Spawn(e) => !In(s, e)
    case Ask(e, _, _) => In(s, e) && s.executions[e].phase.AskModel?
    case UseTool(e, _, _) => In(s, e) && s.executions[e].phase.RunTool? && s.executions[e].phase.left > 0
    case Insert(e, _) => In(s, e) && Inserting(s.executions[e].phase)
    case End(e) => In(s, e)
  }

  /** The row an execution is about to insert. */
  function RowOf(e: ExecutionId, p: Phase): Row
    requires Inserting(p)
  {
    Row(e, if p.InsertModelCall? then ModelCall else ToolCall, p.content)
  }

  /** Where an execution goes once its row is stored: an answer without tool calls ends the run. */
  function AfterInsert(p: Phase): Phase
    requires Inserting(p)
  {
    if p.left > 0 then RunTool(p.left) else if p.InsertModelCall? then Ended else AskModel
  }

  function SetPhase(s: State, e: ExecutionId, p: Phase): State
    requires In(s, e)
  {
    s.(executions := s.executions[e := s.executions[e].(phase := p)])
  }

  function Store(s: State, e: ExecutionId, next: Phase): State
    requires In(s, e) && Inserting(s.executions[e].phase)
  {
    var x := s.executions[e];
    var row := RowOf(e, x.phase);
    s.(table := s.table[x.index := row],
       executions := s.executions[e := Execution(next, x.index + 1, x.recorded + [row])])
  }

  function Apply(s: State, step: Step): State
    requires Enabled(s, step)
  {
    match step
    case Spawn(e) => s.(executions := s.executions[e := Execution(AskModel, 0, [])])
    case Ask(e, left, content) => SetPhase(s, e, InsertModelCall(left, content))
    case UseTool(e, refused, content) =>
      var x := s.executions[e];
      SetPhase(s, e, InsertToolCall(x.phase.left - 1, content)).(
        toolRuns := if refused then s.toolRuns else s.toolRuns + [ToolRun(e, x.index)])
    case Insert(e, reply) =>
      var x := s.executions[e];
      if x.index in s.table || reply == FailedWithoutRow then SetPhase(s, e, Ended)
      else if reply == FailedWithRow then Store(s, e, Ended)
      else Store(s, e, AfterInsert(x.phase))
    case End(e) => SetPhase(s, e, Ended)
  }

  predicate Next(s: State, step: Step, s': State) {
    Enabled(s, step) && s' == Apply(s, step)
  }

  // -- One execution owns the trace -------------------------------------------------------

  /** The execution whose first row was stored. */
  predicate Owns(s: State, e: ExecutionId) {
    0 in s.table && s.table[0].owner == e
  }

  /** What holds of each execution: past its first insert it owns the trace and is level with it. */
  ghost predicate Placed(s: State, e: ExecutionId)
    requires In(s, e)
  {
    var x := s.executions[e];
    && x.index == |x.recorded|
    && (x.phase.RunTool? || x.phase.InsertToolCall? ==> x.index > 0)
    && (if Owns(s, e)
        then x.index == |s.table| && forall k :: 0 <= k < x.index ==> k in s.table && s.table[k] == x.recorded[k]
        else x.index == 0)
  }

  /** The trace has no gap and one owner. */
  ghost predicate Contiguous(s: State) {
    && (forall k: nat :: k in s.table <==> k < |s.table|)
    && (forall k :: k in s.table ==> Owns(s, s.table[k].owner) && In(s, s.table[k].owner))
  }

  /** A tool that was run is in the trace, in its place; at most the last one is still to be recorded. */
  ghost predicate ToolsRecorded(s: State) {
    && (forall j :: 0 <= j < |s.toolRuns| ==> Owns(s, s.toolRuns[j].owner) && In(s, s.toolRuns[j].owner))
    && (forall i, j :: 0 <= i < j < |s.toolRuns| ==> s.toolRuns[i].index < s.toolRuns[j].index)
    && (forall j :: 0 <= j < |s.toolRuns| ==>
          if s.toolRuns[j].index < |s.table|
          then s.toolRuns[j].index in s.table && s.table[s.toolRuns[j].index].kind == ToolCall
          else s.toolRuns[j].index == |s.table| && AwaitsToolRow(s.executions[s.toolRuns[j].owner].phase))
  }

  predicate AwaitsToolRow(p: Phase) {
    p.InsertToolCall? || p.Ended?
  }

  ghost predicate AllPlaced(s: State) {
    forall e :: In(s, e) ==> Placed(s, e)
  }

  ghost predicate OneOwner(s: State) {
    Contiguous(s) && AllPlaced(s) && ToolsRecorded(s)
  }

  lemma StoreIsContiguous(s: State, e: ExecutionId, next: Phase)
    requires Contiguous(s) && AllPlaced(s) && In(s, e) && Inserting(s.executions[e].phase)
    requires s.executions[e].index !in s.table
    ensures Contiguous(Store(s, e, next)) && AllPlaced(Store(s, e, next)) && Owns(Store(s, e, next), e)
    ensures s.executions[e].index == |s.table| && |Store(s, e, next).table| == |s.table| + 1
  {
    var s', x := Store(s, e, next), s.executions[e];
    assert Placed(s, e);
    assert x.index == |s.table|;
    forall f | In(s', f) ensures Placed(s', f) {
      assert f != e ==> Placed(s, f);
    }
  }

  lemma StoreRecordsTools(s: State, e: ExecutionId, next: Phase)
    requires OneOwner(s) && In(s, e) && Inserting(s.executions[e].phase)
    requires s.executions[e].index !in s.table
    ensures ToolsRecorded(Store(s, e, next))
  {
    StoreIsContiguous(s, e, next);
    var s' := Store(s, e, next);
    forall j | 0 <= j < |s.toolRuns|
      ensures s'.toolRuns[j].index in s'.table && s'.table[s'.toolRuns[j].index].kind == ToolCall
    {
      assert Owns(s, s.toolRuns[j].owner);
      assert Placed(s, e);
    }
  }

  lemma StoreKeepsOneOwner(s: State, e: ExecutionId, next: Phase)
    requires OneOwner(s) && In(s, e) && Inserting(s.executions[e].phase)
    requires s.executions[e].index !in s.table
    ensures OneOwner(Store(s, e, next))
  {
    StoreIsContiguous(s, e, next);
    StoreRecordsTools(s, e, next);
  }

  lemma SetPhaseKeepsPlaces(s: State, e: ExecutionId, p: Phase)
    requires Contiguous(s) && AllPlaced(s) && In(s, e)
    requires p.RunTool? || p.InsertToolCall? ==> s.executions[e].index > 0
    ensures Contiguous(SetPhase(s, e, p)) && AllPlaced(SetPhase(s, e, p))
  {
    var s' := SetPhase(s, e, p);
    forall f | In(s', f) ensures Placed(s', f) {
      assert Placed(s, f);
    }
  }

  /** A phase change that is not a tool run, of an execution that is not waiting to record one. */
  lemma SetPhaseKeepsTools(s: State, e: ExecutionId, p: Phase)
    requires ToolsRecorded(s) && In(s, e)
    requires p == Ended || !AwaitsToolRow(s.executions[e].phase)
    ensures ToolsRecorded(SetPhase(s, e, p))
  {
  }

  lemma UseToolKeepsOneOwner(s: State, e: ExecutionId, refused: bool, content: string)
    requires OneOwner(s) && Enabled(s, UseTool(e, refused, content))
    ensures OneOwner(Apply(s, UseTool(e, refused, content)))
  {
    var x, s' := s.executions[e], Apply(s, UseTool(e, refused, content));
    var p := InsertToolCall(x.phase.left - 1, content);
    assert Placed(s, e);
    SetPhaseKeepsPlaces(s, e, p);
    SetPhaseKeepsTools(s, e, p);
    var mid := SetPhase(s, e, p);
    forall f | In(s', f) ensures Placed(s', f) {
      assert Placed(mid, f);
    }
  }

  lemma SpawnKeepsOneOwner(s: State, e: ExecutionId)
    requires OneOwner(s) && !In(s, e)
    ensures OneOwner(Apply(s, Spawn(e)))
  {
    var s' := Apply(s, Spawn(e));
    assert !Owns(s, e);
    forall f | In(s', f) ensures Placed(s', f) {
      assert f != e ==> Placed(s, f);
    }
  }

  lemma StepKeepsOneOwner(s: State, step: Step, s': State)
    requires OneOwner(s) && Next(s, step, s')
    ensures OneOwner(s')
  {
    match step {
      case Spawn(e) => SpawnKeepsOneOwner(s, e);
      case UseTool(e, refused, content) => UseToolKeepsOneOwner(s, e, refused, content);
      case Ask(e, left, content) =>
        SetPhaseKeepsPlaces(s, e, InsertModelCall(left, content));
        SetPhaseKeepsTools(s, e, InsertModelCall(left, content));
      case End(e) =>
        SetPhaseKeepsPlaces(s, e, Ended);
        SetPhaseKeepsTools(s, e, Ended);
      case Insert(e, reply) =>
        var x := s.executions[e];
        if x.index in s.table || reply == FailedWithoutRow {
          SetPhaseKeepsPlaces(s, e, Ended);
          SetPhaseKeepsTools(s, e, Ended);
        } else if reply == FailedWithRow {
          StoreKeepsOneOwner(s, e, Ended);
        } else {
          StoreKeepsOneOwner(s, e, AfterInsert(x.phase));
        }
    }
  }

  // -- Every interleaving -----------------------------------------------------------------

  ghost predicate StepAt(ss: seq<State>, steps: seq<Step>, i: nat)
    requires i < |steps| && |ss| == |steps| + 1
  {
    Next(ss[i], steps[i], ss[i + 1])
  }

  ghost predicate Behaviour(ss: seq<State>, steps: seq<Step>) {
    && |ss| == |steps| + 1 && ss[0] == INITIAL
    && forall i: nat {:trigger StepAt(ss, steps, i)} :: i < |steps| ==> StepAt(ss, steps, i)
  }

  lemma {:induction false} AlwaysOneOwner(ss: seq<State>, steps: seq<Step>, i: nat)
    requires Behaviour(ss, steps) && i < |ss|
    ensures OneOwner(ss[i])
  {
    if i > 0 {
      AlwaysOneOwner(ss, steps, i - 1);
      assert StepAt(ss, steps, i - 1);
      StepKeepsOneOwner(ss[i - 1], steps[i - 1], ss[i]);
    }
  }

  lemma {:induction false} RowsStay(ss: seq<State>, steps: seq<Step>, i: nat, j: nat, k: nat)
    requires Behaviour(ss, steps) && i <= j < |ss| && k in ss[i].table
    ensures k in ss[j].table && ss[j].table[k] == ss[i].table[k]
    decreases j - i
  {
    if i < j {
      RowsStay(ss, steps, i, j - 1, k);
      assert StepAt(ss, steps, j - 1);
    }
  }

  /**
   At most one execution of a run ever gets past its first insert, at any two moments of any
   interleaving; it alone runs tools and stores rows, and the trace is what it recorded, row by row.
   */
  lemma OnlyOneGetsPastTheFirstInsert(
    ss: seq<State>, steps: seq<Step>, i: nat, j: nat, e: ExecutionId, f: ExecutionId)
    requires Behaviour(ss, steps) && i <= j < |ss|
    requires In(ss[i], e) && ss[i].executions[e].index > 0
    requires In(ss[j], f) && ss[j].executions[f].index > 0
    ensures e == f
    ensures forall k :: k in ss[j].table ==> ss[j].table[k].owner == e
    ensures forall t :: t in ss[j].toolRuns ==> t.owner == e
    ensures forall k: nat :: k in ss[j].table <==> k < |ss[j].executions[e].recorded|
    ensures forall k :: k in ss[j].table ==> ss[j].table[k] == ss[j].executions[e].recorded[k]
  {
    AlwaysOneOwner(ss, steps, i);
    AlwaysOneOwner(ss, steps, j);
    assert Placed(ss[i], e) && Placed(ss[j], f);
    RowsStay(ss, steps, i, j, 0);
    assert Contiguous(ss[j]) && ToolsRecorded(ss[j]);
  }

  /** The stored indices are an initial segment and all rows have one owner, whatever failed on the way. */
  lemma StoredIndicesHaveNoGap(ss: seq<State>, steps: seq<Step>, i: nat)
    requires Behaviour(ss, steps) && i < |ss|
    ensures forall k: nat :: k in ss[i].table <==> k < |ss[i].table|
    ensures forall k, l :: k in ss[i].table && l in ss[i].table ==> ss[i].table[k].owner == ss[i].table[l].owner
  {
    AlwaysOneOwner(ss, steps, i);
  }

  /**
   Every tool that was run has its own row in the trace, recorded before the next tool was run; only
   the last can be missing.
   */
  lemma ToolRunsAreInTheTrace(ss: seq<State>, steps: seq<Step>, i: nat)
    requires Behaviour(ss, steps) && i < |ss|
    ensures forall a, b :: 0 <= a < b < |ss[i].toolRuns| ==> ss[i].toolRuns[a].index != ss[i].toolRuns[b].index
    ensures forall a :: 0 <= a < |ss[i].toolRuns| - 1 ==>
              var t := ss[i].toolRuns[a];
              t.index in ss[i].table && ss[i].table[t.index].kind == ToolCall && ss[i].table[t.index].owner == t.owner
  {
    AlwaysOneOwner(ss, steps, i);
    var s := ss[i];
    forall a | 0 <= a < |s.toolRuns| - 1
      ensures s.toolRuns[a].index in s.table && s.table[s.toolRuns[a].index].kind == ToolCall
           && s.table[s.toolRuns[a].index].owner == s.toolRuns[a].owner
    {
      assert s.toolRuns[a].index < s.toolRuns[|s.toolRuns| - 1].index;
    }
  }

  // -- What the steps do -------------------------------------------------------------------

  /**
   An insert stores the row at its index if the index is free and the database does not refuse it, and
   changes no other row. Acknowledged, it lets the execution go on: to its tool calls if any are left, to
   the end after an answer without any, and otherwise to the next model call.
   */
  lemma InsertMeans(s: State, e: ExecutionId, reply: Reply)
    requires Enabled(s, Insert(e, reply))
    ensures var x, s' := s.executions[e], Apply(s, Insert(e, reply));
            && (x.index in s.table || reply == FailedWithoutRow ==>
                  s'.table == s.table && s'.executions[e].phase == Ended)
            && (x.index !in s.table && reply != FailedWithoutRow ==>
                  && s'.table.Keys == s.table.Keys + {x.index}
                  && s'.table[x.index].owner == e && s'.table[x.index].content == x.phase.content
                  && (s'.table[x.index].kind == ModelCall <==> x.phase.InsertModelCall?)
                  && (forall k :: k in s.table ==> s'.table[k] == s.table[k])
                  && s'.executions[e].index == x.index + 1)
            && (x.index !in s.table && reply == FailedWithRow ==> s'.executions[e].phase == Ended)
            && (x.index !in s.table && reply == Success ==>
                  s'.executions[e].phase ==
                    (if x.phase.left > 0 then RunTool(x.phase.left)
                     else if x.phase.InsertModelCall? then Ended
                     else AskModel))
            && s'.toolRuns == s.toolRuns
            && forall f :: f in s.executions && f != e ==> s'.executions[f] == s.executions[f]
  {
  }

  /** A tool call moves on to recording its row; it counts as a tool run unless it was refused. */
  lemma UseToolMeans(s: State, e: ExecutionId, refused: bool, content: string)
    ensures Enabled(s, UseTool(e, refused, content)) <==>
      e in s.executions && s.executions[e].phase.RunTool? && s.executions[e].phase.left > 0
    ensures Enabled(s, UseTool(e, refused, content)) ==>
      var x, s' := s.executions[e], Apply(s, UseTool(e, refused, content));
      && s'.executions[e].phase == InsertToolCall(x.phase.left - 1, content) && s'.table == s.table
      && s'.toolRuns == s.toolRuns + (if refused then [] else [ToolRun(e, x.index)])
  {
  }

  lemma Extend(ss: seq<State>, steps: seq<Step>, step: Step, s: State)
    requires Behaviour(ss, steps) && Next(ss[|steps|], step, s)
    ensures Behaviour(ss + [s], steps + [step])
  {
    var ss', steps' := ss + [s], steps + [step];
    forall i: nat | i < |steps'|
      ensures StepAt(ss', steps', i)
    {
      if i < |steps| {
        assert StepAt(ss, steps, i);
      }
    }
  }

  function Alone(phase: Phase, rows: seq<Row>, runs: seq<ToolRun>): State {
    State(map k: nat | k < |rows| :: rows[k], map[0 := Execution(phase, |rows|, rows)], runs)
  }

  const ASKED := Row(0, ModelCall, "a")
  const USED := Row(0, ToolCall, "b")
  const ANSWERED := Row(0, ModelCall, "c")

  /** An execution by itself asks the model, which wants a tool. */
  lemma OneModelCall() returns (ss: seq<State>, steps: seq<Step>)
    ensures Behaviour(ss, steps) && ss[|steps|] == Alone(RunTool(1), [ASKED], [])
  {
    ss, steps := [INITIAL], [];
    var s1, s2 := Alone(AskModel, [], []), Alone(InsertModelCall(1, "a"), [], []);
    var s3 := Alone(RunTool(1), [ASKED], []);
    Extend(ss, steps, Spawn(0), s1);
    ss, steps := ss + [s1], steps + [Spawn(0)];
    Extend(ss, steps, Ask(0, 1, "a"), s2);
    ss, steps := ss + [s2], steps + [Ask(0, 1, "a")];
    assert Apply(s2, Insert(0, Success)).table == s3.table && [] + [ASKED] == [ASKED];
    Extend(ss, steps, Insert(0, Success), s3);
    ss, steps := ss + [s3], steps + [Insert(0, Success)];
  }

  /** The tool is run and its row recorded. */
  lemma OneToolCall() returns (ss: seq<State>, steps: seq<Step>)
    ensures Behaviour(ss, steps) && ss[|steps|] == Alone(AskModel, [ASKED, USED], [ToolRun(0, 1)])
  {
    ss, steps := OneModelCall();
    var s4 := Alone(InsertToolCall(0, "b"), [ASKED], [ToolRun(0, 1)]);
    var s5 := Alone(AskModel, [ASKED, USED], [ToolRun(0, 1)]);
    Extend(ss, steps, UseTool(0, false, "b"), s4);
    ss, steps := ss + [s4], steps + [UseTool(0, false, "b")];
    assert Apply(s4, Insert(0, Success)).table == s5.table && [ASKED] + [USED] == [ASKED, USED];
    Extend(ss, steps, Insert(0, Success), s5);
    ss, steps := ss + [s5], steps + [Insert(0, Success)];
  }

  /** Then the model answers, and the execution ends with its whole trace stored. */
  lemma OneExecutionCompletes() returns (ss: seq<State>, steps: seq<Step>)
    ensures Behaviour(ss, steps) && ss[|steps|] == Alone(Ended, [ASKED, USED, ANSWERED], [ToolRun(0, 1)])
  {
    ss, steps := OneToolCall();
    var s6 := Alone(InsertModelCall(0, "c"), [ASKED, USED], [ToolRun(0, 1)]);
    var s7 := Alone(Ended, [ASKED, USED, ANSWERED], [ToolRun(0, 1)]);
    Extend(ss, steps, Ask(0, 0, "c"), s6);
    ss, steps := ss + [s6], steps + [Ask(0, 0, "c")];
    assert Apply(s6, Insert(0, Success)).table == s7.table && [ASKED, USED] + [ANSWERED] == [ASKED, USED, ANSWERED];
    Extend(ss, steps, Insert(0, Success), s7);
    ss, steps := ss + [s7], steps + [Insert(0, Success)];
  }
}
