/**
 Telling the operator about agents that keep failing: the consecutive-failure count
 (pkg/coordinator/coordinator.go, pkg/reaper/reaper.go) and the notifier (pkg/notifier/notifier.go).
 */
module Alerts {
  import opened Common

  const FAILURE_THRESHOLD: nat := 3

  type AgentId = string

  /** The alert columns of an agent; `alertsEnabled` is its owner's setting. */
  datatype AgentRow = AgentRow(failures: nat, notifiedAt: Option<int>, alertsEnabled: bool)

  type Agents = map<AgentId, AgentRow>

  // -- Statements on the agents table ----------------------------------------------------

  /** A success clears the count and the previous report; anything else adds one. */
  function Recorded(row: AgentRow, succeeded: bool): AgentRow {
    if succeeded then row.(failures := 0, notifiedAt := None) else row.(failures := row.failures + 1)
  }

  function RecordOutcome(agents: Agents, agent: AgentId, succeeded: bool): Agents {
    if agent in agents then agents[agent := Recorded(agents[agent], succeeded)] else agents
  }

  /** A reaper pass counts an agent once, however many of its runs it failed. */
  function CountReaped(agents: Agents, reaped: set<AgentId>): Agents {
    map a | a in agents :: if a in reaped then Recorded(agents[a], false) else agents[a]
  }

  predicate Failing(row: AgentRow) {
    row.alertsEnabled && row.failures >= FAILURE_THRESHOLD && row.notifiedAt == None
  }

  function Marked(row: AgentRow, now: int): AgentRow {
    row.(notifiedAt := Some(now))
  }

  // -- What happened to one agent --------------------------------------------------------

  type PassId = nat

  /** An alert is logged when it is sent and again when it is marked, with the pass that did it. */
  datatype Entry = Success | Failure | AlertSent(pass: PassId) | AlertMarked(pass: PassId)

  /** Failures since the last success. */
  function FailuresSince(log: seq<Entry>): nat {
    if log == [] then 0
    else
      var n := |log| - 1;
      match log[n]
      case Success => 0
      case Failure => FailuresSince(log[..n]) + 1
      case _ => FailuresSince(log[..n])
  }

  /** Whether an alert went out since the last success. */
  predicate AlertedSince(log: seq<Entry>) {
    |log| > 0 && (log[|log| - 1].AlertSent? || (log[|log| - 1] != Success && AlertedSince(log[..|log| - 1])))
  }

  /** Every alert is the first since the last success and comes after at least three failures. */
  ghost predicate WellAlerted(log: seq<Entry>) {
    forall i :: 0 <= i < |log| && log[i].AlertSent? ==>
      !AlertedSince(log[..i]) && FailuresSince(log[..i]) >= FAILURE_THRESHOLD
  }

  lemma {:induction false} AlertStaysUntilSuccess(log: seq<Entry>, i: nat)
    requires i < |log| && log[i].AlertSent? && !AlertedSince(log)
    ensures exists k :: i < k < |log| && log[k] == Success
  {
    var n := |log| - 1;
    if log[n] != Success {
      AlertStaysUntilSuccess(log[..n], i);
      var k :| i < k < n && log[..n][k] == Success;
      assert log[k] == Success;
    }
  }

  /** Two alerts for one agent are always separated by a success. */
  lemma AlertsAreSeparated(log: seq<Entry>, i: nat, j: nat)
    requires WellAlerted(log) && i < j < |log| && log[i].AlertSent? && log[j].AlertSent?
    ensures exists k :: i < k < j && log[k] == Success
  {
    assert log[..j][i].AlertSent?;
    AlertStaysUntilSuccess(log[..j], i);
    var k :| i < k < j && log[..j][k] == Success;
    assert log[k] == Success;
  }

  /** A failure stands at `p`, and no success after it. */
  ghost predicate FailureAt(log: seq<Entry>, p: nat) {
    p < |log| && log[p] == Failure && forall k :: p < k < |log| ==> log[k] != Success
  }

  /** `ps` are distinct places of failures after the last success. */
  ghost predicate FailuresAt(log: seq<Entry>, ps: seq<nat>) {
    && (forall i, j :: 0 <= i < j < |ps| ==> ps[i] < ps[j])
    && (forall i :: 0 <= i < |ps| ==> FailureAt(log, ps[i]))
  }

  lemma FailureStays(log: seq<Entry>, entry: Entry, p: nat)
    requires FailureAt(log, p) && entry != Success
    ensures FailureAt(log + [entry], p)
  {
  }

  lemma {:induction false} FailuresSinceMeansFailures(log: seq<Entry>) returns (ps: seq<nat>)
    ensures |ps| == FailuresSince(log) && FailuresAt(log, ps)
  {
    var n := |log| - 1;
    if log == [] || log[n] == Success {
      ps := [];
    } else {
      ps := FailuresSinceMeansFailures(log[..n]);
      forall i | 0 <= i < |ps|
        ensures FailureAt(log, ps[i]) && ps[i] < n
      {
        FailureStays(log[..n], log[n], ps[i]);
        assert log[..n] + [log[n]] == log;
      }
      if log[n] == Failure {
        assert FailureAt(log, n);
        ps := ps + [n];
      }
    }
  }

  /** Every alert is preceded by at least three failures since the last success. */
  lemma AlertFollowsThreeFailures(log: seq<Entry>, i: nat) returns (ps: seq<nat>)
    requires WellAlerted(log) && i < |log| && log[i].AlertSent?
    ensures |ps| >= FAILURE_THRESHOLD && FailuresAt(log[..i], ps)
  {
    ps := FailuresSinceMeansFailures(log[..i]);
  }

  // -- All agents, all steps -------------------------------------------------------------

  /** How far a pass has come with an agent; it gives up when sending or marking fails. */
  datatype Stage = HasRead | HasSent | HasMarked | GaveUp(sent: bool)

  predicate WasSent(stage: Stage) {
    stage == HasSent || stage == HasMarked || stage == GaveUp(true)
  }

  /** The part of a notifier's pass that is about one agent. */
  datatype Pass = Pass(agent: AgentId, stage: Stage)

  datatype State = State(agents: Agents, logs: map<AgentId, seq<Entry>>, passes: map<PassId, Pass>)

  datatype Step =
    | Outcome(agent: AgentId, succeeded: bool)
    | ReapPass(reaped: set<AgentId>)
    | SetAlerts(agent: AgentId, enabled: bool)
    | Report(pass: PassId, agent: AgentId, now: int, delivered: bool)   // read, send and mark without interruption
    | Read(pass: PassId, agent: AgentId)                                // the same in three separate steps
    | Send(pass: PassId)
    | Mark(pass: PassId, now: int)
    | GiveUp(pass: PassId)

  function Logged(logs: map<AgentId, seq<Entry>>, agent: AgentId, entry: Entry): map<AgentId, seq<Entry>>
    requires agent in logs
  {
    logs[agent := logs[agent] + [entry]]
  }

  predicate Enabled(s: State, step: Step) {
    match step
    case Outcome(a, _) => a in s.agents && a in s.logs
    case ReapPass(_) => true
    case SetAlerts(a, _) => a in s.agents
    case Report(p, a, _, _) => a in s.agents && a in s.logs && p !in s.passes
    case Read(p, a) => a in s.agents && p !in s.passes && Failing(s.agents[a])
    case Send(p) => p in s.passes && s.passes[p].stage == HasRead && s.passes[p].agent in s.logs
    case Mark(p, _) =>
      p in s.passes && s.passes[p].stage == HasSent && s.passes[p].agent in s.logs && s.passes[p].agent in s.agents
    case GiveUp(p) => p in s.passes && (s.passes[p].stage == HasRead || s.passes[p].stage == HasSent)
  }

  function Reap(logs: map<AgentId, seq<Entry>>, reaped: set<AgentId>): map<AgentId, seq<Entry>> {
    map a | a in logs :: if a in reaped then logs[a] + [Failure] else logs[a]
  }

  function Apply(s: State, step: Step): State
    requires Enabled(s, step)
  {
    match step
    case Outcome(a, succeeded) =>
      s.(agents := RecordOutcome(s.agents, a, succeeded),
         logs := Logged(s.logs, a, if succeeded then Success else Failure))
    case ReapPass(reaped) => s.(agents := CountReaped(s.agents, reaped), logs := Reap(s.logs, reaped))
    case SetAlerts(a, enabled) => s.(agents := s.agents[a := s.agents[a].(alertsEnabled := enabled)])
    case Report(p, a, now, delivered) =>
      if Failing(s.agents[a]) && delivered
      then State(s.agents[a := Marked(s.agents[a], now)], Logged(Logged(s.logs, a, AlertSent(p)), a, AlertMarked(p)),
                 s.passes[p := Pass(a, HasMarked)])
      else s
    case Read(p, a) => s.(passes := s.passes[p := Pass(a, HasRead)])
    case Send(p) =>
      var a := s.passes[p].agent;
      s.(passes := s.passes[p := Pass(a, HasSent)], logs := Logged(s.logs, a, AlertSent(p)))
    case Mark(p, now) =>
      var a := s.passes[p].agent;
      State(s.agents[a := Marked(s.agents[a], now)], Logged(s.logs, a, AlertMarked(p)),
            s.passes[p := Pass(a, HasMarked)])
    case GiveUp(p) =>
      s.(passes := s.passes[p := Pass(s.passes[p].agent, GaveUp(s.passes[p].stage == HasSent))])
  }

  predicate Next(s: State, step: Step, s': State) {
    Enabled(s, step) && s' == Apply(s, step)
  }

  /** Nothing else happens between reading an agent and marking it. */
  predicate Atomic(step: Step) {
    !step.Read? && !step.Send? && !step.Mark? && !step.GiveUp?
  }

  ghost predicate Tracks(row: AgentRow, log: seq<Entry>) {
    && row.failures == FailuresSince(log)
    && (row.notifiedAt.Some? <==> AlertedSince(log))
  }

  ghost predicate Consistent(s: State) {
    && s.agents.Keys == s.logs.Keys
    && forall a :: a in s.agents ==> Tracks(s.agents[a], s.logs[a]) && WellAlerted(s.logs[a])
  }

  lemma LogSnoc(log: seq<Entry>, entry: Entry)
    ensures FailuresSince(log + [entry])
      == if entry == Success then 0 else if entry == Failure then FailuresSince(log) + 1 else FailuresSince(log)
    ensures AlertedSince(log + [entry]) <==> entry.AlertSent? || (entry != Success && AlertedSince(log))
  {
    assert (log + [entry])[..|log|] == log;
  }

  lemma WellAlertedSnoc(log: seq<Entry>, entry: Entry)
    requires WellAlerted(log)
    requires entry.AlertSent? ==> !AlertedSince(log) && FailuresSince(log) >= FAILURE_THRESHOLD
    ensures WellAlerted(log + [entry])
  {
    var more := log + [entry];
    forall i | 0 <= i < |more| && more[i].AlertSent?
      ensures !AlertedSince(more[..i]) && FailuresSince(more[..i]) >= FAILURE_THRESHOLD
    {
      assert more[..i] == log[..i];
      assert log[..|log|] == log;
    }
  }

  lemma OneMoreEntry(row: AgentRow, log: seq<Entry>, entry: Entry, row': AgentRow)
    requires Tracks(row, log) && WellAlerted(log)
    requires entry == Success ==> row'.failures == 0 && row'.notifiedAt == None
    requires entry == Failure ==> row'.failures == row.failures + 1 && row'.notifiedAt == row.notifiedAt
    requires entry.AlertSent? ==> Failing(row) && row'.failures == row.failures && row'.notifiedAt.Some?
    requires entry.AlertMarked? ==> row' == row
    ensures Tracks(row', log + [entry]) && WellAlerted(log + [entry])
  {
    LogSnoc(log, entry);
    WellAlertedSnoc(log, entry);
  }

  lemma AgentIsConsistent(s: State, step: Step, s': State, a: AgentId)
    requires s.agents.Keys == s.logs.Keys && Next(s, step, s') && Atomic(step)
    requires a in s.agents && Tracks(s.agents[a], s.logs[a]) && WellAlerted(s.logs[a])
    ensures a in s'.agents && a in s'.logs && Tracks(s'.agents[a], s'.logs[a]) && WellAlerted(s'.logs[a])
  {
    var row, log, row' := s.agents[a], s.logs[a], s'.agents[a];
    if step.Outcome? && step.agent == a {
      OneMoreEntry(row, log, if step.succeeded then Success else Failure, row');
    } else if step.ReapPass? && a in step.reaped {
      OneMoreEntry(row, log, Failure, row');
    } else if step.Report? && step.agent == a && Failing(row) && step.delivered {
      OneMoreEntry(row, log, AlertSent(step.pass), row');
      OneMoreEntry(row', log + [AlertSent(step.pass)], AlertMarked(step.pass), row');
    }
  }

  lemma StepIsConsistent(s: State, step: Step, s': State)
    requires Consistent(s) && Next(s, step, s') && Atomic(step)
    ensures Consistent(s')
  {
    forall a | a in s'.agents
      ensures Tracks(s'.agents[a], s'.logs[a]) && WellAlerted(s'.logs[a])
    {
      AgentIsConsistent(s, step, s', a);
    }
  }

  ghost predicate Initial(s: State) {
    && s.logs == (map a | a in s.agents :: []) && s.passes == map[]
    && forall a :: a in s.agents ==> s.agents[a].failures == 0 && s.agents[a].notifiedAt == None
  }

  ghost predicate StepAt(ss: seq<State>, steps: seq<Step>, i: nat)
    requires i < |steps| && |ss| == |steps| + 1
  {
    Next(ss[i], steps[i], ss[i + 1])
  }

  ghost predicate Behaviour(ss: seq<State>, steps: seq<Step>) {
    && |ss| == |steps| + 1 && Initial(ss[0])
    && forall i: nat {:trigger StepAt(ss, steps, i)} :: i < |steps| ==> StepAt(ss, steps, i)
  }

  /** With reports that are not interrupted, alerts are as they should be in every reachable state. */
  lemma {:induction false} AlertsAreSound(ss: seq<State>, steps: seq<Step>, i: nat)
    requires Behaviour(ss, steps) && i < |ss|
    requires forall k :: 0 <= k < i ==> Atomic(steps[k])
    ensures Consistent(ss[i])
  {
    if i > 0 {
      AlertsAreSound(ss, steps, i - 1);
      assert StepAt(ss, steps, i - 1);
      StepIsConsistent(ss[i - 1], steps[i - 1], ss[i]);
    }
  }

  // -- The notifier ----------------------------------------------------------------------

  /** Three failures or more, alerts switched on, and none reported since the last success. */
  ghost predicate ToReport(row: AgentRow) {
    row.failures >= 3 && row.alertsEnabled && row.notifiedAt == None
  }

  /** What an uninterrupted report does: an agent to report is, if the message gets through, and no other. */
  lemma ReportMeans(s: State, p: PassId, a: AgentId, now: int, delivered: bool)
    requires Enabled(s, Report(p, a, now, delivered))
    ensures var s' := Apply(s, Report(p, a, now, delivered));
            && (!ToReport(s.agents[a]) || !delivered ==> s' == s)
            && (ToReport(s.agents[a]) && delivered ==>
                  && a in s'.agents && a in s'.logs && s'.agents[a] == s.agents[a].(notifiedAt := Some(now))
                  && s'.logs[a] == s.logs[a] + [AlertSent(p)] + [AlertMarked(p)]
                  && forall b :: b in s.agents && b != a ==> b in s'.agents && s'.agents[b] == s.agents[b])
  {
  }

  /** A pass reads exactly the agents to report. */
  lemma ReadMeans(s: State, p: PassId, a: AgentId)
    ensures Enabled(s, Read(p, a)) <==> a in s.agents && p !in s.passes && ToReport(s.agents[a])
  {
  }

  /** What the notifier's query returns: every failing agent, once. */
  ghost predicate Selected(agents: Agents, failing: seq<AgentId>) {
    && (forall a :: a in failing <==> a in agents && Failing(agents[a]))
    && (forall i, j :: 0 <= i < j < |failing| ==> failing[i] != failing[j])
  }

  /** The agents in `alerted` were marked at `now`, all others are as they were. */
  ghost predicate MarkedExactly(before: Agents, after: Agents, alerted: set<AgentId>, now: int) {
    && after.Keys == before.Keys
    && forall a :: a in before ==> after[a] == if a in alerted then Marked(before[a], now) else before[a]
  }

  lemma MarkOneMore(before: Agents, after: Agents, alerted: set<AgentId>, a: AgentId, now: int)
    requires MarkedExactly(before, after, alerted, now) && a in before && a !in alerted
    ensures MarkedExactly(before, after[a := Marked(after[a], now)], alerted + {a}, now)
  {
  }

  class Notifier {
    var agents: Agents

    /**
     One pass with nothing else touching the agents. `reachable` says whose message gets through and
     `markFails` whose update fails; such a failure ends the pass with that alert sent and unmarked.
     */
    method RunOnce(now: int, failing: seq<AgentId>, reachable: set<AgentId>, markFails: set<AgentId>)
      returns (reported: nat, alerted: set<AgentId>, unmarked: Option<AgentId>)
      requires Selected(agents, failing)
      modifies this
      ensures MarkedExactly(old(agents), agents, alerted, now) && reported == |alerted|
      ensures forall a :: a in alerted ==> a in failing && a in reachable
      ensures unmarked == None ==> forall a :: a in failing && a in reachable ==> a in alerted
      ensures unmarked.Some? ==>
        && unmarked.value in failing && unmarked.value in reachable
        && unmarked.value in markFails && unmarked.value !in alerted
      ensures markFails == {} ==> unmarked == None
      ensures unmarked == None && (forall a :: a in failing ==> a in reachable) ==>
        forall a :: a in agents ==> !Failing(agents[a])
      ensures forall a :: a in alerted ==> a in old(agents) && ToReport(old(agents)[a])
      ensures unmarked == None ==>
        forall a :: a in old(agents) && ToReport(old(agents)[a]) && a in reachable ==> a in alerted
      ensures agents.Keys == old(agents).Keys
      ensures forall a :: a in agents ==>
        && agents[a].failures == old(agents)[a].failures && agents[a].alertsEnabled == old(agents)[a].alertsEnabled
        && agents[a].notifiedAt == if a in alerted then Some(now) else old(agents)[a].notifiedAt
      ensures unmarked == None && (forall a :: a in failing ==> a in reachable) ==>
        forall a :: a in agents ==> !ToReport(agents[a])
    {
      reported, alerted, unmarked := 0, {}, None;
      for i := 0 to |failing|
        invariant MarkedExactly(old(agents), agents, alerted, now) && reported == |alerted|
        invariant forall a :: a in alerted <==> a in failing[..i] && a in reachable
      {
        var a := failing[i];
        assert a in failing && a !in failing[..i];
        if a !in reachable {
          continue;
        }
        if a in markFails {
          unmarked := Some(a);
          return;
        }
        MarkOneMore(old(agents), agents, alerted, a, now);
        agents := agents[a := Marked(agents[a], now)];
        alerted := alerted + {a};
        reported := reported + 1;
      }
      if forall a :: a in failing ==> a in reachable {
        DeliveredPassLeavesNobody(old(agents), failing, agents, alerted, now);
      }
    }
  }

  /** After a pass that delivered and marked everything, no agent is left over the threshold unmarked. */
  lemma DeliveredPassLeavesNobody(before: Agents, failing: seq<AgentId>, after: Agents, alerted: set<AgentId>, now: int)
    requires Selected(before, failing) && MarkedExactly(before, after, alerted, now)
    requires forall a :: a in failing ==> a in alerted
    ensures forall a :: a in after ==> !Failing(after[a])
  {
    forall a | a in after
      ensures !Failing(after[a])
    {
      assert a in failing <==> Failing(before[a]);
    }
  }
}
