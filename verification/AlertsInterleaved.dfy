/**
 The notifier's passes in any interleaving with outcomes and with each other: when a mark is out of step
 with the agent's history, and when an agent is reported twice (pkg/notifier/notifier.go).
 */
module AlertsInterleaved {
  import opened Common
  import opened Alerts

  // -- Since the last success --------------------------------------------------------------

  /** Whether a mark was set since the last success. */
  predicate MarkedSince(log: seq<Entry>) {
    |log| > 0 && (log[|log| - 1].AlertMarked? || (log[|log| - 1] != Success && MarkedSince(log[..|log| - 1])))
  }

  /** No success stands after place `i`. */
  ghost predicate NoSuccessAfter(log: seq<Entry>, i: int) {
    forall k :: i < k < |log| ==> 0 <= k && log[k] != Success
  }

  ghost predicate SentAt(log: seq<Entry>, i: int) {
    0 <= i < |log| && log[i].AlertSent? && NoSuccessAfter(log, i)
  }

  ghost predicate MarkedAt(log: seq<Entry>, i: int) {
    0 <= i < |log| && log[i].AlertMarked? && NoSuccessAfter(log, i)
  }

  lemma {:induction false} SentSince(log: seq<Entry>, i: int)
    requires SentAt(log, i)
    ensures AlertedSince(log)
  {
    var n := |log| - 1;
    if i < n {
      assert log[n] != Success;
      assert SentAt(log[..n], i);
      SentSince(log[..n], i);
    }
  }

  lemma {:induction false} WhenSent(log: seq<Entry>) returns (i: int)
    requires AlertedSince(log)
    ensures SentAt(log, i)
  {
    var n := |log| - 1;
    if log[n].AlertSent? {
      i := n;
    } else {
      i := WhenSent(log[..n]);
    }
  }

  lemma {:induction false} MarkIsSince(log: seq<Entry>, i: int)
    requires MarkedAt(log, i)
    ensures MarkedSince(log)
  {
    var n := |log| - 1;
    if i < n {
      assert log[n] != Success;
      assert MarkedAt(log[..n], i);
      MarkIsSince(log[..n], i);
    }
  }

  lemma {:induction false} WhenMarked(log: seq<Entry>) returns (i: int)
    requires MarkedSince(log)
    ensures MarkedAt(log, i)
  {
    var n := |log| - 1;
    if log[n].AlertMarked? {
      i := n;
    } else {
      i := WhenMarked(log[..n]);
    }
  }

  // -- Rows, logs and passes ---------------------------------------------------------------

  ghost predicate IsSent(log: seq<Entry>, p: PassId) {
    exists i :: 0 <= i < |log| && log[i] == AlertSent(p)
  }

  ghost predicate MarkedLater(log: seq<Entry>, p: PassId, i: int) {
    exists j :: i < j < |log| && 0 <= j && log[j] == AlertMarked(p)
  }

  predicate HasMarkedIt(passes: map<PassId, Pass>, p: PassId) {
    p in passes && passes[p].stage == HasMarked
  }

  /** The log of an agent fits the passes: a pass marks after it sends, and has marked if it says so. */
  ghost predicate Fits(a: AgentId, log: seq<Entry>, passes: map<PassId, Pass>) {
    && (forall i :: 0 <= i < |log| && log[i].AlertSent? ==>
          log[i].pass in passes && passes[log[i].pass].agent == a && WasSent(passes[log[i].pass].stage))
    && (forall i :: 0 <= i < |log| && log[i].AlertSent? && HasMarkedIt(passes, log[i].pass) ==>
          MarkedLater(log, log[i].pass, i))
    && (forall j :: 0 <= j < |log| && log[j].AlertMarked? ==> IsSent(log[..j], log[j].pass))
    && (forall p :: p in passes && passes[p].agent == a && WasSent(passes[p].stage) ==> IsSent(log, p))
  }

  ghost predicate RowFits(row: AgentRow, log: seq<Entry>) {
    row.failures == FailuresSince(log) && (row.notifiedAt.Some? <==> MarkedSince(log))
  }

  ghost predicate Coherent(s: State) {
    && s.agents.Keys == s.logs.Keys
    && (forall a :: a in s.agents ==> RowFits(s.agents[a], s.logs[a]))
    && (forall a :: a in s.logs ==> Fits(a, s.logs[a], s.passes))
  }

  lemma RowFitsSnoc(row: AgentRow, log: seq<Entry>, entry: Entry, row': AgentRow)
    requires RowFits(row, log)
    requires entry == Success ==> row'.failures == 0 && row'.notifiedAt == None
    requires entry == Failure ==> row'.failures == row.failures + 1 && row'.notifiedAt == row.notifiedAt
    requires entry.AlertSent? ==> row' == row
    requires entry.AlertMarked? ==> row'.failures == row.failures && row'.notifiedAt.Some?
    ensures RowFits(row', log + [entry])
  {
    LogSnoc(log, entry);
    assert (log + [entry])[..|log|] == log;
  }

  lemma SentStays(log: seq<Entry>, entry: Entry, p: PassId)
    ensures IsSent(log + [entry], p) <==> IsSent(log, p) || entry == AlertSent(p)
  {
    var more := log + [entry];
    if IsSent(log, p) {
      var i :| 0 <= i < |log| && log[i] == AlertSent(p);
      assert more[i] == AlertSent(p);
    }
    if entry == AlertSent(p) {
      assert more[|log|] == AlertSent(p);
    }
  }

  lemma MarkStays(log: seq<Entry>, entry: Entry, p: PassId, i: int)
    requires 0 <= i < |log|
    ensures MarkedLater(log, p, i) || entry == AlertMarked(p) ==> MarkedLater(log + [entry], p, i)
  {
    var more := log + [entry];
    if MarkedLater(log, p, i) {
      var j :| i < j < |log| && log[j] == AlertMarked(p);
      assert more[j] == AlertMarked(p);
    }
    if entry == AlertMarked(p) {
      assert more[|log|] == AlertMarked(p);
    }
  }

  /** An entry that is no alert, with the passes as they are. */
  lemma FitsOutcome(a: AgentId, log: seq<Entry>, entry: Entry, passes: map<PassId, Pass>)
    requires Fits(a, log, passes) && (entry == Success || entry == Failure)
    ensures Fits(a, log + [entry], passes)
  {
    var more := log + [entry];
    forall i | 0 <= i < |more| && more[i].AlertSent? && HasMarkedIt(passes, more[i].pass)
      ensures MarkedLater(more, more[i].pass, i)
    {
      MarkStays(log, entry, more[i].pass, i);
    }
    forall j | 0 <= j < |more| && more[j].AlertMarked?
      ensures IsSent(more[..j], more[j].pass)
    {
      assert more[..j] == log[..j];
    }
    forall p | p in passes && passes[p].agent == a && WasSent(passes[p].stage)
      ensures IsSent(more, p)
    {
      SentStays(log, entry, p);
    }
  }

  lemma FitsSend(a: AgentId, log: seq<Entry>, p: PassId, passes: map<PassId, Pass>)
    requires Fits(a, log, passes) && (p in passes ==> passes[p].stage == HasRead)
    ensures Fits(a, log + [AlertSent(p)], passes[p := Pass(a, HasSent)])
  {
    var more, passes' := log + [AlertSent(p)], passes[p := Pass(a, HasSent)];
    forall i | 0 <= i < |more| && more[i].AlertSent? && HasMarkedIt(passes', more[i].pass)
      ensures MarkedLater(more, more[i].pass, i)
    {
      MarkStays(log, AlertSent(p), more[i].pass, i);
    }
    forall j | 0 <= j < |more| && more[j].AlertMarked?
      ensures IsSent(more[..j], more[j].pass)
    {
      assert more[..j] == log[..j];
    }
    forall q | q in passes' && passes'[q].agent == a && WasSent(passes'[q].stage)
      ensures IsSent(more, q)
    {
      SentStays(log, AlertSent(p), q);
    }
  }

  lemma FitsMark(a: AgentId, log: seq<Entry>, p: PassId, passes: map<PassId, Pass>)
    requires Fits(a, log, passes) && p in passes && passes[p] == Pass(a, HasSent)
    ensures Fits(a, log + [AlertMarked(p)], passes[p := Pass(a, HasMarked)])
  {
    var more, passes' := log + [AlertMarked(p)], passes[p := Pass(a, HasMarked)];
    forall i | 0 <= i < |more| && more[i].AlertSent? && HasMarkedIt(passes', more[i].pass)
      ensures MarkedLater(more, more[i].pass, i)
    {
      MarkStays(log, AlertMarked(p), more[i].pass, i);
    }
    forall j | 0 <= j < |more| && more[j].AlertMarked?
      ensures IsSent(more[..j], more[j].pass)
    {
      assert more[..j] == log[..j];
      assert log[..|log|] == log;
    }
    forall q | q in passes' && passes'[q].agent == a && WasSent(passes'[q].stage)
      ensures IsSent(more, q)
    {
      SentStays(log, AlertMarked(p), q);
    }
  }

  /** A pass of one agent does not concern the log of another. */
  lemma FitsOther(a: AgentId, log: seq<Entry>, passes: map<PassId, Pass>, p: PassId, pass: Pass)
    requires Fits(a, log, passes) && (pass.agent != a || pass.stage == HasRead)
    requires p in passes ==> passes[p].agent == pass.agent && passes[p].agent != a
    ensures Fits(a, log, passes[p := pass])
  {
  }

  lemma FitsGiveUp(a: AgentId, log: seq<Entry>, p: PassId, passes: map<PassId, Pass>)
    requires Fits(a, log, passes) && p in passes && (passes[p].stage == HasRead || passes[p].stage == HasSent)
    ensures Fits(a, log, passes[p := Pass(passes[p].agent, GaveUp(passes[p].stage == HasSent))])
  {
  }

  lemma RowsStep(s: State, step: Step, s': State)
    requires s.agents.Keys == s.logs.Keys && Next(s, step, s')
    requires forall a :: a in s.agents ==> RowFits(s.agents[a], s.logs[a])
    ensures s'.agents.Keys == s'.logs.Keys && forall a :: a in s'.agents ==> RowFits(s'.agents[a], s'.logs[a])
  {
    forall a | a in s'.agents
      ensures RowFits(s'.agents[a], s'.logs[a])
    {
      RowStep(s, step, s', a);
    }
  }

  lemma RowStep(s: State, step: Step, s': State, a: AgentId)
    requires Next(s, step, s') && a in s.agents && s.agents.Keys == s.logs.Keys && RowFits(s.agents[a], s.logs[a])
    ensures a in s'.agents && a in s'.logs && RowFits(s'.agents[a], s'.logs[a])
  {
    var row, log := s.agents[a], s.logs[a];
    match step
    case Outcome(b, succeeded) =>
      if a == b { RowFitsSnoc(row, log, if succeeded then Success else Failure, s'.agents[a]); }
    case ReapPass(reaped) =>
      if a in reaped { RowFitsSnoc(row, log, Failure, s'.agents[a]); }
    case SetAlerts(_, _) =>
    case Report(p, b, now, delivered) =>
      if a == b && Failing(row) && delivered {
        RowFitsSnoc(row, log, AlertSent(p), row);
        RowFitsSnoc(row, log + [AlertSent(p)], AlertMarked(p), s'.agents[a]);
      }
    case Read(_, _) =>
    case Send(p) =>
      if a == s.passes[p].agent { RowFitsSnoc(row, log, AlertSent(p), row); }
    case Mark(p, now) =>
      if a == s.passes[p].agent { RowFitsSnoc(row, log, AlertMarked(p), s'.agents[a]); }
    case GiveUp(_) =>
  }

  lemma FitsStep(s: State, step: Step, s': State, a: AgentId)
    requires Next(s, step, s') && a in s.logs && Fits(a, s.logs[a], s.passes)
    ensures a in s'.logs && Fits(a, s'.logs[a], s'.passes)
  {
    var log := s.logs[a];
    match step
    case Outcome(b, succeeded) =>
      if a == b { FitsOutcome(a, log, if succeeded then Success else Failure, s.passes); }
    case ReapPass(reaped) =>
      if a in reaped { FitsOutcome(a, log, Failure, s.passes); }
    case SetAlerts(_, _) =>
    case Report(p, b, now, delivered) =>
      if Failing(s.agents[b]) && delivered {
        if a == b {
          FitsSend(a, log, p, s.passes);
          FitsMark(a, log + [AlertSent(p)], p, s.passes[p := Pass(a, HasSent)]);
          assert s'.passes == s.passes[p := Pass(a, HasSent)][p := Pass(a, HasMarked)];
        } else {
          FitsOther(a, log, s.passes, p, Pass(b, HasMarked));
        }
      }
    case Read(p, b) => FitsOther(a, log, s.passes, p, Pass(b, HasRead));
    case Send(p) =>
      if a == s.passes[p].agent {
        FitsSend(a, log, p, s.passes);
      } else {
        FitsOther(a, log, s.passes, p, s'.passes[p]);
      }
    case Mark(p, now) =>
      if a == s.passes[p].agent {
        FitsMark(a, log, p, s.passes);
      } else {
        FitsOther(a, log, s.passes, p, s'.passes[p]);
      }
    case GiveUp(p) => FitsGiveUp(a, log, p, s.passes);
  }

  lemma StepIsCoherent(s: State, step: Step, s': State)
    requires Coherent(s) && Next(s, step, s')
    ensures Coherent(s')
  {
    RowsStep(s, step, s');
    forall a | a in s'.logs
      ensures Fits(a, s'.logs[a], s'.passes)
    {
      FitsStep(s, step, s', a);
    }
  }

  lemma {:induction false} AlwaysCoherent(ss: seq<State>, steps: seq<Step>, i: nat)
    requires Behaviour(ss, steps) && i < |ss|
    ensures Coherent(ss[i])
  {
    if i > 0 {
      AlwaysCoherent(ss, steps, i - 1);
      assert StepAt(ss, steps, i - 1);
      StepIsCoherent(ss[i - 1], steps[i - 1], ss[i]);
    }
  }

  // -- When a mark is out of step ----------------------------------------------------------

  /** A pass sent its alert at `i`, the last success is at `k`, the pass's own mark at `j`, and no alert is newer. */
  ghost predicate LateMark(log: seq<Entry>, p: PassId, i: int, k: int, j: int) {
    && 0 <= i < k < j < |log| && log[i] == AlertSent(p) && log[k] == Success && log[j] == AlertMarked(p)
    && NoSuccessAfter(log, k) && forall n :: k < n < |log| ==> !log[n].AlertSent?
  }

  ghost predicate HasLateMark(log: seq<Entry>) {
    exists p, i, k, j :: LateMark(log, p, i, k, j)
  }

  lemma LateMarkIsStale(log: seq<Entry>, p: PassId, i: int, k: int, j: int)
    requires LateMark(log, p, i, k, j)
    ensures MarkedSince(log) && !AlertedSince(log)
  {
    MarkIsSince(log, j);
    if AlertedSince(log) {
      var n := WhenSent(log);
    }
  }

  lemma {:induction false} LastSuccess(log: seq<Entry>, i: int) returns (k: int)
    requires 0 <= i < |log| && !NoSuccessAfter(log, i)
    ensures i < k < |log| && log[k] == Success && NoSuccessAfter(log, k)
  {
    var n := |log| - 1;
    if log[n] == Success {
      k := n;
    } else {
      var m :| i < m < |log| && log[m] == Success;
      assert log[..n][m] == Success;
      k := LastSuccess(log[..n], i);
    }
  }

  lemma StaleMarkIsLate(a: AgentId, log: seq<Entry>, passes: map<PassId, Pass>)
    requires Fits(a, log, passes) && MarkedSince(log) && !AlertedSince(log)
    ensures HasLateMark(log)
  {
    var j := WhenMarked(log);
    var p := log[j].pass;
    assert IsSent(log[..j], p);
    var i :| 0 <= i < j && log[..j][i] == AlertSent(p);
    if NoSuccessAfter(log, i) {
      SentSince(log, i);
    }
    var k := LastSuccess(log, i);
    forall n | k < n < |log|
      ensures !log[n].AlertSent?
    {
      if log[n].AlertSent? {
        SentSince(log, n);
      }
    }
    assert LateMark(log, p, i, k, j);
  }

  /** An alert went out since the last success, and no mark has landed since. */
  ghost predicate HasUnmarkedAlert(log: seq<Entry>) {
    (exists i :: SentAt(log, i)) && forall j :: !MarkedAt(log, j)
  }

  lemma UnmarkedAlertIff(log: seq<Entry>)
    ensures HasUnmarkedAlert(log) <==> AlertedSince(log) && !MarkedSince(log)
  {
    if AlertedSince(log) {
      var i := WhenSent(log);
    }
    if i :| SentAt(log, i) {
      SentSince(log, i);
    }
    if MarkedSince(log) {
      var j := WhenMarked(log);
    }
    if j :| MarkedAt(log, j) {
      MarkIsSince(log, j);
    }
  }

  /**
   In any interleaving an agent's row is in step with its history if and only if no success came between
   an alert and that alert's own mark with no newer alert after it, and no alert since the last success
   is without any mark.
   */
  lemma TracksIff(ss: seq<State>, steps: seq<Step>, i: nat, a: AgentId)
    requires Behaviour(ss, steps) && i < |ss| && a in ss[i].agents
    ensures a in ss[i].logs
    ensures var log := ss[i].logs[a];
            Tracks(ss[i].agents[a], log) <==> !HasLateMark(log) && !HasUnmarkedAlert(log)
  {
    AlwaysCoherent(ss, steps, i);
    var log := ss[i].logs[a];
    assert RowFits(ss[i].agents[a], log) && Fits(a, log, ss[i].passes);
    UnmarkedAlertIff(log);
    if HasLateMark(log) {
      var p, x, k, j :| LateMark(log, p, x, k, j);
      LateMarkIsStale(log, p, x, k, j);
    } else if MarkedSince(log) && !AlertedSince(log) {
      StaleMarkIsLate(a, log, ss[i].passes);
    }
  }

  /** Every pass that sent an alert about the agent has marked it. */
  ghost predicate Settled(s: State, a: AgentId) {
    forall p :: p in s.passes && s.passes[p].agent == a && WasSent(s.passes[p].stage) ==> s.passes[p].stage == HasMarked
  }

  /** An unmarked alert is one whose pass is still to mark it or gave up on that. */
  lemma UnmarkedAlertIsUnsettled(ss: seq<State>, steps: seq<Step>, i: nat, a: AgentId)
    requires Behaviour(ss, steps) && i < |ss| && a in ss[i].logs && HasUnmarkedAlert(ss[i].logs[a])
    ensures !Settled(ss[i], a)
  {
    AlwaysCoherent(ss, steps, i);
    var s, log := ss[i], ss[i].logs[a];
    assert Fits(a, log, s.passes);
    var x :| SentAt(log, x);
    var p := log[x].pass;
    if s.passes[p].stage == HasMarked {
      assert MarkedLater(log, p, x);
      var j :| x < j < |log| && log[j] == AlertMarked(p);
      assert MarkedAt(log, j);
    }
  }

  // -- When an agent is reported again -----------------------------------------------------

  /** The steps lead from `s` to `s'` without a success of the agent. */
  ghost predicate Reaches(s: State, steps: seq<Step>, s': State, a: AgentId)
    decreases steps
  {
    if steps == [] then s == s'
    else steps[0] != Outcome(a, true) && Enabled(s, steps[0]) && Reaches(Apply(s, steps[0]), steps[1..], s', a)
  }

  /** The agent's log has grown by an alert. */
  ghost predicate AlertsMore(log: seq<Entry>, log': seq<Entry>) {
    exists n :: |log| <= n < |log'| && log'[n].AlertSent?
  }

  /** The steps send an alert about the agent before it succeeds again. */
  ghost predicate SendsAlert(s: State, steps: seq<Step>, s': State, a: AgentId) {
    a in s.logs && a in s'.logs && Reaches(s, steps, s', a) && AlertsMore(s.logs[a], s'.logs[a])
  }

  /** A pass has read the agent and not sent its alert yet, or the row carries no mark. */
  ghost predicate Open(s: State, a: AgentId)
    requires a in s.agents
  {
    s.agents[a].notifiedAt == None || exists p :: p in s.passes && s.passes[p] == Pass(a, HasRead)
  }

  lemma ClosedStep(s: State, step: Step, a: AgentId)
    requires Enabled(s, step) && step != Outcome(a, true) && a in s.agents && a in s.logs && !Open(s, a)
    ensures var s' := Apply(s, step);
            && a in s'.agents && a in s'.logs && !Open(s', a)
            && s.logs[a] <= s'.logs[a] && forall n :: |s.logs[a]| <= n < |s'.logs[a]| ==> !s'.logs[a][n].AlertSent?
  {
    if step.Send? {
      assert s.passes[step.pass] == Pass(s.passes[step.pass].agent, HasRead);
    }
  }

  lemma {:induction false} ClosedStaysSilent(s: State, steps: seq<Step>, s': State, a: AgentId)
    requires Reaches(s, steps, s', a) && a in s.agents && a in s.logs && !Open(s, a)
    ensures a in s'.logs && s.logs[a] <= s'.logs[a] && !AlertsMore(s.logs[a], s'.logs[a])
    decreases steps
  {
    if steps != [] {
      var t := Apply(s, steps[0]);
      ClosedStep(s, steps[0], a);
      ClosedStaysSilent(t, steps[1..], s', a);
      forall n | |s.logs[a]| <= n < |s'.logs[a]|
        ensures !s'.logs[a][n].AlertSent?
      {
        if n < |t.logs[a]| {
          assert s'.logs[a][n] == t.logs[a][n];
        }
      }
    }
  }

  lemma ReachesCons(s: State, step: Step, steps: seq<Step>, s': State, a: AgentId)
    requires step != Outcome(a, true) && Enabled(s, step) && Reaches(Apply(s, step), steps, s', a)
    ensures Reaches(s, [step] + steps, s', a)
  {
    assert ([step] + steps)[1..] == steps;
  }

  lemma {:induction false} FreshPass(ids: set<PassId>) returns (p: PassId)
    ensures forall q :: q in ids ==> q < p
  {
    p := 0;
    if ids != {} {
      var q :| q in ids;
      var rest := FreshPass(ids - {q});
      p := if q < rest then rest else q + 1;
      assert forall x :: x in ids ==> x == q || x in ids - {q};
    }
  }

  lemma ReaderAlerts(s: State, a: AgentId, p: PassId) returns (steps: seq<Step>, s': State)
    requires a in s.logs && p in s.passes && s.passes[p] == Pass(a, HasRead)
    ensures SendsAlert(s, steps, s', a)
  {
    s' := Apply(s, Send(p));
    assert Reaches(s', [], s', a);
    ReachesCons(s, Send(p), [], s', a);
    steps := [Send(p)] + [];
    assert s'.logs[a][|s.logs[a]|].AlertSent?;
  }

  lemma FailingAlerts(s: State, a: AgentId) returns (steps: seq<Step>, s': State)
    requires a in s.agents && a in s.logs && Failing(s.agents[a])
    ensures Reaches(s, steps, s', a) && a in s'.logs && |s'.logs[a]| > |s.logs[a]|
    ensures s'.logs[a][|s.logs[a]|].AlertSent?
  {
    var p := FreshPass(s.passes.Keys);
    var step := Report(p, a, 0, true);
    s' := Apply(s, step);
    assert Reaches(s', [], s', a);
    ReachesCons(s, step, [], s', a);
    steps := [step] + [];
  }

  /** An unmarked agent can be made to fail until it is reported. */
  lemma {:induction false} UnmarkedAlerts(s: State, a: AgentId, missing: nat) returns (steps: seq<Step>, s': State)
    requires a in s.agents && a in s.logs && s.agents[a].notifiedAt == None
    requires s.agents[a].alertsEnabled && s.agents[a].failures + missing >= FAILURE_THRESHOLD
    ensures SendsAlert(s, steps, s', a)
    decreases missing
  {
    if missing == 0 {
      steps, s' := FailingAlerts(s, a);
    } else {
      var step := Outcome(a, false);
      var t := Apply(s, step);
      steps, s' := UnmarkedAlerts(t, a, missing - 1);
      ReachesCons(s, step, steps, s', a);
      steps := [step] + steps;
      var n :| |t.logs[a]| <= n < |s'.logs[a]| && s'.logs[a][n].AlertSent?;
      assert |s.logs[a]| <= n;
    }
  }

  lemma UnmarkedCanAlert(s: State, a: AgentId) returns (steps: seq<Step>, s': State)
    requires a in s.agents && a in s.logs && s.agents[a].notifiedAt == None
    ensures SendsAlert(s, steps, s', a)
  {
    var step := SetAlerts(a, true);
    steps, s' := UnmarkedAlerts(Apply(s, step), a, FAILURE_THRESHOLD);
    ReachesCons(s, step, steps, s', a);
    steps := [step] + steps;
  }

  /**
   An alert about an agent can go out before it succeeds again if and only if some pass has read it
   without sending yet, or its row carries no mark. For an agent already reported that is a second report.
   */
  lemma RepeatAlertIff(ss: seq<State>, steps: seq<Step>, i: nat, a: AgentId)
    requires Behaviour(ss, steps) && i < |ss| && a in ss[i].agents
    ensures (exists more, s' :: SendsAlert(ss[i], more, s', a)) <==> Open(ss[i], a)
  {
    AlwaysCoherent(ss, steps, i);
    if Open(ss[i], a) {
      if ss[i].agents[a].notifiedAt == None {
        var more, s' := UnmarkedCanAlert(ss[i], a);
      } else {
        var p :| p in ss[i].passes && ss[i].passes[p] == Pass(a, HasRead);
        var more, s' := ReaderAlerts(ss[i], a, p);
      }
    } else {
      forall more, s' | Reaches(ss[i], more, s', a)
        ensures !SendsAlert(ss[i], more, s', a)
      {
        ClosedStaysSilent(ss[i], more, s', a);
      }
    }
  }

  lemma {:induction false} NoSuccessAdded(s: State, steps: seq<Step>, s': State, a: AgentId)
    requires Reaches(s, steps, s', a) && a in s.logs
    ensures a in s'.logs && s.logs[a] <= s'.logs[a]
    ensures forall n :: |s.logs[a]| <= n < |s'.logs[a]| ==> s'.logs[a][n] != Success
    decreases steps
  {
    if steps != [] {
      var t := Apply(s, steps[0]);
      assert s.logs[a] <= t.logs[a] && forall n :: |s.logs[a]| <= n < |t.logs[a]| ==> t.logs[a][n] != Success;
      NoSuccessAdded(t, steps[1..], s', a);
      forall n | |s.logs[a]| <= n < |s'.logs[a]|
        ensures s'.logs[a][n] != Success
      {
        if n < |t.logs[a]| {
          assert s'.logs[a][n] == t.logs[a][n];
        }
      }
    }
  }

  /** Two alerts with no success between them. */
  ghost predicate Unseparated(log: seq<Entry>) {
    exists i, j :: 0 <= i < j < |log| && log[i].AlertSent? && log[j].AlertSent?
      && forall k :: i < k < j ==> log[k] != Success
  }

  /** An alert sent on top of one since the last success is not separated from it. */
  lemma RepeatIsUnseparated(s: State, steps: seq<Step>, s': State, a: AgentId)
    requires SendsAlert(s, steps, s', a) && AlertedSince(s.logs[a])
    ensures Unseparated(s'.logs[a])
  {
    NoSuccessAdded(s, steps, s', a);
    var log, log' := s.logs[a], s'.logs[a];
    var i := WhenSent(log);
    var j :| |log| <= j < |log'| && log'[j].AlertSent?;
    assert log'[i] == log[i];
    forall k | i < k < j
      ensures log'[k] != Success
    {
      if k < |log| {
        assert log'[k] == log[k];
      }
    }
  }

  // -- Runs --------------------------------------------------------------------------------

  function OneAgent(a: AgentId, row: AgentRow, log: seq<Entry>, passes: map<PassId, Pass>): State {
    State(map[a := row], map[a := log], passes)
  }

  lemma Extend(ss: seq<State>, steps: seq<Step>, step: Step, s: State)
    requires Behaviour(ss, steps) && Next(ss[|steps|], step, s)
    ensures Behaviour(ss + [s], steps + [step])
  {
    var ss', steps' := ss + [s], steps + [step];
    forall i: nat | i < |steps'|
      ensures StepAt(ss', steps', i)
    {
      if i < |steps| {
        assert StepAt(ss, steps, i);
      }
    }
  }

  lemma Fails(ss: seq<State>, steps: seq<Step>, a: AgentId, row: AgentRow, log: seq<Entry>, passes: map<PassId, Pass>)
    returns (ss': seq<State>, steps': seq<Step>)
    requires Behaviour(ss, steps) && ss[|steps|] == OneAgent(a, row, log, passes)
    ensures Behaviour(ss', steps')
    ensures ss'[|steps'|] == OneAgent(a, row.(failures := row.failures + 1), log + [Failure], passes)
  {
    var s := OneAgent(a, row.(failures := row.failures + 1), log + [Failure], passes);
    assert Next(ss[|steps|], Outcome(a, false), s);
    Extend(ss, steps, Outcome(a, false), s);
    ss', steps' := ss + [s], steps + [Outcome(a, false)];
  }

  /** Three failures in a row. */
  lemma ThreeFailures(
      ss: seq<State>, steps: seq<Step>, a: AgentId, row: AgentRow, log: seq<Entry>, passes: map<PassId, Pass>)
    returns (ss': seq<State>, steps': seq<Step>)
    requires Behaviour(ss, steps) && ss[|steps|] == OneAgent(a, row, log, passes)
    ensures Behaviour(ss', steps')
    ensures ss'[|steps'|]
      == OneAgent(a, row.(failures := row.failures + 3), log + [Failure] + [Failure] + [Failure], passes)
  {
    ss', steps' := Fails(ss, steps, a, row, log, passes);
    ss', steps' := Fails(ss', steps', a, row.(failures := row.failures + 1), log + [Failure], passes);
    ss', steps' := Fails(ss', steps', a, row.(failures := row.failures + 2), log + [Failure] + [Failure], passes);
  }

  const BROKEN := AgentRow(3, None, true)
  const STREAK: seq<Entry> := [Failure, Failure, Failure]

  /** An agent has failed three times and nothing has been reported. */
  lemma BrokenAgent(a: AgentId) returns (ss: seq<State>, steps: seq<Step>)
    ensures Behaviour(ss, steps) && ss[|steps|] == OneAgent(a, BROKEN, STREAK, map[])
  {
    var row := AgentRow(0, None, true);
    ss, steps := [OneAgent(a, row, [], map[])], [];
    ss, steps := ThreeFailures(ss, steps, a, row, [], map[]);
    assert [] + [Failure] + [Failure] + [Failure] == STREAK;
  }

  /** Two passes read the agent before either reports it. */
  lemma BothRead(a: AgentId) returns (ss: seq<State>, steps: seq<Step>)
    ensures Behaviour(ss, steps)
    ensures ss[|steps|] == OneAgent(a, BROKEN, STREAK, map[0 := Pass(a, HasRead), 1 := Pass(a, HasRead)])
  {
    ss, steps := BrokenAgent(a);
    var s1 := OneAgent(a, BROKEN, STREAK, map[0 := Pass(a, HasRead)]);
    var s2 := OneAgent(a, BROKEN, STREAK, map[0 := Pass(a, HasRead), 1 := Pass(a, HasRead)]);
    assert Next(ss[|steps|], Read(0, a), s1);
    Extend(ss, steps, Read(0, a), s1);
    ss, steps := ss + [s1], steps + [Read(0, a)];
    assert Next(s1, Read(1, a), s2);
    Extend(ss, steps, Read(1, a), s2);
    ss, steps := ss + [s2], steps + [Read(1, a)];
  }

  /** Then it is reported twice without a success in between. */
  lemma OverlappingPassesRepeat(a: AgentId) returns (ss: seq<State>, steps: seq<Step>)
    ensures Behaviour(ss, steps)
    ensures a in ss[|steps|].logs && ss[|steps|].logs[a] == STREAK + [AlertSent(0)] + [AlertSent(1)]
  {
    ss, steps := BothRead(a);
    var s3 := OneAgent(a, BROKEN, STREAK + [AlertSent(0)], map[0 := Pass(a, HasSent), 1 := Pass(a, HasRead)]);
    var s4 := OneAgent(a, BROKEN, STREAK + [AlertSent(0)] + [AlertSent(1)],
                       map[0 := Pass(a, HasSent), 1 := Pass(a, HasSent)]);
    assert Next(ss[|steps|], Send(0), s3);
    Extend(ss, steps, Send(0), s3);
    ss, steps := ss + [s3], steps + [Send(0)];
    assert Next(s3, Send(1), s4);
    Extend(ss, steps, Send(1), s4);
    ss, steps := ss + [s4], steps + [Send(1)];
  }

  /** An alert is sent and its mark has not landed. */
  lemma SentAlert(a: AgentId) returns (ss: seq<State>, steps: seq<Step>)
    ensures Behaviour(ss, steps)
    ensures ss[|steps|] == OneAgent(a, BROKEN, STREAK + [AlertSent(0)], map[0 := Pass(a, HasSent)])
  {
    ss, steps := BrokenAgent(a);
    var s1 := OneAgent(a, BROKEN, STREAK, map[0 := Pass(a, HasRead)]);
    var s2 := OneAgent(a, BROKEN, STREAK + [AlertSent(0)], map[0 := Pass(a, HasSent)]);
    assert Next(ss[|steps|], Read(0, a), s1);
    Extend(ss, steps, Read(0, a), s1);
    ss, steps := ss + [s1], steps + [Read(0, a)];
    assert Next(s1, Send(0), s2);
    Extend(ss, steps, Send(0), s2);
    ss, steps := ss + [s2], steps + [Send(0)];
  }

  /** A pass whose mark fails: the next pass, uninterrupted, reports the agent again. */
  lemma FailedMarkRepeats(a: AgentId) returns (ss: seq<State>, steps: seq<Step>)
    ensures Behaviour(ss, steps) && GiveUp(0) in steps
    ensures a in ss[|steps|].logs && ss[|steps|].logs[a] == STREAK + [AlertSent(0)] + [AlertSent(1)] + [AlertMarked(1)]
  {
    ss, steps := SentAlert(a);
    var s1 := OneAgent(a, BROKEN, STREAK + [AlertSent(0)], map[0 := Pass(a, GaveUp(true))]);
    assert Next(ss[|steps|], GiveUp(0), s1);
    Extend(ss, steps, GiveUp(0), s1);
    ss, steps := ss + [s1], steps + [GiveUp(0)];
    assert steps[|steps| - 1] == GiveUp(0);
    var step := Report(1, a, 9, true);
    var s := OneAgent(a, Marked(BROKEN, 9), STREAK + [AlertSent(0)] + [AlertSent(1)] + [AlertMarked(1)],
                      map[0 := Pass(a, GaveUp(true)), 1 := Pass(a, HasMarked)]);
    assert Next(ss[|steps|], step, s);
    Extend(ss, steps, step, s);
    ss, steps := ss + [s], steps + [step];
  }

  /** A pass reads the agent, and its send fails. */
  lemma FailedSend(a: AgentId) returns (ss: seq<State>, steps: seq<Step>)
    ensures Behaviour(ss, steps) && GiveUp(0) in steps
    ensures ss[|steps|] == OneAgent(a, BROKEN, STREAK, map[0 := Pass(a, GaveUp(false))])
  {
    ss, steps := BrokenAgent(a);
    var s1 := OneAgent(a, BROKEN, STREAK, map[0 := Pass(a, HasRead)]);
    var s2 := OneAgent(a, BROKEN, STREAK, map[0 := Pass(a, GaveUp(false))]);
    assert Next(ss[|steps|], Read(0, a), s1);
    Extend(ss, steps, Read(0, a), s1);
    ss, steps := ss + [s1], steps + [Read(0, a)];
    assert Next(s1, GiveUp(0), s2);
    Extend(ss, steps, GiveUp(0), s2);
    ss, steps := ss + [s2], steps + [GiveUp(0)];
    assert steps[|steps| - 1] == GiveUp(0);
  }

  /** It leaves nothing behind: once another pass has reported and marked the agent, no alert follows. */
  lemma FailedSendIsHarmless(a: AgentId) returns (ss: seq<State>, steps: seq<Step>)
    ensures Behaviour(ss, steps) && GiveUp(0) in steps
    ensures var s := ss[|steps|];
            a in s.agents && a in s.logs && AlertedSince(s.logs[a]) && !Open(s, a)
  {
    ss, steps := FailedSend(a);
    var s := OneAgent(a, Marked(BROKEN, 9), STREAK + [AlertSent(1)] + [AlertMarked(1)],
                      map[0 := Pass(a, GaveUp(false)), 1 := Pass(a, HasMarked)]);
    assert Next(ss[|steps|], Report(1, a, 9, true), s);
    Extend(ss, steps, Report(1, a, 9, true), s);
    ss, steps := ss + [s], steps + [Report(1, a, 9, true)];
    LogSnoc(STREAK, AlertSent(1));
    LogSnoc(STREAK + [AlertSent(1)], AlertMarked(1));
  }

  /** The agent succeeds after the alert was sent, and then the mark lands. */
  lemma MarkAfterSuccess(a: AgentId) returns (ss: seq<State>, steps: seq<Step>)
    ensures Behaviour(ss, steps)
    ensures ss[|steps|]
      == OneAgent(a, AgentRow(0, Some(9), true), STREAK + [AlertSent(0)] + [Success] + [AlertMarked(0)],
                  map[0 := Pass(a, HasMarked)])
  {
    ss, steps := SentAlert(a);
    var log := STREAK + [AlertSent(0)];
    var s1 := OneAgent(a, AgentRow(0, None, true), log + [Success], map[0 := Pass(a, HasSent)]);
    var s2 := OneAgent(a, AgentRow(0, Some(9), true), log + [Success] + [AlertMarked(0)], map[0 := Pass(a, HasMarked)]);
    assert Next(ss[|steps|], Outcome(a, true), s1);
    Extend(ss, steps, Outcome(a, true), s1);
    ss, steps := ss + [s1], steps + [Outcome(a, true)];
    assert Next(s1, Mark(0, 9), s2);
    Extend(ss, steps, Mark(0, 9), s2);
    ss, steps := ss + [s2], steps + [Mark(0, 9)];
  }

  /** Interrupted by a success, the mark of an old alert silences the next streak of failures. */
  lemma LateMarkSilencesNextStreak(a: AgentId) returns (ss: seq<State>, steps: seq<Step>)
    ensures Behaviour(ss, steps)
    ensures var s := ss[|steps|];
            && a in s.agents && a in s.logs && s.agents[a].alertsEnabled && Settled(s, a)
            && FailuresSince(s.logs[a]) == FAILURE_THRESHOLD && !AlertedSince(s.logs[a]) && !Failing(s.agents[a])
  {
    ss, steps := MarkAfterSuccess(a);
    var log := STREAK + [AlertSent(0)] + [Success] + [AlertMarked(0)];
    ss, steps := ThreeFailures(ss, steps, a, AgentRow(0, Some(9), true), log, map[0 := Pass(a, HasMarked)]);
    LogSnoc(STREAK + [AlertSent(0)], Success);
    LogSnoc(STREAK + [AlertSent(0)] + [Success], AlertMarked(0));
    LogSnoc(log, Failure);
    LogSnoc(log + [Failure], Failure);
    LogSnoc(log + [Failure] + [Failure], Failure);
  }
}
