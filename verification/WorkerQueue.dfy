/**
 The queue of one worker and its shutdown (pkg/worker/worker.go): submissions, the goroutines that take
 runs from the queue, and Stop, as steps that interleave freely. A submission is one SubmitRun call, so
 the same run submitted twice is two submissions.
 */
module WorkerQueue {
  const WORKER_POOL_SIZE: nat := 5
  const RUN_QUEUE_SIZE: nat := 5

  type Submission = nat

  /** `draining` tells the inner loop, entered once the context is done, from the outer one. */
  datatype Goroutine = Waiting(draining: bool) | Executing(work: Submission, draining: bool) | Exited

  /**
   `inFlight` are the submissions past their draining check and not yet at the queue. `issued`,
   `accepted`, `started` and `finished` are the record of what happened, in order.
   */
  datatype State = State(
    draining: bool, cancelled: bool, inFlight: set<Submission>, queue: seq<Submission>, goroutines: seq<Goroutine>,
    issued: set<Submission>, accepted: seq<Submission>, started: seq<Submission>, finished: seq<Submission>)

  const POOL: seq<Goroutine> := [Waiting(false), Waiting(false), Waiting(false), Waiting(false), Waiting(false)]

  const INITIAL := State(false, false, {}, [], POOL, {}, [], [], [])

  datatype Step =
    | Check(submission: Submission)
    | Send(submission: Submission)
    | SetDraining
    | Cancel
    | Receive(goroutine: nat)
    | Finish(goroutine: nat)
    | SeeDone(goroutine: nat)
    | Return(goroutine: nat)

  predicate Enabled(s: State, step: Step) {
    match step
    case Check(t) => t !in s.issued
    case Send(t) => t in s.inFlight
    case SetDraining => !s.draining
    case Cancel => s.draining
    case Receive(g) => g < |s.goroutines| && s.goroutines[g].Waiting? && s.queue != []
    case Finish(g) => g < |s.goroutines| && s.goroutines[g].Executing?
    case SeeDone(g) => g < |s.goroutines| && s.goroutines[g] == Waiting(false) && s.cancelled
    case Return(g) => g < |s.goroutines| && s.goroutines[g] == Waiting(true) && s.queue == []
  }

  function Apply(s: State, step: Step): State
    requires Enabled(s, step)
  {
    match step
    case Check(t) => s.(issued := s.issued + {t}, inFlight := if s.draining then s.inFlight else s.inFlight + {t})
    case Send(t) =>
      var rest := s.(inFlight := s.inFlight - {t});
      if |s.queue| < RUN_QUEUE_SIZE then rest.(queue := s.queue + [t], accepted := s.accepted + [t]) else rest
    case SetDraining => s.(draining := true)
    case Cancel => s.(cancelled := true)
    case Receive(g) =>
      s.(queue := s.queue[1..], started := s.started + [s.queue[0]],
         goroutines := s.goroutines[g := Executing(s.queue[0], s.goroutines[g].draining)])
    case Finish(g) =>
      s.(finished := s.finished + [s.goroutines[g].work],
         goroutines := s.goroutines[g := Waiting(s.goroutines[g].draining)])
    case SeeDone(g) => s.(goroutines := s.goroutines[g := Waiting(true)])
    case Return(g) => s.(goroutines := s.goroutines[g := Exited])
  }

  predicate Next(s: State, step: Step, s': State) {
    Enabled(s, step) && s' == Apply(s, step)
  }

  // -- Conservation ----------------------------------------------------------------------

  /** What the goroutines are executing. */
  function Held(gs: seq<Goroutine>): multiset<Submission> {
    if gs == [] then multiset{}
    else HeldBy(gs[0]) + Held(gs[1..])
  }

  function HeldBy(g: Goroutine): multiset<Submission> {
    if g.Executing? then multiset{g.work} else multiset{}
  }

  lemma {:induction false} HeldUpdate(gs: seq<Goroutine>, g: nat, next: Goroutine, t: Submission)
    requires g < |gs|
    ensures Held(gs[g := next])[t] + HeldBy(gs[g])[t] == Held(gs)[t] + HeldBy(next)[t]
  {
    if g > 0 {
      HeldUpdate(gs[1..], g - 1, next, t);
      assert gs[g := next][1..] == gs[1..][g - 1 := next];
    } else {
      assert gs[g := next][1..] == gs[1..];
    }
  }

  lemma HeldChange(gs: seq<Goroutine>, g: nat, next: Goroutine, rest: multiset<Submission>)
    requires g < |gs| && Held(gs) == HeldBy(gs[g]) + rest
    ensures Held(gs[g := next]) == HeldBy(next) + rest
  {
    forall t ensures Held(gs[g := next])[t] == (HeldBy(next) + rest)[t] {
      HeldUpdate(gs, g, next, t);
    }
  }

  lemma {:induction false} HeldSplit(gs: seq<Goroutine>, g: nat) returns (rest: multiset<Submission>)
    requires g < |gs|
    ensures Held(gs) == HeldBy(gs[g]) + rest
  {
    if g == 0 {
      rest := Held(gs[1..]);
    } else {
      rest := HeldSplit(gs[1..], g - 1);
      rest := HeldBy(gs[0]) + rest;
    }
  }

  lemma {:induction false} HeldCount(gs: seq<Goroutine>)
    ensures |Held(gs)| <= |gs|
    ensures (forall g :: g in gs ==> !g.Executing?) ==> Held(gs) == multiset{}
  {
    if gs != [] {
      HeldCount(gs[1..]);
      assert forall g :: g in gs[1..] ==> g in gs;
    }
  }

  ghost predicate Distinct(ts: seq<Submission>) {
    forall i, j :: 0 <= i < j < |ts| ==> ts[i] != ts[j]
  }

  /**
   Accepted submissions start in the order of acceptance and what has not started is the queue; what has
   started is being executed or has finished, each submission once; nothing exceeds its bound.
   */
  ghost predicate Conserved(s: State) {
    && s.accepted == s.started + s.queue
    && multiset(s.started) == Held(s.goroutines) + multiset(s.finished)
    && Distinct(s.accepted)
    && |s.queue| <= RUN_QUEUE_SIZE && |s.goroutines| == WORKER_POOL_SIZE
    && (forall t :: t in s.accepted ==> t in s.issued)
    && (forall t :: t in s.inFlight ==> t in s.issued && t !in s.accepted)
  }

  lemma InitialIsConserved()
    ensures Conserved(INITIAL)
  {
    HeldCount(INITIAL.goroutines);
  }

  lemma TakeFront(started: seq<Submission>, queue: seq<Submission>)
    requires queue != []
    ensures (started + [queue[0]]) + queue[1..] == started + queue
  {
  }

  lemma ReceiveIsHeld(s: State, g: nat)
    requires Conserved(s) && Enabled(s, Receive(g))
    ensures var s' := Apply(s, Receive(g));
            multiset(s'.started) == Held(s'.goroutines) + multiset(s'.finished)
  {
    var rest := HeldSplit(s.goroutines, g);
    HeldChange(s.goroutines, g, Executing(s.queue[0], s.goroutines[g].draining), rest);
  }

  lemma ReceiveIsConserved(s: State, g: nat)
    requires Conserved(s) && Enabled(s, Receive(g))
    ensures Conserved(Apply(s, Receive(g)))
  {
    ReceiveIsHeld(s, g);
    TakeFront(s.started, s.queue);
  }

  lemma MoveIsConserved(s: State, step: Step)
    requires Conserved(s) && Enabled(s, step) && (step.Finish? || step.SeeDone? || step.Return?)
    ensures Conserved(Apply(s, step))
  {
    var g := step.goroutine;
    var rest := HeldSplit(s.goroutines, g);
    HeldChange(s.goroutines, g, Apply(s, step).goroutines[g], rest);
  }

  lemma SendIsConserved(s: State, t: Submission)
    requires Conserved(s) && t in s.inFlight
    ensures Conserved(Apply(s, Send(t)))
  {
    if |s.queue| < RUN_QUEUE_SIZE {
      assert s.accepted + [t] == s.started + (s.queue + [t]);
    }
  }

  lemma CheckIsConserved(s: State, step: Step)
    requires Conserved(s) && Enabled(s, step) && (step.Check? || step.SetDraining? || step.Cancel?)
    ensures Conserved(Apply(s, step))
  {
  }

  lemma StepIsConserved(s: State, step: Step, s': State)
    requires Conserved(s) && Next(s, step, s')
    ensures Conserved(s')
  {
    match step {
      case Receive(g) => ReceiveIsConserved(s, g);
      case Send(t) => SendIsConserved(s, t);
      case Finish(_) | SeeDone(_) | Return(_) => MoveIsConserved(s, step);
      case Check(_) | SetDraining | Cancel => CheckIsConserved(s, step);
    }
  }

  // -- Runs of the machine ---------------------------------------------------------------

  ghost predicate StepAt(ss: seq<State>, steps: seq<Step>, i: nat)
    requires i < |steps| && |ss| == |steps| + 1
  {
    Next(ss[i], steps[i], ss[i + 1])
  }

  ghost predicate Behaviour(ss: seq<State>, steps: seq<Step>) {
    && |ss| == |steps| + 1 && ss[0] == INITIAL
    && forall i: nat {:trigger StepAt(ss, steps, i)} :: i < |steps| ==> StepAt(ss, steps, i)
  }

  lemma {:induction false} AlwaysConserved(ss: seq<State>, steps: seq<Step>, i: nat)
    requires Behaviour(ss, steps) && i < |ss|
    ensures Conserved(ss[i])
  {
    if i == 0 {
      InitialIsConserved();
    } else {
      AlwaysConserved(ss, steps, i - 1);
      assert StepAt(ss, steps, i - 1);
      StepIsConserved(ss[i - 1], steps[i - 1], ss[i]);
    }
  }

  /**
   At every moment the accepted submissions are the disjoint union of at most five queued, at most five
   executing and the finished ones, and none was started or finished twice.
   */
  lemma AcceptedIsQueuedExecutingOrFinished(ss: seq<State>, steps: seq<Step>, i: nat)
    requires Behaviour(ss, steps) && i < |ss|
    ensures multiset(ss[i].accepted) == multiset(ss[i].queue) + Held(ss[i].goroutines) + multiset(ss[i].finished)
    ensures |ss[i].queue| <= 5 && |Held(ss[i].goroutines)| <= 5
    ensures forall t :: multiset(ss[i].accepted)[t] <= 1 && multiset(ss[i].started)[t] <= 1
  {
    var s := ss[i];
    AlwaysConserved(ss, steps, i);
    HeldCount(s.goroutines);
    assert multiset(s.accepted) == multiset(s.started) + multiset(s.queue);
    forall t ensures multiset(s.accepted)[t] <= 1 && multiset(s.started)[t] <= 1 {
      DistinctOnce(s.accepted, t);
    }
  }

  lemma {:induction false} DistinctOnce(ts: seq<Submission>, t: Submission)
    requires Distinct(ts)
    ensures multiset(ts)[t] <= 1
  {
    if ts != [] {
      var n := |ts| - 1;
      DistinctOnce(ts[..n], t);
      assert ts == ts[..n] + [ts[n]];
      assert ts[n] !in ts[..n];
    }
  }

  // -- Shutdown --------------------------------------------------------------------------

  predicate AllExited(s: State) {
    forall g :: g in s.goroutines ==> g.Exited?
  }

  /** Once the flag is up: who is still in flight, and what an exited goroutine leaves behind. */
  ghost predicate Flagged(s: State, late: set<Submission>) {
    && s.draining && s.inFlight <= late
    && ((exists g :: g in s.goroutines && g.Exited?) ==> forall t :: t in s.queue ==> t in late)
  }

  /** Nobody leaves the outer loop before the flag is up. */
  ghost predicate Working(s: State) {
    (s.cancelled ==> s.draining) && (!s.cancelled ==> forall g :: g in s.goroutines ==> !g.Exited? && !g.draining)
  }

  lemma StepIsWorking(s: State, step: Step, s': State)
    requires Working(s) && Next(s, step, s')
    ensures Working(s')
  {
  }

  lemma StepIsFlagged(s: State, step: Step, s': State, late: set<Submission>)
    requires Flagged(s, late) && Next(s, step, s')
    ensures Flagged(s', late)
  {
  }

  lemma {:induction false} AlwaysWorking(ss: seq<State>, steps: seq<Step>, i: nat)
    requires Behaviour(ss, steps) && i < |ss|
    ensures Working(ss[i])
  {
    if i > 0 {
      AlwaysWorking(ss, steps, i - 1);
      assert StepAt(ss, steps, i - 1);
      StepIsWorking(ss[i - 1], steps[i - 1], ss[i]);
    }
  }

  lemma {:induction false} AlwaysFlagged(ss: seq<State>, steps: seq<Step>, d: nat, i: nat)
    requires Behaviour(ss, steps) && d < |steps| && steps[d] == SetDraining && d < i < |ss|
    ensures Flagged(ss[i], ss[d].inFlight)
  {
    assert StepAt(ss, steps, i - 1);
    if i == d + 1 {
      AlwaysWorking(ss, steps, d);
    } else {
      AlwaysFlagged(ss, steps, d, i - 1);
      StepIsFlagged(ss[i - 1], steps[i - 1], ss[i], ss[d].inFlight);
    }
  }

  /**
   When Stop's wait is over, an accepted submission has either been executed to its end or is left in
   the queue, and only submissions that were in flight when the flag went up can be left. With none in
   flight then, the queue is empty and what finished is exactly what was accepted.
   */
  lemma StopLeavesOnlyLateSubmissions(ss: seq<State>, steps: seq<Step>, d: nat, i: nat)
    requires Behaviour(ss, steps) && d < |steps| && steps[d] == SetDraining && d < i < |ss|
    requires AllExited(ss[i])
    ensures multiset(ss[i].accepted) == multiset(ss[i].queue) + multiset(ss[i].finished)
    ensures forall t :: t in ss[i].queue ==> t in ss[d].inFlight
    ensures ss[d].inFlight == {} ==> ss[i].queue == [] && multiset(ss[i].finished) == multiset(ss[i].accepted)
  {
    var s := ss[i];
    AcceptedIsQueuedExecutingOrFinished(ss, steps, i);
    AlwaysConserved(ss, steps, i);
    AlwaysFlagged(ss, steps, d, i);
    HeldCount(s.goroutines);
    assert s.goroutines[0] in s.goroutines;
    if s.queue != [] {
      assert s.queue[0] in s.queue;
    }
  }

  /** A submission that passed its check and was sent after the flag is accepted whatever the flag says. */
  lemma LateSendIsAccepted(s: State, t: Submission)
    requires t in s.inFlight && |s.queue| < RUN_QUEUE_SIZE
    ensures var s' := Apply(s, Send(t)); t in s'.accepted && t in s'.queue
  {
    assert (s.queue + [t])[|s.queue|] == t;
    assert (s.accepted + [t])[|s.accepted|] == t;
  }

  /**
   With the flag down and room in the queue, a submission that is checked and then sent is accepted, last in
   the queue; with the flag up it is never in flight.
   */
  lemma CheckThenSend(s: State, t: Submission)
    requires Conserved(s) && t !in s.issued
    ensures Enabled(s, Check(t))
    ensures !s.draining ==> Enabled(Apply(s, Check(t)), Send(t))
    ensures !s.draining && |s.queue| < 5 ==>
      var s' := Apply(Apply(s, Check(t)), Send(t));
      s'.queue == s.queue + [t] && s'.accepted == s.accepted + [t] && s'.inFlight == s.inFlight
    ensures !s.draining && |s.queue| >= 5 ==>
      var s' := Apply(Apply(s, Check(t)), Send(t));
      s'.queue == s.queue && s'.accepted == s.accepted && s'.inFlight == s.inFlight
    ensures s.draining ==> Apply(s, Check(t)).inFlight == s.inFlight && t !in s.inFlight
  {
    if !s.draining {
      assert s.inFlight + {t} - {t} == s.inFlight;
    }
  }

  // -- The wait ends ---------------------------------------------------------------------

  function Rank(g: Goroutine): (r: nat) {
    match g
    case Exited => 0
    case Waiting(draining) => if draining then 1 else 2
    case Executing(_, draining) => if draining then 2 else 3
  }

  function Ranks(gs: seq<Goroutine>): nat {
    if gs == [] then 0 else Rank(gs[0]) + Ranks(gs[1..])
  }

  /** How many steps the goroutines can still take if nothing more is sent. */
  function Work(s: State): nat {
    2 * |s.queue| + Ranks(s.goroutines)
  }

  lemma {:induction false} RanksUpdate(gs: seq<Goroutine>, g: nat, next: Goroutine)
    requires g < |gs|
    ensures Ranks(gs[g := next]) == Ranks(gs) - Rank(gs[g]) + Rank(next)
  {
    if g > 0 {
      RanksUpdate(gs[1..], g - 1, next);
      assert gs[g := next][1..] == gs[1..][g - 1 := next];
    } else {
      assert gs[g := next][1..] == gs[1..];
    }
  }

  predicate OfGoroutine(step: Step) {
    step.Receive? || step.Finish? || step.SeeDone? || step.Return?
  }

  /** Every step of a goroutine brings the end of the wait one step closer. */
  lemma EveryMoveCounts(s: State, step: Step)
    requires Enabled(s, step) && OfGoroutine(step)
    ensures Work(Apply(s, step)) == Work(s) - 1
  {
    RanksUpdate(s.goroutines, step.goroutine, Apply(s, step).goroutines[step.goroutine]);
  }

  /** Once the context is cancelled, a goroutine that has not exited can always take a step. */
  function Move(s: State, g: nat): (step: Step)
    requires s.cancelled && g < |s.goroutines| && !s.goroutines[g].Exited?
    ensures Enabled(s, step) && OfGoroutine(step)
  {
    if s.goroutines[g].Executing? then Finish(g)
    else if s.queue != [] then Receive(g)
    else if s.goroutines[g].draining then Return(g)
    else SeeDone(g)
  }

  ghost predicate Reaches(s: State, steps: seq<Step>, s': State)
    decreases steps
  {
    if steps == [] then s == s'
    else Enabled(s, steps[0]) && Reaches(Apply(s, steps[0]), steps[1..], s')
  }

  lemma ReachesCons(s: State, step: Step, steps: seq<Step>, s': State)
    requires Enabled(s, step) && Reaches(Apply(s, step), steps, s')
    ensures Reaches(s, [step] + steps, s')
  {
    assert ([step] + steps)[1..] == steps;
  }

  /** From every cancelled state the goroutines finish on their own, and leave the queue empty. */
  lemma {:induction false} WaitEnds(s: State) returns (steps: seq<Step>, s': State)
    requires s.cancelled && Conserved(s) && (AllExited(s) ==> s.queue == [])
    ensures Reaches(s, steps, s') && |steps| == Work(s)
    ensures AllExited(s') && s'.queue == [] && s'.inFlight == s.inFlight && Conserved(s')
    decreases Work(s)
  {
    if AllExited(s) {
      steps, s' := [], s;
      NoRanks(s.goroutines);
    } else {
      var g :| 0 <= g < |s.goroutines| && !s.goroutines[g].Exited?;
      var step := Move(s, g);
      EveryMoveCounts(s, step);
      StepIsConserved(s, step, Apply(s, step));
      assert Apply(s, step).goroutines[g] in Apply(s, step).goroutines;
      steps, s' := WaitEnds(Apply(s, step));
      ReachesCons(s, step, steps, s');
      steps := [step] + steps;
    }
  }

  lemma {:induction false} NoRanks(gs: seq<Goroutine>)
    requires forall g :: g in gs ==> g.Exited?
    ensures Ranks(gs) == 0
  {
    if gs != [] {
      NoRanks(gs[1..]);
      assert gs[0] in gs;
    }
  }

  // -- When a submission can be stranded --------------------------------------------------

  ghost predicate Stranded(s: State, t: Submission) {
    AllExited(s) && t in s.accepted && t in s.queue && t !in s.started
  }

  lemma {:induction false} ReachesSnoc(s: State, steps: seq<Step>, m: State, step: Step)
    requires Reaches(s, steps, m) && Enabled(m, step)
    ensures Reaches(s, steps + [step], Apply(m, step))
    decreases steps
  {
    if steps == [] {
      assert [step][1..] == [];
      assert steps + [step] == [step];
    } else {
      ReachesSnoc(Apply(s, steps[0]), steps[1..], m, step);
      assert (steps + [step])[1..] == steps[1..] + [step];
    }
  }

  lemma InFlightCanBeStranded(s: State, t: Submission) returns (steps: seq<Step>, s': State)
    requires Conserved(s) && Working(s) && !s.draining && t in s.inFlight
    ensures Reaches(s, [SetDraining] + steps, s') && Stranded(s', t)
  {
    var flagged := Apply(s, SetDraining);
    var cancelled := Apply(flagged, Cancel);
    StepIsConserved(s, SetDraining, flagged);
    StepIsConserved(flagged, Cancel, cancelled);
    assert s.goroutines[0] in s.goroutines;
    var m;
    steps, m := WaitEnds(cancelled);
    ReachesCons(flagged, Cancel, steps, m);
    ReachesSnoc(flagged, [Cancel] + steps, m, Send(t));
    LateSendIsAccepted(m, t);
    s' := Apply(m, Send(t));
    steps := [Cancel] + steps + [Send(t)];
    ReachesCons(s, SetDraining, steps, s');
  }

  lemma {:induction false} ReachesFlagged(s: State, steps: seq<Step>, s': State, late: set<Submission>)
    requires Flagged(s, late) && Conserved(s) && Reaches(s, steps, s')
    ensures Flagged(s', late) && Conserved(s')
    decreases steps
  {
    if steps != [] {
      StepIsFlagged(s, steps[0], Apply(s, steps[0]), late);
      StepIsConserved(s, steps[0], Apply(s, steps[0]));
      ReachesFlagged(Apply(s, steps[0]), steps[1..], s', late);
    }
  }

  /**
   Raising the flag in a given state can strand a submission exactly when that submission is between
   its draining check and its send.
   */
  lemma CanBeStrandedIff(s: State, t: Submission)
    requires Conserved(s) && Working(s) && !s.draining
    ensures (exists steps, s' :: Reaches(s, [SetDraining] + steps, s') && Stranded(s', t)) <==> t in s.inFlight
  {
    if t in s.inFlight {
      var steps, s' := InFlightCanBeStranded(s, t);
    }
    forall steps, s' | Reaches(s, [SetDraining] + steps, s') && Stranded(s', t) ensures t in s.inFlight {
      assert ([SetDraining] + steps)[1..] == steps;
      var flagged := Apply(s, SetDraining);
      StepIsConserved(s, SetDraining, flagged);
      ReachesFlagged(flagged, steps, s', s.inFlight);
      assert s'.goroutines[0] in s'.goroutines;
    }
  }

  // -- The worker ------------------------------------------------------------------------

  class WorkerServer {
    var draining: bool
    var cancelled: bool
    var runQueue: seq<Submission>
    var goroutines: seq<Goroutine>
    ghost var inFlight: set<Submission>
    ghost var issued: set<Submission>
    ghost var accepted: seq<Submission>
    ghost var started: seq<Submission>
    ghost var finished: seq<Submission>

    ghost function Snapshot(): State
      reads this
    {
      State(draining, cancelled, inFlight, runQueue, goroutines, issued, accepted, started, finished)
    }

    constructor ()
      ensures Snapshot() == INITIAL
      ensures !draining && !cancelled && runQueue == [] && |goroutines| == 5
      ensures forall g :: g in goroutines ==> g == Waiting(false)
    {
      draining, cancelled, runQueue, goroutines := false, false, [], POOL;
      inFlight, issued, accepted, started, finished := {}, {}, [], [], [];
    }

    /** The first half of SubmitRun; another goroutine may run before the second half. */
    method CheckDraining(t: Submission) returns (passed: bool)
      requires t !in issued && Conserved(Snapshot())
      modifies this
      ensures Next(old(Snapshot()), Check(t), Snapshot()) && Conserved(Snapshot())
      ensures passed <==> t in inFlight
      ensures passed <==> !old(draining)
      ensures inFlight == old(inFlight) + (if passed then {t} else {})
      ensures issued == old(issued) + {t} && runQueue == old(runQueue) && accepted == old(accepted)
    {
      passed := !draining;
      issued := issued + {t};
      if passed {
        inFlight := inFlight + {t};
      }
    }

    /** The second half: a send that does not block. */
    method TrySend(t: Submission) returns (ok: bool)
      requires t in inFlight && Conserved(Snapshot())
      modifies this
      ensures Next(old(Snapshot()), Send(t), Snapshot()) && Conserved(Snapshot())
      ensures ok <==> t in accepted
      ensures ok <==> |old(runQueue)| < 5
      ensures runQueue == old(runQueue) + (if ok then [t] else [])
      ensures accepted == old(accepted) + (if ok then [t] else []) && inFlight == old(inFlight) - {t}
    {
      ghost var before := Snapshot();
      inFlight := inFlight - {t};
      ok := |runQueue| < RUN_QUEUE_SIZE;
      if ok {
        runQueue, accepted := runQueue + [t], accepted + [t];
        assert accepted[|accepted| - 1] == t;
      }
      StepIsConserved(before, Send(t), Snapshot());
    }

    /** What Stop does before it waits. */
    method BeginStop()
      requires !draining
      modifies this`draining, this`cancelled
      ensures Reaches(old(Snapshot()), [SetDraining, Cancel], Snapshot())
      ensures draining && cancelled
    {
      ghost var before := Snapshot();
      draining := true;
      ghost var flagged := Snapshot();
      cancelled := true;
      ReachesCons(flagged, Cancel, [], Snapshot());
      ReachesCons(before, SetDraining, [Cancel], Snapshot());
      assert [SetDraining] + [Cancel] == [SetDraining, Cancel];
    }

    /** One run taken from the queue and executed to its end. */
    method ExecuteNext(g: nat)
      requires runQueue != [] && g < |goroutines| && goroutines[g].Waiting?
      modifies this`runQueue, this`goroutines, this`started, this`finished
      ensures Reaches(old(Snapshot()), [Receive(g), Finish(g)], Snapshot())
      ensures runQueue == old(runQueue[1..]) && finished == old(finished) + [old(runQueue[0])]
      ensures goroutines == old(goroutines)
    {
      ghost var before := Snapshot();
      var work, mode := runQueue[0], goroutines[g].draining;
      runQueue, started, goroutines := runQueue[1..], started + [work], goroutines[g := Executing(work, mode)];
      ghost var executing := Snapshot();
      finished, goroutines := finished + [work], goroutines[g := Waiting(mode)];
      ReachesCons(executing, Finish(g), [], Snapshot());
      ReachesCons(before, Receive(g), [Finish(g)], Snapshot());
      assert [Receive(g)] + [Finish(g)] == [Receive(g), Finish(g)];
    }

    /** The inner loop of a goroutine nobody interrupts: what is queued is executed, in order. */
    method Drain(g: nat)
      requires g < |goroutines| && goroutines[g] == Waiting(true)
      modifies this`runQueue, this`goroutines, this`started, this`finished
      ensures runQueue == [] && goroutines == old(goroutines)[g := Exited]
      ensures finished == old(finished) + old(runQueue)
      ensures exists steps :: Reaches(old(Snapshot()), steps, Snapshot())
    {
      ghost var steps: seq<Step> := [];
      while runQueue != []
        invariant goroutines == old(goroutines)
        invariant finished + runQueue == old(finished) + old(runQueue)
        invariant Reaches(old(Snapshot()), steps, Snapshot())
        decreases |runQueue|
      {
        ghost var here := Snapshot();
        ExecuteNext(g);
        ReachesTrans(old(Snapshot()), steps, here, [Receive(g), Finish(g)], Snapshot());
        steps := steps + [Receive(g), Finish(g)];
      }
      ReachesSnoc(old(Snapshot()), steps, Snapshot(), Return(g));
      goroutines := goroutines[g := Exited];
      assert Reaches(old(Snapshot()), steps + [Return(g)], Snapshot());
    }
  }

  lemma {:induction false} ReachesTrans(s: State, first: seq<Step>, m: State, second: seq<Step>, s': State)
    requires Reaches(s, first, m) && Reaches(m, second, s')
    ensures Reaches(s, first + second, s')
    decreases first
  {
    if first == [] {
      assert first + second == second;
    } else {
      ReachesTrans(Apply(s, first[0]), first[1..], m, second, s');
      assert (first + second)[1..] == first[1..] + second;
    }
  }
}
