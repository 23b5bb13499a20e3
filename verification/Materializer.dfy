/** Turning schedules into runs (pkg/materializer/materializer.go). */
module Materializer {
  import opened Common
  import opened Schedule

  const GRACE_WINDOW: int := 300
  const MAX_CATCH_UP_ITERATIONS: nat := 100000

  // -- Which fire time a pass is for -----------------------------------------------------

  /** `fireAt` is the last chain element not after `now`, and `next` the first one after it. */
  ghost predicate Latest(spec: Spec, start: int, now: int, fireAt: int, next: Option<int>) {
    exists k: nat :: LatestAt(spec, start, now, fireAt, next, k)
  }

  ghost predicate LatestAt(spec: Spec, start: int, now: int, fireAt: int, next: Option<int>, k: nat) {
    && spec.Chain(start, k) == Some(fireAt) && fireAt <= now
    && next == spec.Chain(start, k + 1)
    && (next.Some? ==> now < next.value)
  }

  /** The walk forward: at most `fuel` turns, dropping fire times that are already in the past. */
  function Resolve(spec: Spec, fireAt: int, now: int, fuel: nat): (int, Option<int>)
    decreases fuel
  {
    if fuel == 0 then (fireAt, None)
    else
      var next := spec.Guarded(fireAt);
      if next == None || next.value > now then (fireAt, next)
      else Resolve(spec, next.value, now, fuel - 1)
  }

  method ResolveFireTimes(spec: Spec, scheduled: int, now: int)
    returns (fireAt: int, nextFireAt: Option<int>, missed: bool)
    ensures (fireAt, nextFireAt) == Resolve(spec, scheduled, now, MAX_CATCH_UP_ITERATIONS)
    ensures missed <==> now - fireAt > GRACE_WINDOW
  {
    fireAt, nextFireAt := scheduled, None;
    var i: nat := 0;
    while i < MAX_CATCH_UP_ITERATIONS
      invariant i <= MAX_CATCH_UP_ITERATIONS
      invariant nextFireAt == None
      invariant Resolve(spec, scheduled, now, MAX_CATCH_UP_ITERATIONS)
             == Resolve(spec, fireAt, now, MAX_CATCH_UP_ITERATIONS - i)
    {
      var next := spec.Next(fireAt, Some(spec.WallClock(fireAt)));
      if next == None {
        nextFireAt := None;
        break;
      }
      if next.value > now {
        nextFireAt := next;
        break;
      }
      fireAt := next.value;
      i := i + 1;
    }
    missed := now - fireAt > GRACE_WINDOW;
  }

  /** The walk stands on the chain: it stops at the latest element, or runs out of turns on it. */
  lemma {:induction false} ResolveWalksChain(spec: Spec, start: int, now: int, m: nat, fuel: nat)
    requires spec.Chain(start, m).Some? && spec.Chain(start, m).value <= now
    ensures var (fireAt, next) := Resolve(spec, spec.Chain(start, m).value, now, fuel);
            || (exists k: nat :: m <= k < m + fuel && LatestAt(spec, start, now, fireAt, next, k))
            || (spec.Chain(start, m + fuel) == Some(fireAt) && fireAt <= now && next == None)
    decreases fuel
  {
    if fuel > 0 {
      var t := spec.Chain(start, m).value;
      var next := spec.Guarded(t);
      assert next == spec.Chain(start, m + 1);
      if next == None || next.value > now {
        assert LatestAt(spec, start, now, t, next, m);
      } else {
        ResolveWalksChain(spec, start, now, m + 1, fuel - 1);
      }
    }
  }

  /** The chain goes on past `bound` turns of the loop while still in the past. */
  ghost predicate Outruns(spec: Spec, start: int, now: int, bound: nat) {
    && spec.Chain(start, bound).Some? && spec.Chain(start, bound).value <= now
    && spec.Chain(start, bound + 1).Some?
  }

  ghost predicate CutShort(spec: Spec, start: int, now: int) {
    Outruns(spec, start, now, MAX_CATCH_UP_ITERATIONS)
  }

  lemma FoundWithinBound(spec: Spec, start: int, now: int, bound: nat, k: nat, fireAt: int, next: Option<int>)
    requires spec.Valid() && k < bound && LatestAt(spec, start, now, fireAt, next, k)
    ensures Latest(spec, start, now, fireAt, next) && !Outruns(spec, start, now, bound)
  {
    NothingLaterIsPast(spec, start, now, k, bound);
  }

  lemma StoppedAtBound(spec: Spec, start: int, now: int, bound: nat, fireAt: int)
    requires spec.Valid() && spec.Chain(start, bound) == Some(fireAt) && fireAt <= now
    ensures Latest(spec, start, now, fireAt, None) <==> !Outruns(spec, start, now, bound)
  {
    if !Outruns(spec, start, now, bound) {
      assert LatestAt(spec, start, now, fireAt, None, bound);
    } else if k: nat :| LatestAt(spec, start, now, fireAt, None, k) {
      SameInstantSamePlace(spec, start, k, bound);
    }
  }

  /**
   The catch-up loop finds the last fire time not after now and the first one after it, if and only if
   the chain does not outrun the iteration bound; when it does, the schedule loses its next fire time.
   */
  lemma CatchUpExactIff(spec: Spec, start: int, now: int)
    requires spec.Valid() && start <= now
    ensures var (fireAt, next) := Resolve(spec, start, now, MAX_CATCH_UP_ITERATIONS);
            && (Latest(spec, start, now, fireAt, next) <==> !CutShort(spec, start, now))
            && (CutShort(spec, start, now) ==> next == None)
  {
    CatchUpExactWithin(spec, start, now, MAX_CATCH_UP_ITERATIONS);
  }

  lemma CatchUpExactWithin(spec: Spec, start: int, now: int, bound: nat)
    requires spec.Valid() && start <= now
    ensures var (fireAt, next) := Resolve(spec, start, now, bound);
            && (Latest(spec, start, now, fireAt, next) <==> !Outruns(spec, start, now, bound))
            && (Outruns(spec, start, now, bound) ==> next == None)
  {
    var (fireAt, next) := Resolve(spec, start, now, bound);
    ResolveWalksChain(spec, start, now, 0, bound);
    if k: nat :| k < bound && LatestAt(spec, start, now, fireAt, next, k) {
      FoundWithinBound(spec, start, now, bound, k, fireAt, next);
    } else {
      StoppedAtBound(spec, start, now, bound, fireAt);
    }
  }

  lemma NothingLaterIsPast(spec: Spec, start: int, now: int, k: nat, j: nat)
    requires spec.Valid() && k < j
    requires spec.Chain(start, k + 1).Some? ==> now < spec.Chain(start, k + 1).value
    ensures spec.Chain(start, j).Some? ==> now < spec.Chain(start, j).value
  {
    if spec.Chain(start, j).Some? && k + 1 < j {
      ChainIncreases(spec, start, k + 1, j);
    }
  }

  lemma SameInstantSamePlace(spec: Spec, start: int, i: nat, j: nat)
    requires spec.Valid() && spec.Chain(start, i).Some? && spec.Chain(start, i) == spec.Chain(start, j)
    ensures i == j
  {
    if i < j { ChainIncreases(spec, start, i, j); }
    if j < i { ChainIncreases(spec, start, j, i); }
  }

  ghost predicate GapsAtLeast(spec: Spec, start: int, gap: int) {
    forall j: nat, k: nat :: k == j + 1 && spec.Chain(start, j).Some? && spec.Chain(start, k).Some? ==>
      spec.Chain(start, k).value - spec.Chain(start, j).value >= gap
  }

  lemma {:induction false} GapsAddUp(spec: Spec, start: int, gap: int, k: nat)
    requires GapsAtLeast(spec, start, gap) && spec.Chain(start, k).Some?
    ensures spec.Chain(start, k).value >= start + gap * k
  {
    if k > 0 {
      assert spec.Chain(start, k - 1).Some?;
      GapsAddUp(spec, start, gap, k - 1);
    }
  }

  /** Fires at least five minutes apart and an outage under 30,000,000 seconds never reach the bound. */
  lemma SpacedFiresAreNeverLost(spec: Spec, start: int, now: int)
    requires spec.Valid() && GapsAtLeast(spec, start, MINIMUM_INTERVAL)
    requires start <= now < start + 30_000_000
    ensures var (fireAt, next) := Resolve(spec, start, now, MAX_CATCH_UP_ITERATIONS);
            Latest(spec, start, now, fireAt, next)
  {
    CatchUpExactIff(spec, start, now);
    if CutShort(spec, start, now) {
      GapsAddUp(spec, start, MINIMUM_INTERVAL, MAX_CATCH_UP_ITERATIONS);
    }
  }

  /**
   A schedule the granularity check accepted, of an expression whose first gap is its shortest, never
   loses its next fire time in an outage under 30,000,000 seconds, wherever in its fires it was saved.
   */
  lemma AcceptedSchedulesAreNeverLost(spec: Spec, reference: int, saved: int, now: int)
    requires spec.Valid() && Exhaustive(spec) && FirstGapIsLeast(spec, reference)
    requires CheckGranularity(spec, reference) == Accepted
    requires reference <= saved && spec.Next(saved, None).Some?
    requires var start := spec.Next(saved, None).value; start <= now < start + 30_000_000
    ensures var start := spec.Next(saved, None).value;
            var (fireAt, next) := Resolve(spec, start, now, MAX_CATCH_UP_ITERATIONS);
            GapsAtLeast(spec, start, MINIMUM_INTERVAL) && Latest(spec, start, now, fireAt, next)
  {
    var start := spec.Next(saved, None).value;
    AcceptedIffSpaced(spec, reference);
    var m := SavedFireIsRaw(spec, reference, saved);
    forall j: nat, k: nat | k == j + 1 && spec.Chain(start, j).Some? && spec.Chain(start, k).Some?
      ensures spec.Chain(start, k).value - spec.Chain(start, j).value >= MINIMUM_INTERVAL
    {
      ChainGapsAtLeast(spec, reference, m, MINIMUM_INTERVAL, j, k);
    }
    SpacedFiresAreNeverLost(spec, start, now);
  }

  /** Every five minutes, in a zone without transitions. */
  function FiveMinutely(): Spec {
    Spec(w => w % 300 == 0, t => 0, t => Some((t / 300 + 1) * 300))
  }

  lemma {:induction false} FiveMinutelyChain(k: nat)
    ensures FiveMinutely().Chain(0, k) == Some(300 * k)
  {
    if k > 0 {
      FiveMinutelyChain(k - 1);
      assert (300 * (k - 1)) / 300 == k - 1;
    }
  }

  /** The bound is tight: after an outage of 30,000,000 seconds the next fire time is lost. */
  lemma LongOutageLosesNextFire()
    ensures FiveMinutely().Valid() && CheckGranularity(FiveMinutely(), 0) == Accepted
    ensures CutShort(FiveMinutely(), 0, 30_000_000)
    ensures var (fireAt, next) := Resolve(FiveMinutely(), 0, 30_000_000, MAX_CATCH_UP_ITERATIONS);
            next == None && !Latest(FiveMinutely(), 0, 30_000_000, fireAt, next)
  {
    FiveMinutelyIsValid();
    FiveMinutelyOutruns(MAX_CATCH_UP_ITERATIONS);
    CatchUpExactIff(FiveMinutely(), 0, 30_000_000);
  }

  lemma FiveMinutelyOutruns(bound: nat)
    ensures Outruns(FiveMinutely(), 0, 300 * bound, bound)
  {
    FiveMinutelyChain(bound);
    FiveMinutelyChain(bound + 1);
  }

  lemma FiveMinutelyIsValid()
    ensures FiveMinutely().Valid() && CheckGranularity(FiveMinutely(), 0) == Accepted
  {
  }

  /** A schedule whose gaps fit the grace window is never missed while it has a next fire time. */
  lemma FrequentFiresAreNeverMissed(spec: Spec, start: int, now: int, fireAt: int, next: Option<int>)
    requires Latest(spec, start, now, fireAt, next) && next.Some?
    requires forall j: nat, k: nat :: k == j + 1 && spec.Chain(start, j).Some? && spec.Chain(start, k).Some? ==>
      spec.Chain(start, k).value - spec.Chain(start, j).value <= GRACE_WINDOW
    ensures now - fireAt <= GRACE_WINDOW
  {
    var k: nat :| LatestAt(spec, start, now, fireAt, next, k);
    assert spec.Chain(start, k).Some? && spec.Chain(start, k + 1).Some?;
  }

  // -- The life of a schedule ------------------------------------------------------------

  datatype Fire = Fire(at: int, missed: bool)

  /** The columns of a schedule a pass reads and writes. */
  datatype Row = Row(nextFireAt: Option<int>, lastFiredWall: Option<int>)

  predicate Due(row: Row, now: int) {
    row.nextFireAt.Some? && row.nextFireAt.value <= now
  }

  /** One pass over one schedule; the row lock makes passes of several coordinators take turns. */
  function Pass(spec: Spec, row: Row, now: int): (Row, Option<Fire>) {
    if Due(row, now) then
      var (fireAt, next) := Resolve(spec, row.nextFireAt.value, now, MAX_CATCH_UP_ITERATIONS);
      (Row(next, Some(spec.WallClock(fireAt))), Some(Fire(fireAt, now - fireAt > GRACE_WINDOW)))
    else (row, None)
  }

  /** A saved schedule and the clock readings of the passes that follow, in any order. */
  function Life(spec: Spec, saved: int, nows: seq<int>): (Row, seq<Fire>) {
    if nows == [] then (Row(Some(saved), None), [])
    else
      var n := |nows| - 1;
      var (row, fires) := Life(spec, saved, nows[..n]);
      var (row', fire) := Pass(spec, row, nows[n]);
      (row', if fire == None then fires else fires + [fire.value])
  }

  /** The fires stand at increasing places of the chain, and the next fire time at a later one. */
  ghost predicate OnChain(spec: Spec, saved: int, row: Row, fires: seq<Fire>, places: seq<nat>) {
    && |places| == |fires|
    && (forall i, j :: 0 <= i < j < |places| ==> places[i] < places[j])
    && (forall i :: 0 <= i < |fires| ==> spec.Chain(saved, places[i]) == Some(fires[i].at))
    && (row.nextFireAt.Some? ==> exists m: nat :: NextIsAt(spec, saved, row, places, m))
  }

  ghost predicate NextIsAt(spec: Spec, saved: int, row: Row, places: seq<nat>, m: nat) {
    spec.Chain(saved, m) == row.nextFireAt && forall i :: 0 <= i < |places| ==> places[i] < m
  }

  lemma OneMoreOnChain(spec: Spec, saved: int, row: Row, fires: seq<Fire>, places: seq<nat>, m: nat,
                       place: nat, fire: Fire, row': Row)
    requires OnChain(spec, saved, row, fires, places) && NextIsAt(spec, saved, row, places, m)
    requires m <= place && spec.Chain(saved, place) == Some(fire.at)
    requires row'.nextFireAt.Some? ==> spec.Chain(saved, place + 1) == row'.nextFireAt
    ensures OnChain(spec, saved, row', fires + [fire], places + [place])
  {
    if row'.nextFireAt.Some? {
      assert NextIsAt(spec, saved, row', places + [place], place + 1);
    }
  }

  lemma ResolvedPlace(spec: Spec, saved: int, now: int, m: nat) returns (place: nat)
    requires spec.Chain(saved, m).Some? && spec.Chain(saved, m).value <= now
    ensures var (fireAt, next) := Resolve(spec, spec.Chain(saved, m).value, now, MAX_CATCH_UP_ITERATIONS);
            && m <= place && spec.Chain(saved, place) == Some(fireAt)
            && (next.Some? ==> spec.Chain(saved, place + 1) == next)
  {
    var (fireAt, next) := Resolve(spec, spec.Chain(saved, m).value, now, MAX_CATCH_UP_ITERATIONS);
    ResolveWalksChain(spec, saved, now, m, MAX_CATCH_UP_ITERATIONS);
    if k: nat :| m <= k < m + MAX_CATCH_UP_ITERATIONS && LatestAt(spec, saved, now, fireAt, next, k) {
      place := k;
    } else {
      place := m + MAX_CATCH_UP_ITERATIONS;
    }
  }

  lemma PassStaysOnChain(spec: Spec, saved: int, row: Row, fires: seq<Fire>, places: seq<nat>, now: int)
    returns (place: nat)
    requires spec.Valid() && OnChain(spec, saved, row, fires, places) && Due(row, now)
    ensures var (row', fire) := Pass(spec, row, now);
            fire.Some? && OnChain(spec, saved, row', fires + [fire.value], places + [place])
  {
    var m: nat :| NextIsAt(spec, saved, row, places, m);
    place := ResolvedPlace(spec, saved, now, m);
    var (row', fire) := Pass(spec, row, now);
    OneMoreOnChain(spec, saved, row, fires, places, m, place, fire.value, row');
  }

  /**
   Over any number of passes with any clock readings, the recorded fire times are a strictly
   increasing subsequence of the one guarded chain that starts at the saved next fire time.
   */
  lemma {:induction false} LifeFollowsChain(spec: Spec, saved: int, nows: seq<int>) returns (places: seq<nat>)
    requires spec.Valid()
    ensures OnChain(spec, saved, Life(spec, saved, nows).0, Life(spec, saved, nows).1, places)
  {
    if nows == [] {
      places := [];
      assert NextIsAt(spec, saved, Row(Some(saved), None), places, 0);
    } else {
      var n := |nows| - 1;
      places := LifeFollowsChain(spec, saved, nows[..n]);
      var (row, fires) := Life(spec, saved, nows[..n]);
      if Due(row, nows[n]) {
        var place := PassStaysOnChain(spec, saved, row, fires, places, nows[n]);
        places := places + [place];
      }
    }
  }

  lemma FiresStrictlyIncrease(spec: Spec, saved: int, nows: seq<int>, i: nat, j: nat)
    requires spec.Valid() && i < j < |Life(spec, saved, nows).1|
    ensures Life(spec, saved, nows).1[i].at < Life(spec, saved, nows).1[j].at
  {
    var places := LifeFollowsChain(spec, saved, nows);
    ChainIncreases(spec, saved, places[i], places[j]);
  }

  /** A due pass records exactly the latest element of that chain not after its own reading of the clock. */
  lemma PassRecordsLatest(spec: Spec, saved: int, nows: seq<int>, now: int)
    requires spec.Valid() && Due(Life(spec, saved, nows).0, now)
    requires !CutShort(spec, Life(spec, saved, nows).0.nextFireAt.value, now)
    ensures var (row', fire) := Pass(spec, Life(spec, saved, nows).0, now);
            fire.Some? && Latest(spec, saved, now, fire.value.at, row'.nextFireAt)
  {
    var (row, fires) := Life(spec, saved, nows);
    var places := LifeFollowsChain(spec, saved, nows);
    var m: nat :| NextIsAt(spec, saved, row, places, m);
    var start := row.nextFireAt.value;
    CatchUpExactIff(spec, start, now);
    var (fireAt, next) := Resolve(spec, start, now, MAX_CATCH_UP_ITERATIONS);
    var k: nat :| LatestAt(spec, start, now, fireAt, next, k);
    ChainSuffix(spec, saved, m, k);
    ChainSuffix(spec, saved, m, k + 1);
    assert LatestAt(spec, saved, now, fireAt, next, m + k);
  }

  /**
   What one more pass makes of a schedule's life: nothing unless its next fire time has come, and then
   one more fire, for the latest element of the chain, missed if that is over five minutes old.
   */
  lemma LifeGrows(spec: Spec, saved: int, nows: seq<int>, now: int)
    ensures Life(spec, saved, []) == (Row(Some(saved), None), [])
    ensures var (row, fires) := Life(spec, saved, nows);
            var (row', fires') := Life(spec, saved, nows + [now]);
            if row.nextFireAt.None? || now < row.nextFireAt.value then row' == row && fires' == fires
            else
              && |fires'| == |fires| + 1 && fires <= fires'
              && (fires'[|fires|].missed <==> now - fires'[|fires|].at > 300)
              && row'.lastFiredWall == Some(spec.WallClock(fires'[|fires|].at))
              && (spec.Valid() && !CutShort(spec, row.nextFireAt.value, now) ==>
                    Latest(spec, saved, now, fires'[|fires|].at, row'.nextFireAt))
  {
    assert (nows + [now])[..|nows|] == nows;
    var row := Life(spec, saved, nows).0;
    if spec.Valid() && Due(row, now) && !CutShort(spec, row.nextFireAt.value, now) {
      PassRecordsLatest(spec, saved, nows, now);
    }
  }

  /** After a pass, another one at the same or an earlier reading of the clock records nothing. */
  lemma {:induction false} SecondPassRecordsNothing(spec: Spec, row: Row, now: int, again: int)
    requires again <= now
    ensures Pass(spec, Pass(spec, row, now).0, again) == (Pass(spec, row, now).0, None)
  {
    if Due(row, now) {
      ResolveLeavesNothingDue(spec, row.nextFireAt.value, now, MAX_CATCH_UP_ITERATIONS);
    }
  }

  lemma {:induction false} ResolveLeavesNothingDue(spec: Spec, fireAt: int, now: int, fuel: nat)
    ensures var next := Resolve(spec, fireAt, now, fuel).1; next.Some? ==> next.value > now
    decreases fuel
  {
    if fuel > 0 && spec.Guarded(fireAt).Some? {
      ResolveLeavesNothingDue(spec, spec.Guarded(fireAt).value, now, fuel - 1);
    }
  }

  /** Without a fire between two equal readings, no two recorded runs of a schedule read the same. */
  lemma RecordedReadingsDistinct(spec: Spec, saved: int, nows: seq<int>, i: nat, j: nat)
    requires spec.Valid() && RepeatsAreAdjacent(spec, saved)
    requires i < j < |Life(spec, saved, nows).1|
    ensures var fires := Life(spec, saved, nows).1;
            spec.WallClock(fires[i].at) != spec.WallClock(fires[j].at)
  {
    var places := LifeFollowsChain(spec, saved, nows);
    AdjacentRepeatsAreSkipped(spec, saved);
    assert !SameReading(spec, spec.Chain(saved, places[i]), spec.Chain(saved, places[j]));
  }

  // -- The materializer ------------------------------------------------------------------

  datatype RunStatus = Pending | Missed

  datatype NewRun = NewRun(schedule: string, agent: string, status: RunStatus, scheduledFor: int)

  /** `spec` is `None` when the stored expression no longer parses. */
  datatype Stored = Stored(spec: Option<Spec>, agent: string, enabled: bool, agentEnabled: bool, row: Row)

  predicate Eligible(s: Stored, now: int) {
    s.enabled && s.agentEnabled && Due(s.row, now)
  }

  /** What the locking query returns: every eligible schedule no other coordinator has locked, once. */
  ghost predicate Selected(schedules: map<string, Stored>, locked: set<string>, now: int, due: seq<string>) {
    && (forall id :: id in due <==> id in schedules && id !in locked && Eligible(schedules[id], now))
    && (forall i, j :: 0 <= i < j < |due| ==> due[i] != due[j])
  }

  function Advanced(s: Stored, now: int): Stored {
    if s.spec == None then s else s.(row := Pass(s.spec.value, s.row, now).0)
  }

  function RunsOf(id: string, s: Stored, now: int): seq<NewRun> {
    if s.spec == None then []
    else
      var fire := Pass(s.spec.value, s.row, now).1;
      if fire == None then []
      else [NewRun(id, s.agent, if fire.value.missed then Missed else Pending, fire.value.at)]
  }

  function RunsOfAll(schedules: map<string, Stored>, due: seq<string>, now: int): seq<NewRun>
    requires forall id :: id in due ==> id in schedules
  {
    if due == [] then []
    else
      var n := |due| - 1;
      RunsOfAll(schedules, due[..n], now) + RunsOf(due[n], schedules[due[n]], now)
  }

  /** The run a pass inserts for a schedule, and the schedule's row after it. */
  ghost predicate Materialized(id: string, before: Stored, after: Stored, run: NewRun, now: int)
    requires before.spec.Some? && before.row.nextFireAt.Some?
  {
    var spec, start := before.spec.value, before.row.nextFireAt.value;
    && run.schedule == id && run.agent == before.agent
    && run.status == (if now - run.scheduledFor > 300 then Missed else Pending)
    && after == before.(row := after.row) && after.row.lastFiredWall == Some(spec.WallClock(run.scheduledFor))
    && (spec.Valid() && !CutShort(spec, start, now) ==>
          Latest(spec, start, now, run.scheduledFor, after.row.nextFireAt))
  }

  lemma RunsOfMeans(id: string, s: Stored, now: int)
    requires s.spec.Some? && Due(s.row, now)
    ensures |RunsOf(id, s, now)| == 1 && Materialized(id, s, Advanced(s, now), RunsOf(id, s, now)[0], now)
  {
    if s.spec.value.Valid() {
      CatchUpExactIff(s.spec.value, s.row.nextFireAt.value, now);
    }
  }

  /** The runs a pass adds: one for each schedule due that parses, and no others. */
  ghost predicate AddedFor(
      before: map<string, Stored>, after: map<string, Stored>, due: seq<string>, added: seq<NewRun>, now: int)
    requires forall id :: id in due ==> id in before && id in after && before[id].row.nextFireAt.Some?
  {
    && (forall k :: 0 <= k < |added| ==>
          && added[k].schedule in due && before[added[k].schedule].spec.Some?
          && Materialized(added[k].schedule, before[added[k].schedule], after[added[k].schedule], added[k], now))
    && (forall j, k :: 0 <= j < k < |added| ==> added[j].schedule != added[k].schedule)
    && (forall id :: id in due && before[id].spec.Some? ==> HasRun(added, id))
  }

  ghost predicate HasRun(runs: seq<NewRun>, id: string) {
    exists k :: 0 <= k < |runs| && runs[k].schedule == id
  }

  ghost predicate AllDue(schedules: map<string, Stored>, due: seq<string>, now: int) {
    && (forall id :: id in due ==> id in schedules && Due(schedules[id].row, now))
    && (forall i, j :: 0 <= i < j < |due| ==> due[i] != due[j])
  }

  lemma {:induction false} RunsOfAllMeans(
      before: map<string, Stored>, after: map<string, Stored>, due: seq<string>, now: int)
    requires AllDue(before, due, now)
    requires forall id :: id in due ==> id in after && after[id] == Advanced(before[id], now)
    ensures AddedFor(before, after, due, RunsOfAll(before, due, now), now)
  {
    if due != [] {
      var n := |due| - 1;
      var id, front := due[n], RunsOfAll(before, due[..n], now);
      assert due == due[..n] + [id];
      RunsOfAllMeans(before, after, due[..n], now);
      if before[id].spec.Some? {
        RunsOfMeans(id, before[id], now);
        OneMoreRun(before, after, due[..n], front, id, RunsOf(id, before[id], now)[0], now);
      } else {
        assert RunsOfAll(before, due, now) == front;
        NoMoreRun(before, after, due[..n], front, id, now);
      }
    }
  }

  lemma OneMoreRun(
      before: map<string, Stored>, after: map<string, Stored>, due: seq<string>, added: seq<NewRun>,
      id: string, run: NewRun, now: int)
    requires forall x :: x in due + [id] ==> x in before && x in after && before[x].row.nextFireAt.Some?
    requires AddedFor(before, after, due, added, now) && id !in due && before[id].spec.Some?
    requires Materialized(id, before[id], after[id], run, now)
    ensures AddedFor(before, after, due + [id], added + [run], now)
  {
    var more := added + [run];
    forall x | x in due + [id] && before[x].spec.Some?
      ensures HasRun(more, x)
    {
      if x == id {
        assert more[|added|].schedule == x;
      } else {
        assert HasRun(added, x);
        var k :| 0 <= k < |added| && added[k].schedule == x;
        assert more[k].schedule == x;
      }
    }
  }

  lemma NoMoreRun(
      before: map<string, Stored>, after: map<string, Stored>, due: seq<string>, added: seq<NewRun>,
      id: string, now: int)
    requires forall x :: x in due + [id] ==> x in before && x in after && before[x].row.nextFireAt.Some?
    requires AddedFor(before, after, due, added, now) && before[id].spec == None
    ensures AddedFor(before, after, due + [id], added, now)
  {
  }

  /** A pass runs the schedules that are enabled, as their agents are, and whose next fire time has come. */
  ghost predicate RanDue(
      before: map<string, Stored>, locked: set<string>, added: seq<NewRun>, now: int)
  {
    forall id :: id in before && id !in locked ==>
      (HasRun(added, id) <==>
        && before[id].spec.Some? && before[id].enabled && before[id].agentEnabled
        && before[id].row.nextFireAt.Some? && before[id].row.nextFireAt.value <= now)
  }

  lemma PassMeans(
      before: map<string, Stored>, after: map<string, Stored>, locked: set<string>, due: seq<string>, now: int)
    requires Selected(before, locked, now, due) && AdvancedExactly(before, after, due, now)
    ensures forall id :: id in due ==> id in before && id in after && before[id].row.nextFireAt.Some?
    ensures AddedFor(before, after, due, RunsOfAll(before, due, now), now)
    ensures RanDue(before, locked, RunsOfAll(before, due, now), now)
  {
    RunsOfAllMeans(before, after, due, now);
    var added := RunsOfAll(before, due, now);
    forall id | id in before && id !in locked
      ensures HasRun(added, id) <==> id in due && before[id].spec.Some?
    {
      if HasRun(added, id) {
        var k :| 0 <= k < |added| && added[k].schedule == id;
        assert added[k].schedule in due;
      }
    }
  }

  class Materializer {
    var schedules: map<string, Stored>
    var runs: seq<NewRun>

    /** One due schedule: its run is inserted and its next fire time stored. */
    method MaterializeOne(id: string, now: int) returns (created: nat)
      requires id in schedules && Due(schedules[id].row, now)
      modifies this
      ensures schedules == old(schedules)[id := Advanced(old(schedules)[id], now)]
      ensures runs == old(runs) + RunsOf(id, old(schedules)[id], now)
      ensures created == |RunsOf(id, old(schedules)[id], now)|
      ensures old(schedules)[id].spec == None ==> created == 0 && schedules == old(schedules) && runs == old(runs)
      ensures old(schedules)[id].spec.Some? ==>
        && created == 1 && |runs| == |old(runs)| + 1 && old(runs) <= runs && schedules.Keys == old(schedules).Keys
        && Materialized(id, old(schedules)[id], schedules[id], runs[|old(runs)|], now)
        && forall x :: x in schedules && x != id ==> schedules[x] == old(schedules)[x]
    {
      var item := schedules[id];
      if item.spec == None {
        // An expression that no longer parses is skipped, not dropped.
        return 0;
      }
      RunsOfMeans(id, item, now);
      var fireAt, nextFireAt, missed := ResolveFireTimes(item.spec.value, item.row.nextFireAt.value, now);
      runs := runs + [NewRun(id, item.agent, if missed then Missed else Pending, fireAt)];
      schedules := schedules[id := item.(row := Row(nextFireAt, Some(item.spec.value.WallClock(fireAt))))];
      return 1;
    }

    /**
     One pass. `due` is the result of the query; `commits` is false when a statement or the commit
     failed, in which case the transaction is rolled back.
     */
    method RunOnce(now: int, ghost locked: set<string>, due: seq<string>, commits: bool) returns (created: nat)
      requires Selected(schedules, locked, now, due)
      modifies this
      ensures !commits ==> created == 0 && schedules == old(schedules) && runs == old(runs)
      ensures commits ==>
        Done(old(schedules), old(runs), schedules, runs, created, due, now)
      ensures commits ==> |old(runs)| + created == |runs| && old(runs) <= runs
      ensures commits ==> forall id :: id in due ==> id in old(schedules) && id in schedules
      ensures commits ==> AddedFor(old(schedules), schedules, due, runs[|old(runs)|..], now)
      ensures commits ==> RanDue(old(schedules), locked, runs[|old(runs)|..], now)
    {
      if !commits {
        return 0;
      }
      ghost var before, ran := schedules, runs;
      created := 0;
      assert due[..0] == [];
      for i := 0 to |due|
        invariant Done(before, ran, schedules, runs, created, due[..i], now)
      {
        SelectedOnce(before, locked, now, due, i);
        created := MaterializeNext(before, ran, due[..i], created, due[i], now);
      }
      assert due[..|due|] == due;
      PassMeans(before, schedules, locked, due, now);
      assert runs[|ran|..] == RunsOfAll(before, due, now);
    }

    /** One turn of the loop: `before` and `ran` are the tables as the pass found them. */
    method MaterializeNext(ghost before: map<string, Stored>, ghost ran: seq<NewRun>, ghost prefix: seq<string>,
                           created: nat, id: string, now: int)
      returns (created': nat)
      requires Done(before, ran, schedules, runs, created, prefix, now)
      requires id in before && id !in prefix && Due(before[id].row, now)
      modifies this
      ensures Done(before, ran, schedules, runs, created', prefix + [id], now)
    {
      ghost var after, soFar, more := schedules, runs, RunsOf(id, before[id], now);
      OneMoreDone(before, ran, after, soFar, created, prefix, id, now);
      var n := MaterializeOne(id, now);
      assert schedules == after[id := Advanced(before[id], now)];
      assert runs == soFar + more && n == |more|;
      created' := created + n;
    }
  }

  lemma SelectedOnce(schedules: map<string, Stored>, locked: set<string>, now: int, due: seq<string>, i: nat)
    requires Selected(schedules, locked, now, due) && i < |due|
    ensures due[i] !in due[..i] && due[i] in schedules && Due(schedules[due[i]].row, now)
    ensures due[..i + 1] == due[..i] + [due[i]]
  {
    assert due[i] in due;
  }

  /** What a pass over `due` did: each schedule advanced once, with the run it is due for. */
  ghost predicate Done(before: map<string, Stored>, ran: seq<NewRun>, after: map<string, Stored>, runs: seq<NewRun>,
                       created: nat, due: seq<string>, now: int)
  {
    && AdvancedExactly(before, after, due, now)
    && (forall id :: id in due ==> id in before)
    && runs == ran + RunsOfAll(before, due, now)
    && created == |RunsOfAll(before, due, now)|
  }

  lemma OneMoreDone(before: map<string, Stored>, ran: seq<NewRun>, after: map<string, Stored>, runs: seq<NewRun>,
                    created: nat, due: seq<string>, id: string, now: int)
    requires Done(before, ran, after, runs, created, due, now) && id in before && id !in due
    ensures after[id] == before[id]
    ensures var more := RunsOf(id, before[id], now);
            Done(before, ran, after[id := Advanced(before[id], now)], runs + more, created + |more|, due + [id], now)
  {
    AdvancedOneMore(before, after, due, id, now);
    RunsOfOneMore(before, due, id, now);
  }

  /** The schedules in `due` made one pass; all others are as they were. */
  ghost predicate AdvancedExactly(before: map<string, Stored>, after: map<string, Stored>, due: seq<string>, now: int) {
    && after.Keys == before.Keys
    && forall id :: id in before ==> after[id] == if id in due then Advanced(before[id], now) else before[id]
  }

  lemma AdvancedOneMore(before: map<string, Stored>, after: map<string, Stored>, due: seq<string>, id: string, now: int)
    requires AdvancedExactly(before, after, due, now) && id in before && id !in due
    ensures after[id] == before[id]
    ensures AdvancedExactly(before, after[id := Advanced(before[id], now)], due + [id], now)
  {
  }

  lemma RunsOfOneMore(schedules: map<string, Stored>, due: seq<string>, id: string, now: int)
    requires id in schedules && forall x :: x in due ==> x in schedules
    ensures RunsOfAll(schedules, due + [id], now) == RunsOfAll(schedules, due, now) + RunsOf(id, schedules[id], now)
  {
    assert (due + [id])[..|due|] == due;
  }
}
