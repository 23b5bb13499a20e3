/**
 Fire times of a cron expression in a time zone (pkg/schedule/schedule.go). Instants and wall-clock
 readings are counted in seconds. The cron library and the zone database are parameters of a `Spec`.
 */
module Schedule {
  import opened Common

  const MINIMUM_INTERVAL: int := 300

  /**
   `matches` is the expression, a predicate on wall-clock readings; `offset` is the zone's UTC offset
   at an instant; `cron` is the library's search for the next matching instant, which may give up.
   */
  datatype Spec = Spec(matches: int -> bool, offset: int -> int, cron: int -> Option<int>) {

    function WallClock(t: int): int {
      t + offset(t)
    }

    /** The library answers with the least matching instant strictly after the one it is given. */
    ghost predicate Valid() {
      forall t :: cron(t).Some? ==>
        && t < cron(t).value
        && matches(WallClock(cron(t).value))
        && forall u :: t < u < cron(t).value ==> !matches(WallClock(u))
    }

    /** The next fire time, skipping one that reads like the last; `None` is the zero time. */
    function Next(after: int, lastFiredWall: Option<int>): (next: Option<int>)
      ensures Valid() && next.Some? ==> after < next.value && matches(WallClock(next.value))
    {
      var candidate := cron(after);
      if candidate == None then None
      else if lastFiredWall == Some(WallClock(candidate.value)) then cron(candidate.value)
      else candidate
    }

    /** How the materializer advances: the reading of the current fire time guards the next. */
    function Guarded(t: int): Option<int> {
      Next(t, Some(WallClock(t)))
    }

    /** The `k`th fire time the library finds from `start` on. */
    function Raw(start: int, k: nat): Option<int> {
      if k == 0 then Some(start)
      else
        var t := Raw(start, k - 1);
        if t == None then None else cron(t.value)
    }

    /** The `k`th fire time of the guarded chain from `start` on. */
    function Chain(start: int, k: nat): Option<int> {
      if k == 0 then Some(start)
      else
        var t := Chain(start, k - 1);
        if t == None then None else Guarded(t.value)
    }
  }

  predicate MatchBetween(spec: Spec, after: int, u: int, next: int) {
    after < u < next && spec.matches(spec.WallClock(u))
  }

  /**
   The next fire time is the least matching instant after the given one, except that the first of them
   is passed over if, and only if, it reads like the last fire.
   */
  lemma NextPassesOverOneReading(spec: Spec, after: int, lastFiredWall: Option<int>)
    requires spec.Valid() && spec.Next(after, lastFiredWall).Some?
    ensures var next := spec.Next(after, lastFiredWall).value;
            && (forall u, v :: MatchBetween(spec, after, u, next) && MatchBetween(spec, after, v, next) ==> u == v)
            && (forall u :: MatchBetween(spec, after, u, next) ==> lastFiredWall == Some(spec.WallClock(u)))
            && (lastFiredWall == Some(spec.WallClock(next)) ==> exists u :: MatchBetween(spec, after, u, next))
  {
    var first, next := spec.cron(after).value, spec.Next(after, lastFiredWall).value;
    if first != next {
      assert MatchBetween(spec, after, first, next);
    }
  }

  /**
   There is no next fire time exactly if the search gives up, at once or on looking past a reading equal to
   the last; without a last reading the next fire time is the search's own answer.
   */
  lemma NextEndsIff(spec: Spec, after: int, lastFiredWall: Option<int>)
    ensures spec.Next(after, lastFiredWall) == None <==>
      || spec.cron(after) == None
      || (lastFiredWall == Some(spec.WallClock(spec.cron(after).value)) && spec.cron(spec.cron(after).value) == None)
    ensures lastFiredWall == None ==> spec.Next(after, lastFiredWall) == spec.cron(after)
    ensures spec.cron(after).Some? ==>
      var first := spec.cron(after).value;
      lastFiredWall != Some(first + spec.offset(first)) ==> spec.Next(after, lastFiredWall) == Some(first)
  {
  }

  // -- The chain -------------------------------------------------------------------------

  lemma {:induction false} ChainIncreases(spec: Spec, start: int, i: nat, j: nat)
    requires spec.Valid() && i < j && spec.Chain(start, j).Some?
    ensures spec.Chain(start, i).Some? && spec.Chain(start, i).value < spec.Chain(start, j).value
  {
    if i < j - 1 {
      ChainIncreases(spec, start, i, j - 1);
    }
  }

  /** A chain continued from one of its elements is the rest of the chain. */
  lemma {:induction false} ChainSuffix(spec: Spec, start: int, m: nat, k: nat)
    requires spec.Chain(start, m).Some?
    ensures spec.Chain(spec.Chain(start, m).value, k) == spec.Chain(start, m + k)
  {
    if k > 0 {
      ChainSuffix(spec, start, m, k - 1);
    }
  }

  // -- Daylight saving -------------------------------------------------------------------

  /** The raw fire at `p` and its successor read the same. */
  ghost predicate Repeats(spec: Spec, start: int, p: nat) {
    && spec.Raw(start, p).Some? && spec.Raw(start, p + 1).Some?
    && spec.WallClock(spec.Raw(start, p).value) == spec.WallClock(spec.Raw(start, p + 1).value)
  }

  /** Where the `k`th element of the guarded chain stands among the raw fires. */
  ghost function Position(spec: Spec, start: int, k: nat): nat {
    if k == 0 then 0
    else
      var p := Position(spec, start, k - 1);
      if Repeats(spec, start, p) then p + 2 else p + 1
  }

  lemma {:induction false} ChainIsRaw(spec: Spec, start: int, k: nat)
    ensures spec.Chain(start, k) == spec.Raw(start, Position(spec, start, k))
  {
    if k > 0 {
      ChainIsRaw(spec, start, k - 1);
      var p := Position(spec, start, k - 1);
      assert spec.Raw(start, p + 2) ==
             if spec.Raw(start, p + 1) == None then None else spec.cron(spec.Raw(start, p + 1).value);
    }
  }

  lemma {:induction false} PositionIncreases(spec: Spec, start: int, i: nat, j: nat)
    requires i < j
    ensures Position(spec, start, i) < Position(spec, start, j)
    ensures Position(spec, start, i + 1) <= Position(spec, start, j)
  {
    if i < j - 1 {
      PositionIncreases(spec, start, i, j - 1);
    }
  }

  /** The guard skips a raw fire only when its immediate predecessor fired and reads the same. */
  lemma {:induction false} SkippedOnlyAsRepeat(spec: Spec, start: int, p: nat) returns (k: nat)
    ensures || Position(spec, start, k) == p
            || (p > 0 && Position(spec, start, k) == p - 1 && Repeats(spec, start, p - 1))
  {
    if p == 0 {
      k := 0;
    } else {
      k := SkippedOnlyAsRepeat(spec, start, p - 1);
      if Position(spec, start, k) == p - 1 {
        if !Repeats(spec, start, p - 1) {
          k := k + 1;
        }
      } else {
        k := k + 1;
      }
    }
  }

  ghost predicate SameReading(spec: Spec, a: Option<int>, b: Option<int>) {
    a.Some? && b.Some? && spec.WallClock(a.value) == spec.WallClock(b.value)
  }

  /** The guarded chain never shows the user the same clock reading twice. */
  ghost predicate DistinctReadings(spec: Spec, start: int) {
    forall i: nat, j: nat :: i < j ==> !SameReading(spec, spec.Chain(start, i), spec.Chain(start, j))
  }

  /** No fire lies strictly between two fires with the same reading. */
  ghost predicate RepeatsAreAdjacent(spec: Spec, start: int) {
    forall p: nat, q: nat :: p < q && SameReading(spec, spec.Raw(start, p), spec.Raw(start, q)) ==> q == p + 1
  }

  /** No reading is shown by three fires: a zone sets its clock back over a reading at most once. */
  ghost predicate AtMostTwice(spec: Spec, start: int) {
    forall p: nat, q: nat, r: nat :: p < q < r ==>
      !(SameReading(spec, spec.Raw(start, p), spec.Raw(start, q))
        && SameReading(spec, spec.Raw(start, q), spec.Raw(start, r)))
  }

  lemma AdjacentRepeatsAreSkipped(spec: Spec, start: int)
    requires RepeatsAreAdjacent(spec, start)
    ensures DistinctReadings(spec, start)
  {
    forall i: nat, j: nat | i < j
      ensures !SameReading(spec, spec.Chain(start, i), spec.Chain(start, j))
    {
      ChainIsRaw(spec, start, i);
      ChainIsRaw(spec, start, j);
      PositionIncreases(spec, start, i, j);
      var p, q := Position(spec, start, i), Position(spec, start, j);
      if SameReading(spec, spec.Raw(start, p), spec.Raw(start, q)) {
        assert q == p + 1 && Repeats(spec, start, p);
        assert false;
      }
    }
  }

  lemma FireIsInChain(spec: Spec, start: int, p: nat, q: nat, fire: nat) returns (k: nat)
    requires AtMostTwice(spec, start)
    requires p + 1 < q && SameReading(spec, spec.Raw(start, p), spec.Raw(start, q))
    requires fire == p || fire == q
    ensures Position(spec, start, k) == fire
  {
    k := SkippedOnlyAsRepeat(spec, start, fire);
    assert fire > 0 && Repeats(spec, start, fire - 1) ==>
        SameReading(spec, spec.Raw(start, fire - 1), spec.Raw(start, fire));
  }

  /**
   In a zone that shows no reading three times, a schedule is free of repeated readings for its whole
   life if and only if no fire of its expression lies between two fires that read the same.
   */
  lemma DistinctReadingsIff(spec: Spec, start: int)
    requires AtMostTwice(spec, start)
    ensures DistinctReadings(spec, start) <==> RepeatsAreAdjacent(spec, start)
  {
    if RepeatsAreAdjacent(spec, start) {
      AdjacentRepeatsAreSkipped(spec, start);
    } else {
      var p: nat, q: nat :| p < q && SameReading(spec, spec.Raw(start, p), spec.Raw(start, q)) && q != p + 1;
      var i := FireIsInChain(spec, start, p, q, p);
      var j := FireIsInChain(spec, start, p, q, q);
      ChainIsRaw(spec, start, i);
      ChainIsRaw(spec, start, j);
      if j <= i {
        if j < i { PositionIncreases(spec, start, j, i); }
        assert false;
      }
    }
  }

  /** One step of the guarded chain repeats a reading only if three fires in a row show it. */
  lemma ConsecutiveRepeatIff(spec: Spec, t: int)
    ensures SameReading(spec, Some(t), spec.Guarded(t)) <==>
      && SameReading(spec, Some(t), spec.cron(t))
      && SameReading(spec, Some(t), spec.cron(spec.cron(t).value))
  {
  }

  /** Every half hour, in a zone whose clock goes back one hour at instant 7200. */
  function HalfHourly(): Spec {
    Spec(w => w % 1800 == 0,
         t => if t < 7200 then 3600 else 0,
         t => Some((t / 1800 + 1) * 1800))
  }

  lemma HalfHourlyNext(t: int, u: int)
    ensures var next := HalfHourly().cron(t).value;
            && t < next && HalfHourly().matches(HalfHourly().WallClock(next))
            && (t < u < next ==> !HalfHourly().matches(HalfHourly().WallClock(u)))
  {
    var q := t / 1800;
    assert q * 1800 <= t < (q + 1) * 1800;
    assert t < u < (q + 1) * 1800 ==> u % 1800 != 0;
  }

  /** The guard looks at one previous fire only: half-hourly fires repeat the autumn hour. */
  lemma HalfHourlyRepeats()
    ensures HalfHourly().Valid()
    ensures var wall := t => HalfHourly().WallClock(t);
            forall t, u, v :: t < u < v ==> !(wall(t) == wall(u) == wall(v))
    ensures !DistinctReadings(HalfHourly(), 3600)
  {
    forall t, u
      ensures var next := HalfHourly().cron(t).value;
              && t < next && HalfHourly().matches(HalfHourly().WallClock(next))
              && (t < u < next ==> !HalfHourly().matches(HalfHourly().WallClock(u)))
    {
      HalfHourlyNext(t, u);
    }
    var spec := HalfHourly();
    assert spec.Chain(3600, 1) == Some(5400);
    assert spec.Chain(3600, 2) == Some(7200);
    assert SameReading(spec, spec.Chain(3600, 0), spec.Chain(3600, 2));
  }

  // -- The spring gap --------------------------------------------------------------------

  /** At instant `jump` the clock jumps from offset `before` to `after`: the readings in between never show. */
  ghost predicate ForwardJump(spec: Spec, jump: int, before: int, after: int) {
    && before < after
    && (forall t :: t < jump ==> spec.WallClock(t) < jump + before)
    && (forall t :: t >= jump ==> spec.WallClock(t) >= jump + after)
  }

  predicate Skipped(jump: int, before: int, after: int, reading: int) {
    jump + before <= reading < jump + after
  }

  /**
   Such a jump is what a rise of the offset at `jump` makes, if the offset is constant for a while on both
   sides and nowhere differs from these values by more than that while.
   */
  lemma OffsetRiseIsAJump(spec: Spec, jump: int, before: int, after: int, steady: nat)
    requires before < after
    requires forall t :: jump - steady <= t < jump ==> spec.offset(t) == before
    requires forall t :: jump <= t < jump + steady ==> spec.offset(t) == after
    requires forall t {:trigger spec.offset(t)} :: after - steady <= spec.offset(t) <= before + steady
    ensures ForwardJump(spec, jump, before, after)
  {
    forall t
      ensures t < jump ==> spec.WallClock(t) < jump + before
      ensures t >= jump ==> spec.WallClock(t) >= jump + after
    {
      assert after - steady <= spec.offset(t) <= before + steady;
    }
  }

  /** No fire, the saved one included, reads inside the skipped interval. */
  lemma SkippedReadingsNeverFire(spec: Spec, jump: int, before: int, after: int, start: int, k: nat)
    requires ForwardJump(spec, jump, before, after) && spec.Chain(start, k).Some?
    ensures !Skipped(jump, before, after, spec.WallClock(spec.Chain(start, k).value))
  {
    var t := spec.Chain(start, k).value;
    assert t < jump || t >= jump;
  }

  /** Among the readings of a day, the expression matches only skipped ones. */
  ghost predicate OnlySkipped(spec: Spec, jump: int, before: int, after: int, dawn: int, dusk: int) {
    forall reading :: dawn <= reading < dusk && spec.matches(reading) ==> Skipped(jump, before, after, reading)
  }

  /**
   An expression that on one day matches only skipped readings does not fire that day: from a match
   before the day the search goes straight to the match after it.
   */
  lemma SkippedDayIsNotFired(spec: Spec, jump: int, before: int, after: int, dawn: int, dusk: int, p: int, q: int)
    requires spec.Valid() && ForwardJump(spec, jump, before, after)
    requires OnlySkipped(spec, jump, before, after, dawn, dusk)
    requires p < q && spec.matches(spec.WallClock(q))
    requires forall u :: p < u < q ==> dawn <= spec.WallClock(u) < dusk
    ensures spec.cron(p).Some? ==> spec.cron(p) == Some(q)
    ensures spec.cron(p).Some? && spec.WallClock(p) != spec.WallClock(q) ==> spec.Guarded(p) == Some(q)
  {
    forall u | p < u < q
      ensures !spec.matches(spec.WallClock(u))
    {
      assert u < jump || u >= jump;
    }
  }

  lemma NoFireOnASkippedDay(spec: Spec, jump: int, before: int, after: int, dawn: int, dusk: int, start: int, k: nat)
    requires spec.Valid() && ForwardJump(spec, jump, before, after)
    requires OnlySkipped(spec, jump, before, after, dawn, dusk)
    requires spec.matches(spec.WallClock(start)) && spec.Chain(start, k).Some?
    ensures !(dawn <= spec.WallClock(spec.Chain(start, k).value) < dusk)
  {
    SkippedReadingsNeverFire(spec, jump, before, after, start, k);
    if k > 0 {
      assert spec.Chain(start, k) == spec.Guarded(spec.Chain(start, k - 1).value);
    }
  }

  /** Daily at 02:30, in a zone whose clock jumps from 02:00 to 03:00 at instant 7200. */
  function HalfPastTwo(): Spec {
    Spec(w => w % 86400 == 9000,
         t => if t < 7200 then 0 else 3600,
         t => Some(if t < -77400 then ((t - 9000) / 86400 + 1) * 86400 + 9000
                   else if t < 91800 then 91800
                   else ((t - 5400) / 86400 + 1) * 86400 + 5400))
  }

  lemma HalfPastTwoNext(t: int, u: int)
    ensures var next := HalfPastTwo().cron(t).value;
            && t < next && HalfPastTwo().matches(HalfPastTwo().WallClock(next))
            && (t < u < next ==> !HalfPastTwo().matches(HalfPastTwo().WallClock(u)))
  {
    if t < -77400 {
      DailyNext(t, 9000, u);
    } else if t >= 91800 {
      DailyNext(t, 5400, u);
    } else {
      DailyNext(-77400, 9000, u);
      DailyNext(5400, 5400, u);
    }
  }

  /** The next instant that leaves remainder `r` on division by a day. */
  lemma DailyNext(t: int, r: int, u: int)
    requires 0 <= r < 86400
    ensures var next := ((t - r) / 86400 + 1) * 86400 + r;
            t < next <= t + 86400 && next % 86400 == r && (t < u < next ==> u % 86400 != r)
  {
  }

  lemma HalfPastTwoIsSkippedOnce()
    ensures HalfPastTwo().Valid() && ForwardJump(HalfPastTwo(), 7200, 0, 3600)
    ensures OnlySkipped(HalfPastTwo(), 7200, 0, 3600, 0, 86400)
    ensures HalfPastTwo().Guarded(-77400) == Some(91800)
    ensures HalfPastTwo().WallClock(-77400) == -86400 + 9000 && HalfPastTwo().WallClock(91800) == 86400 + 9000
  {
    forall t, u
      ensures var next := HalfPastTwo().cron(t).value;
              && t < next && HalfPastTwo().matches(HalfPastTwo().WallClock(next))
              && (t < u < next ==> !HalfPastTwo().matches(HalfPastTwo().WallClock(u)))
    {
      HalfPastTwoNext(t, u);
    }
  }

  // -- Granularity -----------------------------------------------------------------------

  datatype Granularity = Accepted | NeverFires | TooOften

  /** `reference` is the start of 1 June 2025 in the schedule's zone. */
  function CheckGranularity(spec: Spec, reference: int): (g: Granularity)
    ensures g == NeverFires <==> spec.Raw(reference, 1) == None
    ensures g == TooOften <==>
      && spec.Raw(reference, 1).Some? && spec.Raw(reference, 2).Some?
      && spec.Raw(reference, 2).value - spec.Raw(reference, 1).value < MINIMUM_INTERVAL
  {
    var first := spec.cron(reference);
    assert first == spec.Raw(reference, 1);
    assert first.Some? ==> spec.cron(first.value) == spec.Raw(reference, 2);
    if first == None then NeverFires
    else if spec.cron(first.value) == None then Accepted
    else if spec.cron(first.value).value - first.value < MINIMUM_INTERVAL then TooOften
    else Accepted
  }

  /** Consecutive fires of the expression, from the first after `reference` on, are at least `gap` apart. */
  ghost predicate RawGapsAtLeast(spec: Spec, reference: int, gap: int) {
    forall j: nat, k: nat :: 0 < j && k == j + 1 && spec.Raw(reference, j).Some? && spec.Raw(reference, k).Some? ==>
      spec.Raw(reference, k).value - spec.Raw(reference, j).value >= gap
  }

  /** No gap of the expression is shorter than its first one after the reference. */
  ghost predicate FirstGapIsLeast(spec: Spec, reference: int) {
    spec.Raw(reference, 1).Some? && spec.Raw(reference, 2).Some? ==>
      RawGapsAtLeast(spec, reference, spec.Raw(reference, 2).value - spec.Raw(reference, 1).value)
  }

  lemma {:induction false} RawStops(spec: Spec, start: int, j: nat, k: nat)
    requires j <= k && spec.Raw(start, j) == None
    ensures spec.Raw(start, k) == None
  {
    if j < k {
      RawStops(spec, start, j, k - 1);
    }
  }

  /** An expression whose fires are all five minutes apart is accepted, whatever else holds of it. */
  lemma SpacedIsAccepted(spec: Spec, reference: int)
    requires spec.Raw(reference, 1).Some? && RawGapsAtLeast(spec, reference, MINIMUM_INTERVAL)
    ensures CheckGranularity(spec, reference) == Accepted
  {
  }

  /**
   The check measures one gap. For an expression whose first gap is its shortest, being accepted means
   firing, and never twice within five minutes; without that it may be accepted and fire more often.
   */
  lemma AcceptedIffSpaced(spec: Spec, reference: int)
    requires FirstGapIsLeast(spec, reference)
    ensures CheckGranularity(spec, reference) == Accepted <==>
      spec.Raw(reference, 1).Some? && RawGapsAtLeast(spec, reference, MINIMUM_INTERVAL)
  {
    if spec.Raw(reference, 1).Some? && spec.Raw(reference, 2) == None {
      forall j: nat, k: nat | 0 < j && k == j + 1 && spec.Raw(reference, j).Some?
        ensures spec.Raw(reference, k) == None
      {
        RawStops(spec, reference, 2, k);
      }
    }
  }

  /** The library gives up only if nothing matches any more. */
  ghost predicate Exhaustive(spec: Spec) {
    forall t, u :: spec.cron(t) == None && t < u ==> !spec.matches(spec.WallClock(u))
  }

  lemma {:induction false} MatchIsRaw(spec: Spec, reference: int, k: nat, t: int) returns (m: nat)
    requires spec.Valid() && Exhaustive(spec) && spec.matches(spec.WallClock(t))
    requires spec.Raw(reference, k).Some? && spec.Raw(reference, k).value < t
    ensures m > k && spec.Raw(reference, m) == Some(t)
    decreases t - spec.Raw(reference, k).value
  {
    var here := spec.Raw(reference, k).value;
    var next := spec.cron(here);
    assert spec.Raw(reference, k + 1) == next;
    assert next.Some?;
    if next.value == t {
      m := k + 1;
    } else {
      assert next.value < t;
      m := MatchIsRaw(spec, reference, k + 1, t);
    }
  }

  /** The fire time saved with a schedule at or after the reference is one of the fires the check is about. */
  lemma SavedFireIsRaw(spec: Spec, reference: int, now: int) returns (m: nat)
    requires spec.Valid() && Exhaustive(spec) && reference <= now && spec.Next(now, None).Some?
    ensures m > 0 && spec.Raw(reference, m) == spec.Next(now, None)
  {
    m := MatchIsRaw(spec, reference, 0, spec.Next(now, None).value);
  }

  lemma {:induction false} RawSuffix(spec: Spec, reference: int, m: nat, k: nat)
    requires spec.Raw(reference, m).Some?
    ensures spec.Raw(spec.Raw(reference, m).value, k) == spec.Raw(reference, m + k)
  {
    if k > 0 {
      RawSuffix(spec, reference, m, k - 1);
    }
  }

  lemma {:induction false} RawGapsAddUp(spec: Spec, reference: int, gap: nat, j: nat, k: nat)
    requires RawGapsAtLeast(spec, reference, gap) && 0 < j < k && spec.Raw(reference, k).Some?
    ensures spec.Raw(reference, j).Some? && spec.Raw(reference, k).value - spec.Raw(reference, j).value >= gap
  {
    assert spec.Raw(reference, k - 1).Some?;
    if j < k - 1 {
      RawGapsAddUp(spec, reference, gap, j, k - 1);
    }
  }

  /** The guard only drops fires, so the chain from any of the expression's fires is as widely spaced. */
  lemma ChainGapsAtLeast(spec: Spec, reference: int, m: nat, gap: nat, j: nat, k: nat)
    requires RawGapsAtLeast(spec, reference, gap) && m > 0 && spec.Raw(reference, m).Some? && j < k
    requires spec.Chain(spec.Raw(reference, m).value, k).Some?
    ensures var start := spec.Raw(reference, m).value;
            spec.Chain(start, j).Some? && spec.Chain(start, k).value - spec.Chain(start, j).value >= gap
  {
    var start := spec.Raw(reference, m).value;
    var p, q := Position(spec, start, j), Position(spec, start, k);
    ChainIsRaw(spec, start, j);
    ChainIsRaw(spec, start, k);
    PositionIncreases(spec, start, j, k);
    RawSuffix(spec, reference, m, p);
    RawSuffix(spec, reference, m, q);
    RawGapsAddUp(spec, reference, gap, m + p, m + q);
  }

  /** `0,1 0 * * *` in a zone without transitions: midnight and one minute past. */
  function MidnightTwice(): Spec {
    Spec(w => w % 86400 == 0 || w % 86400 == 60,
         t => 0,
         t => Some(if t % 86400 < 60 then t / 86400 * 86400 + 60 else (t / 86400 + 1) * 86400))
  }

  lemma MidnightTwiceNext(t: int, u: int)
    ensures var next := MidnightTwice().cron(t).value;
            && t < next && MidnightTwice().matches(MidnightTwice().WallClock(next))
            && (t < u < next ==> !MidnightTwice().matches(MidnightTwice().WallClock(u)))
  {
    DailyNext(t, 0, u);
    DailyNext(t, 60, u);
  }

  /** Only the first gap after the reference is measured, so a one-minute gap can be accepted. */
  lemma OneMinuteGapIsAccepted()
    ensures MidnightTwice().Valid()
    ensures CheckGranularity(MidnightTwice(), 0) == Accepted
    ensures !RawGapsAtLeast(MidnightTwice(), 0, MINIMUM_INTERVAL)
  {
    forall t, u
      ensures var next := MidnightTwice().cron(t).value;
              && t < next && MidnightTwice().matches(MidnightTwice().WallClock(next))
              && (t < u < next ==> !MidnightTwice().matches(MidnightTwice().WallClock(u)))
    {
      MidnightTwiceNext(t, u);
    }
    var spec := MidnightTwice();
    assert spec.Raw(0, 1) == Some(60);
    assert spec.Raw(0, 2) == Some(86400);
    assert spec.Raw(0, 3) == Some(86460);
  }
}
