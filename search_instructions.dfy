/**
 * schedule_search_instructions.py: the search-instruction step generator
 * (`search_instruction_type` with its `add_step` closure), the orbit-type
 * offset-fraction table, the staleness clamp and the potential-window filter.
 *
 * Times are whole microseconds counted from a fixed origin (the resolution of
 * Python's datetime). A step's rendered start and end times keep whole
 * milliseconds: the `%f` field has six digits and `[:-4] + 'Z'` drops the last
 * three of them together with the 'Z'. Offsets are integer multipliers of the
 * along/cross offset, which is an exact `real` here.
 */
module SearchInstructions {
  import opened Wrappers

  /** Microseconds per second. */
  const Second: nat := 1_000_000

  /** Each step lasts 10 s, and the next one starts 10 s after it ends. */
  const StepDuration: nat := 10 * Second
  const IntervalDuration: nat := 10 * Second

  /** A step plus the pause after it. */
  const Period: nat := StepDuration + IntervalDuration

  /** The longest observation: 4 min 59 s. */
  const MaxDuration: nat := 299 * Second

  /** A time truncated to whole milliseconds, as the rendered timestamps are. */
  function Millis(t: nat): (r: nat)
    ensures r * 1000 <= t < r * 1000 + 1000
  {
    t / 1000
  }

  /** One entry of the `steps` list. Times are in milliseconds. */
  datatype SearchStep = SearchStep(
    alongTrackOffsetMeters: real,
    crossTrackOffsetMeters: real,
    radialOffsetMeters: real,
    startMillis: nat,
    endMillis: nat)

  /** A pattern entry: the along- and cross-track multipliers of the offset. */
  datatype Offsets = Offsets(along: int, cross: int)

  // ---------------------------------------------------------------------
  // Time slots

  /** The end of the observation: window start plus 4 min 59 s, or the window end if earlier. */
  function ObservationEnd(start: nat, end: nat): (r: nat)
    ensures r <= start + MaxDuration && r <= end
    ensures r == start + MaxDuration || r == end
  {
    if start + MaxDuration > end then end else start + MaxDuration
  }

  /** When the k-th step starts. */
  function StepStart(start: nat, k: nat): nat {
    start + k * Period
  }

  /** The k-th step ends no later than the observation end. */
  predicate Fits(start: nat, observationEnd: nat, k: nat) {
    StepStart(start, k) + StepDuration <= observationEnd
  }

  /** How many steps fit: exactly the first `r` slots do. */
  function SlotsThatFit(start: nat, observationEnd: nat): (r: nat)
    ensures forall k: nat :: Fits(start, observationEnd, k) <==> k < r
  {
    if start + StepDuration > observationEnd then 0
    else
      var room := observationEnd - start - StepDuration;
      forall k: nat ensures Fits(start, observationEnd, k) <==> k < room / Period + 1 {
        if k <= room / Period {
          assert k * Period <= (room / Period) * Period;
        } else {
          assert k * Period >= (room / Period + 1) * Period;
        }
      }
      room / Period + 1
  }

  // ---------------------------------------------------------------------
  // The steps a pattern yields

  /** The k-th planned step for pattern entry `m`. The radial offset is always 0. */
  function PlannedStep(m: Offsets, offset: real, start: nat, k: nat): SearchStep {
    SearchStep(m.along as real * offset, m.cross as real * offset, 0.0,
               Millis(StepStart(start, k)), Millis(StepStart(start, k) + StepDuration))
  }

  /** The steps for the first n entries of a pattern, all of them accepted. */
  function Prefix(pattern: seq<Offsets>, offset: real, start: nat, n: nat): seq<SearchStep>
    requires n <= |pattern|
  {
    seq(n, k requires 0 <= k < n => PlannedStep(pattern[k], offset, start, k))
  }

  function Min(a: nat, b: nat): nat {
    if a <= b then a else b
  }

  /**
   * The steps generated for a pattern: its entries in order, each in the next
   * slot, until the first one that does not fit.
   */
  function Schedule(pattern: seq<Offsets>, offset: real, start: nat, observationEnd: nat): seq<SearchStep> {
    Prefix(pattern, offset, start, Min(|pattern|, SlotsThatFit(start, observationEnd)))
  }

  lemma PrefixSnoc(pattern: seq<Offsets>, offset: real, start: nat, n: nat)
    requires n < |pattern|
    ensures Prefix(pattern, offset, start, n + 1) ==
            Prefix(pattern, offset, start, n) + [PlannedStep(pattern[n], offset, start, n)]
  {
  }

  /**
   * The schedule is a prefix of the pattern: step k carries the k-th
   * multipliers times the offset and a zero radial offset; no step ends after
   * the observation end; and it stops short of the pattern's end only when
   * the next slot would end too late.
   */
  lemma ScheduleFollowsPattern(pattern: seq<Offsets>, offset: real, start: nat, observationEnd: nat)
    ensures var r := Schedule(pattern, offset, start, observationEnd);
      |r| <= |pattern| &&
      (forall k :: 0 <= k < |r| ==>
         r[k].alongTrackOffsetMeters == pattern[k].along as real * offset &&
         r[k].crossTrackOffsetMeters == pattern[k].cross as real * offset &&
         r[k].radialOffsetMeters == 0.0 &&
         r[k].endMillis * 1000 <= observationEnd) &&
      (|r| < |pattern| ==> !Fits(start, observationEnd, |r|))
  {
    var r := Schedule(pattern, offset, start, observationEnd);
    forall k | 0 <= k < |r|
      ensures r[k].endMillis * 1000 <= observationEnd
    {
      assert Fits(start, observationEnd, k);
    }
  }

  lemma MillisShift(t: nat)
    ensures Millis(t + Period) == Millis(t) + Period / 1000
    ensures Millis(t + StepDuration) == Millis(t) + StepDuration / 1000
  {
  }

  /**
   * Every step lasts 10 s, and consecutive steps start 20 s apart (in the
   * rendered milliseconds).
   */
  lemma StepsTwentySecondsApart(pattern: seq<Offsets>, offset: real, start: nat, observationEnd: nat)
    ensures var r := Schedule(pattern, offset, start, observationEnd);
      (forall k :: 0 <= k < |r| ==> r[k].endMillis == r[k].startMillis + 10_000) &&
      (forall k :: 0 <= k < |r| - 1 ==> r[k + 1].startMillis == r[k].startMillis + 20_000)
  {
    var r := Schedule(pattern, offset, start, observationEnd);
    forall k | 0 <= k < |r|
      ensures r[k].endMillis == r[k].startMillis + 10_000
    {
      MillisShift(StepStart(start, k));
    }
    forall k | 0 <= k < |r| - 1
      ensures r[k + 1].startMillis == r[k].startMillis + 20_000
    {
      assert StepStart(start, k + 1) == StepStart(start, k) + Period;
      MillisShift(StepStart(start, k));
    }
  }

  // ---------------------------------------------------------------------
  // Search types and their patterns

  datatype SearchType = FlyingV | Raster | Spiral | Concentric | MoveAlongTrack | StayOnTarget | OneStep

  /** The name a search type is requested by. */
  function Name(t: SearchType): string {
    match t
    case FlyingV => "flyingv"
    case Raster => "raster"
    case Spiral => "spiral"
    case Concentric => "concentric"
    case MoveAlongTrack => "movealongtrack"
    case StayOnTarget => "stayontarget"
    case OneStep => "onestep"
  }

  /** The search type a name requests; any other name is invalid. */
  function ParseSearchType(s: string): (r: Option<SearchType>)
    ensures r.Some? ==> Name(r.value) == s
    ensures r.None? ==> forall t :: Name(t) != s
  {
    if s == "flyingv" then Some(FlyingV)
    else if s == "raster" then Some(Raster)
    else if s == "spiral" then Some(Spiral)
    else if s == "concentric" then Some(Concentric)
    else if s == "movealongtrack" then Some(MoveAlongTrack)
    else if s == "stayontarget" then Some(StayOnTarget)
    else if s == "onestep" then Some(OneStep)
    else None
  }

  lemma NameParses(t: SearchType)
    ensures ParseSearchType(Name(t)) == Some(t)
  {
  }

  const FlyingVOffsets: seq<Offsets> :=
    [Offsets(0, 0), Offsets(-1, 1), Offsets(2, 0), Offsets(-2, -1), Offsets(1, 1)]

  /** Raster: for i = 0..9, the pair (i, +1), (i, -1). */
  function RasterOffsets(): seq<Offsets> {
    seq(20, k requires 0 <= k < 20 => Offsets(k / 2, if k % 2 == 0 then 1 else -1))
  }

  lemma RasterPair(i: nat)
    requires i < 10
    ensures RasterOffsets()[2 * i] == Offsets(i, 1) && RasterOffsets()[2 * i + 1] == Offsets(i, -1)
  {
    assert (2 * i) / 2 == i && (2 * i) % 2 == 0;
    assert (2 * i + 1) / 2 == i && (2 * i + 1) % 2 == 1;
  }

  /** Spiral: (i, i) for i = 1..5. */
  function SpiralOffsets(): seq<Offsets> {
    seq(5, k requires 0 <= k < 5 => Offsets(k + 1, k + 1))
  }

  /** Concentric: the i-th direction scaled by i + 1. */
  const Directions: seq<Offsets> := [Offsets(1, 0), Offsets(0, 1), Offsets(-1, 0), Offsets(0, -1)]

  function ConcentricOffsets(): seq<Offsets> {
    seq(4, i requires 0 <= i < 4 => Offsets(Directions[i].along * (i + 1), Directions[i].cross * (i + 1)))
  }

  /** The along-track multiplier that follows j: one further out, on the other side. */
  function NextJ(j: int): int {
    if j > 0 then -(j + 1) else -(j - 1)
  }

  /** The k-th along-track multiplier: 1, -2, 3, -4, ... */
  function AlongJ(k: nat): int {
    if k == 0 then 1 else NextJ(AlongJ(k - 1))
  }

  /** The k-th multiplier has magnitude k + 1: they grow by one per step. */
  lemma {:induction false} AlongJMagnitude(k: nat)
    ensures (if AlongJ(k) < 0 then -AlongJ(k) else AlongJ(k)) == k + 1
  {
    if k > 0 {
      AlongJMagnitude(k - 1);
    }
  }

  /** The multipliers are positive at even k and negative at odd k. */
  lemma {:induction false} AlongJClosedForm(k: nat)
    ensures AlongJ(k) == if k % 2 == 0 then k + 1 else -(k + 1)
  {
    if k > 0 {
      AlongJClosedForm(k - 1);
    }
  }

  /** Move along track: multipliers 1, -2, 3, ... while |j| < 30, so 29 of them. */
  function MoveAlongTrackOffsets(): seq<Offsets> {
    seq(29, k requires 0 <= k < 29 => Offsets(AlongJ(k), 0))
  }

  /** Stay on target: as many zero steps as whole periods fit in 4 min 59 s (14). */
  const StayOnTargetSteps: nat := MaxDuration / Period

  function StayOnTargetOffsets(): seq<Offsets> {
    seq(StayOnTargetSteps, _ => Offsets(0, 0))
  }

  function Pattern(t: SearchType): seq<Offsets> {
    match t
    case FlyingV => FlyingVOffsets
    case Raster => RasterOffsets()
    case Spiral => SpiralOffsets()
    case Concentric => ConcentricOffsets()
    case MoveAlongTrack => MoveAlongTrackOffsets()
    case StayOnTarget => StayOnTargetOffsets()
    case OneStep => [Offsets(0, 0)]
  }

  /** The result for a named search type over a window. */
  function SearchSchedule(searchType: string, offset: real, start: nat, end: nat): Result<seq<SearchStep>, string> {
    match ParseSearchType(searchType)
    case None => Failure("Invalid search type")
    case Some(t) => Success(Schedule(Pattern(t), offset, start, ObservationEnd(start, end)))
  }

  /**
   * The number of steps each type yields is capped by its pattern: flyingv
   * and spiral 5, concentric 4, raster 20, movealongtrack 29, stayontarget 14,
   * onestep 1; and no observation holds more than 15.
   */
  lemma StepCounts(t: SearchType, offset: real, start: nat, end: nat)
    ensures var n := |Schedule(Pattern(t), offset, start, ObservationEnd(start, end))|;
      n <= 15 &&
      n <= (match t
            case FlyingV => 5
            case Raster => 20
            case Spiral => 5
            case Concentric => 4
            case MoveAlongTrack => 29
            case StayOnTarget => 14
            case OneStep => 1)
  {
  }

  /** The concentric pattern walks out: (1, 0), (0, 2), (-3, 0), (0, -4). */
  lemma ConcentricPattern()
    ensures ConcentricOffsets() == [Offsets(1, 0), Offsets(0, 2), Offsets(-3, 0), Offsets(0, -4)]
  {
  }

  /** A pattern of zero multipliers yields the same steps whatever the offset. */
  lemma ZeroStepsIgnoreOffset(pattern: seq<Offsets>, offset: real, start: nat, observationEnd: nat)
    requires forall k :: 0 <= k < |pattern| ==> pattern[k] == Offsets(0, 0)
    ensures Schedule(pattern, 0.0, start, observationEnd) == Schedule(pattern, offset, start, observationEnd)
  {
  }

  // ---------------------------------------------------------------------
  // The generator

  /** The state `add_step` updates: the steps so far and the time of the next one. */
  class StepPlanner {
    var steps: seq<SearchStep>
    var currentTime: nat
    const observationEndTime: nat
    ghost const windowStart: nat

    constructor(start: nat, observationEnd: nat)
      ensures steps == [] && currentTime == start
      ensures observationEndTime == observationEnd && windowStart == start
    {
      steps := [];
      currentTime := start;
      observationEndTime := observationEnd;
      windowStart := start;
    }

    /** The first n entries of the pattern have been added, each in its slot. */
    ghost predicate Planned(pattern: seq<Offsets>, offset: real, n: nat)
      reads this
    {
      n <= |pattern| && n <= SlotsThatFit(windowStart, observationEndTime) &&
      steps == Prefix(pattern, offset, windowStart, n) &&
      currentTime == StepStart(windowStart, n)
    }

    /**
     * add_step: append a 10-second step at the current time unless it would
     * end after the observation end; the next step starts 10 s after it ends.
     */
    method AddStep(alongTrack: real, crossTrack: real) returns (added: bool)
      modifies this
      ensures added <==> old(currentTime) + StepDuration <= observationEndTime
      ensures added ==>
        steps == old(steps) + [SearchStep(alongTrack, crossTrack, 0.0, Millis(old(currentTime)),
                                          Millis(old(currentTime) + StepDuration))] &&
        currentTime == old(currentTime) + StepDuration + IntervalDuration
      ensures !added ==> steps == old(steps) && currentTime == old(currentTime)
    {
      var stepEndTime := currentTime + StepDuration;
      if stepEndTime > observationEndTime {
        return false;
      }
      steps := steps + [SearchStep(alongTrack, crossTrack, 0.0, Millis(currentTime), Millis(stepEndTime))];
      currentTime := stepEndTime + IntervalDuration;
      return true;
    }

    /** Adding the next pattern entry either extends the plan or shows that every slot is used. */
    lemma AddedNext(pattern: seq<Offsets>, offset: real, n: nat, oldSteps: seq<SearchStep>, added: bool)
      requires n < |pattern|
      requires oldSteps == Prefix(pattern, offset, windowStart, n)
      requires n <= SlotsThatFit(windowStart, observationEndTime)
      requires added <==> StepStart(windowStart, n) + StepDuration <= observationEndTime
      requires added ==>
        steps == oldSteps + [PlannedStep(pattern[n], offset, windowStart, n)] &&
        currentTime == StepStart(windowStart, n + 1)
      ensures added ==> Planned(pattern, offset, n + 1)
      ensures !added ==> n == SlotsThatFit(windowStart, observationEndTime)
    {
      assert Fits(windowStart, observationEndTime, n) <==> added;
      if added {
        PrefixSnoc(pattern, offset, windowStart, n);
      }
    }
  }

  /** The branch of search_instruction_type for "flyingv". */
  method PlanFlyingV(planner: StepPlanner, offset: real)
    requires planner.Planned(Pattern(FlyingV), offset, 0)
    modifies planner
    ensures planner.steps == Schedule(Pattern(FlyingV), offset, planner.windowStart, planner.observationEndTime)
  {
    var pattern := Pattern(FlyingV);
    var i := 0;
    while i < 5
      invariant 0 <= i <= 5 && planner.Planned(pattern, offset, i)
    {
      var offsets := FlyingVOffsets[i];
      ghost var before := planner.steps;
      var added := planner.AddStep(offsets.along as real * offset, offsets.cross as real * offset);
      planner.AddedNext(pattern, offset, i, before, added);
      if !added {
        break;
      }
      i := i + 1;
    }
  }

  /** The branch for "raster": a pair of steps per i; a refused step ends the loop. */
  method PlanRaster(planner: StepPlanner, offset: real)
    requires planner.Planned(Pattern(Raster), offset, 0)
    modifies planner
    ensures planner.steps == Schedule(Pattern(Raster), offset, planner.windowStart, planner.observationEndTime)
  {
    var pattern := Pattern(Raster);
    var i := 0;
    while i < 10
      invariant 0 <= i <= 10 && planner.Planned(pattern, offset, 2 * i)
    {
      RasterPair(i);
      ghost var start := planner.windowStart;
      assert PlannedStep(pattern[2 * i], offset, start, 2 * i) ==
             SearchStep(offset * i as real, offset, 0.0, Millis(StepStart(start, 2 * i)),
                        Millis(StepStart(start, 2 * i) + StepDuration));
      assert PlannedStep(pattern[2 * i + 1], offset, start, 2 * i + 1) ==
             SearchStep(offset * i as real, -offset, 0.0, Millis(StepStart(start, 2 * i + 1)),
                        Millis(StepStart(start, 2 * i + 1) + StepDuration));
      ghost var before := planner.steps;
      var added := planner.AddStep(offset * i as real, offset);
      planner.AddedNext(pattern, offset, 2 * i, before, added);
      if !added {
        break;
      }
      before := planner.steps;
      added := planner.AddStep(offset * i as real, -offset);
      planner.AddedNext(pattern, offset, 2 * i + 1, before, added);
      if !added {
        break;
      }
      i := i + 1;
    }
  }

  /** The branch for "spiral". */
  method PlanSpiral(planner: StepPlanner, offset: real)
    requires planner.Planned(Pattern(Spiral), offset, 0)
    modifies planner
    ensures planner.steps == Schedule(Pattern(Spiral), offset, planner.windowStart, planner.observationEndTime)
  {
    var pattern := Pattern(Spiral);
    var i := 1;
    while i < 6
      invariant 1 <= i <= 6 && planner.Planned(pattern, offset, i - 1)
    {
      ghost var start := planner.windowStart;
      assert pattern[i - 1] == Offsets(i, i);
      assert PlannedStep(pattern[i - 1], offset, start, i - 1) ==
             SearchStep(offset * i as real, offset * i as real, 0.0, Millis(StepStart(start, i - 1)),
                        Millis(StepStart(start, i - 1) + StepDuration));
      ghost var before := planner.steps;
      var added := planner.AddStep(offset * i as real, offset * i as real);
      planner.AddedNext(pattern, offset, i - 1, before, added);
      if !added {
        break;
      }
      i := i + 1;
    }
  }

  /** The branch for "concentric". */
  method PlanConcentric(planner: StepPlanner, offset: real)
    requires planner.Planned(Pattern(Concentric), offset, 0)
    modifies planner
    ensures planner.steps == Schedule(Pattern(Concentric), offset, planner.windowStart, planner.observationEndTime)
  {
    var pattern := Pattern(Concentric);
    var directions := Directions;
    var i := 0;
    while i < |directions|
      invariant 0 <= i <= 4 && planner.Planned(pattern, offset, i)
    {
      var direction := directions[i];
      ghost var before := planner.steps;
      var added := planner.AddStep(offset * direction.along as real * (i + 1) as real,
                                   offset * direction.cross as real * (i + 1) as real);
      planner.AddedNext(pattern, offset, i, before, added);
      if !added {
        break;
      }
      i := i + 1;
    }
  }

  /** The branch for "movealongtrack", with j running 1, -2, 3, -4, ... while |j| < 30. */
  method PlanMoveAlongTrack(planner: StepPlanner, offset: real)
    requires planner.Planned(Pattern(MoveAlongTrack), offset, 0)
    modifies planner
    ensures planner.steps == Schedule(Pattern(MoveAlongTrack), offset, planner.windowStart, planner.observationEndTime)
  {
    ghost var n: nat := 0;
    var j := 1;
    while (if j < 0 then -j else j) < 30
      invariant n <= 29 && j == AlongJ(n) && planner.Planned(Pattern(MoveAlongTrack), offset, n)
      decreases 30 - n
    {
      AlongJMagnitude(n);
      var added := AddAlongTrackStep(planner, offset, j, n);
      if !added {
        break;
      }
      j := NextJ(j);
      n := n + 1;
    }
    AlongJMagnitude(n);
  }

  /** One pass of the movealongtrack loop: add_step(offset * j, 0) for the n-th multiplier j. */
  method AddAlongTrackStep(planner: StepPlanner, offset: real, j: int, ghost n: nat) returns (added: bool)
    requires n < 29 && j == AlongJ(n) && planner.Planned(Pattern(MoveAlongTrack), offset, n)
    modifies planner
    ensures added ==> planner.Planned(Pattern(MoveAlongTrack), offset, n + 1)
    ensures !added ==> planner.Planned(Pattern(MoveAlongTrack), offset, n) &&
                       n == SlotsThatFit(planner.windowStart, planner.observationEndTime)
  {
    AlongTrackEntry(n);
    AlongTrackStep(j, offset, planner.windowStart, n);
    ghost var before := planner.steps;
    added := planner.AddStep(offset * j as real, 0.0);
    planner.AddedNext(Pattern(MoveAlongTrack), offset, n, before, added);
  }

  /** The n-th multiplier is followed by the (n + 1)-th and is the n-th entry of the pattern. */
  lemma AlongTrackEntry(n: nat)
    ensures NextJ(AlongJ(n)) == AlongJ(n + 1)
    ensures n < 29 ==> Pattern(MoveAlongTrack)[n] == Offsets(AlongJ(n), 0)
  {
  }

  /** The planned step for the along-track multiplier j is add_step(offset * j, 0). */
  lemma AlongTrackStep(j: int, offset: real, start: nat, n: nat)
    ensures PlannedStep(Offsets(j, 0), offset, start, n) ==
      SearchStep(offset * j as real, 0.0, 0.0, Millis(StepStart(start, n)), Millis(StepStart(start, n) + StepDuration))
  {
  }

  /** The branch for "stayontarget": at most 4 min 59 s // 20 s zero steps. */
  method PlanStayOnTarget(planner: StepPlanner)
    requires planner.Planned(Pattern(StayOnTarget), 0.0, 0)
    modifies planner
    ensures planner.steps == Schedule(Pattern(StayOnTarget), 0.0, planner.windowStart, planner.observationEndTime)
  {
    var pattern := Pattern(StayOnTarget);
    var totalSteps := MaxDuration / (StepDuration + IntervalDuration);
    var i := 0;
    while i < totalSteps
      invariant 0 <= i <= totalSteps && planner.Planned(pattern, 0.0, i)
    {
      ghost var before := planner.steps;
      var added := planner.AddStep(0.0, 0.0);
      planner.AddedNext(pattern, 0.0, i, before, added);
      if !added {
        break;
      }
      i := i + 1;
    }
  }

  /**
   * search_instruction_type. `start` and `end` are the window's first and
   * last observable times; `offset` is the adjusted along/cross offset.
   * An unknown search type fails with "Invalid search type".
   */
  method SearchInstructionType(searchType: string, offset: real, start: nat, end: nat)
    returns (r: Result<seq<SearchStep>, string>)
    ensures r == SearchSchedule(searchType, offset, start, end)
  {
    var observationEndTime := start + MaxDuration;
    var finalEndTime := end;
    if observationEndTime > finalEndTime {
      observationEndTime := finalEndTime;
    }
    var planner := new StepPlanner(start, observationEndTime);
    var t := ParseSearchType(searchType);
    match t {
    case None =>
      return Failure("Invalid search type");
    case Some(FlyingV) =>
      PlanFlyingV(planner, offset);
    case Some(Raster) =>
      PlanRaster(planner, offset);
    case Some(Spiral) =>
      PlanSpiral(planner, offset);
    case Some(Concentric) =>
      PlanConcentric(planner, offset);
    case Some(MoveAlongTrack) =>
      PlanMoveAlongTrack(planner, offset);
    case Some(StayOnTarget) =>
      PlanStayOnTarget(planner);
      ZeroStepsIgnoreOffset(Pattern(StayOnTarget), offset, start, observationEndTime);
    case Some(OneStep) =>
      ghost var before := planner.steps;
      var added := planner.AddStep(0.0, 0.0);
      planner.AddedNext(Pattern(OneStep), offset, 0, before, added);
    }
    return Success(planner.steps);
  }

  // ---------------------------------------------------------------------
  // The move-along-track update as written

  /** `j += 1; j *= -1`, the update the loop actually performs. */
  function AsWrittenNextJ(j: int): int {
    -(j + 1)
  }

  /** The k-th value of j under the update as written. */
  function AsWrittenJ(k: nat): int {
    if k == 0 then 1 else AsWrittenNextJ(AsWrittenJ(k - 1))
  }

  /**
   * As written, j only alternates between 1 and -2: the loop guard |j| < 30
   * never fails, the loop ends only when a step is refused, and the third
   * step goes back to multiplier 1 instead of 3.
   */
  lemma {:induction false} AsWrittenJAlternates(k: nat)
    ensures AsWrittenJ(k) == if k % 2 == 0 then 1 else -2
    ensures -30 < AsWrittenJ(k) < 30
  {
    if k > 0 {
      AsWrittenJAlternates(k - 1);
    }
  }

  lemma AsWrittenThirdStepDiffers()
    ensures AsWrittenJ(2) == 1 && AlongJ(2) == 3
  {
  }

  /**
   * The movealongtrack pattern as written: since the guard never fails, the
   * loop adds a step for every slot that fits, with the multipliers 1, -2, 1,
   * -2, ...
   */
  function AsWrittenMoveAlongTrackOffsets(slots: nat): seq<Offsets> {
    seq(slots, k requires 0 <= k < slots => Offsets(AsWrittenJ(k), 0))
  }

  /** The steps search_instruction_type("movealongtrack", ...) yields as written. */
  function AsWrittenMoveAlongTrackSchedule(offset: real, start: nat, observationEnd: nat): seq<SearchStep> {
    Schedule(AsWrittenMoveAlongTrackOffsets(SlotsThatFit(start, observationEnd)), offset, start, observationEnd)
  }

  /**
   * As written, movealongtrack fills every slot of the window, and step k
   * carries the k-th as-written multiplier.
   */
  lemma AsWrittenMoveAlongTrackFillsWindow(offset: real, start: nat, observationEnd: nat)
    ensures var r := AsWrittenMoveAlongTrackSchedule(offset, start, observationEnd);
      |r| == SlotsThatFit(start, observationEnd) &&
      forall k :: 0 <= k < |r| ==>
        r[k].alongTrackOffsetMeters == AsWrittenJ(k) as real * offset && r[k].crossTrackOffsetMeters == 0.0
  {
    var slots := SlotsThatFit(start, observationEnd);
    var pattern := AsWrittenMoveAlongTrackOffsets(slots);
    ScheduleFollowsPattern(pattern, offset, start, observationEnd);
  }

  /**
   * On a window with room for 3 steps and an offset of 1 m, the third step of
   * the schedule as written is 1 m along track; with the intended update it
   * is 3 m.
   */
  lemma AsWrittenScheduleDiffers()
    ensures var end := 2 * Period + StepDuration;
      var w := AsWrittenMoveAlongTrackSchedule(1.0, 0, end);
      var c := Schedule(Pattern(MoveAlongTrack), 1.0, 0, end);
      |w| == 3 && |c| == 3 && w[2].alongTrackOffsetMeters == 1.0 && c[2].alongTrackOffsetMeters == 3.0
  {
    var end := 2 * Period + StepDuration;
    assert SlotsThatFit(0, end) == 3;
    assert AsWrittenMoveAlongTrackOffsets(3)[2] == Offsets(1, 0);
    assert Pattern(MoveAlongTrack)[2] == Offsets(3, 0);
  }

  /** With the intended update, |j| < 30 holds for exactly the first 29 values. */
  lemma AlongJGuard(k: nat)
    ensures (if AlongJ(k) < 0 then -AlongJ(k) else AlongJ(k)) < 30 <==> k < 29
  {
    AlongJMagnitude(k);
  }

  // ---------------------------------------------------------------------
  // Offset fraction by orbit type and TLE age

  /** An age bound of the table, in days; the last row of each table has none. */
  datatype AgeBound = UpTo(days: int) | Unbounded

  datatype OffsetRow = OffsetRow(maxAgeDays: AgeBound, fraction: real)

  predicate Within(ageDays: real, bound: AgeBound) {
    bound.Unbounded? || ageDays <= bound.days as real
  }

  const LeoRows: seq<OffsetRow> := [OffsetRow(UpTo(1), 1.0 / 4.0), OffsetRow(UpTo(3), 1.0 / 2.0),
    OffsetRow(UpTo(5), 1.0), OffsetRow(UpTo(7), 2.0), OffsetRow(UpTo(12), 5.0), OffsetRow(Unbounded, 10.0)]
  const MeoRows: seq<OffsetRow> := [OffsetRow(UpTo(1), 1.0 / 4.0), OffsetRow(UpTo(3), 1.0 / 3.0),
    OffsetRow(UpTo(5), 1.0 / 2.0), OffsetRow(UpTo(7), 1.0), OffsetRow(UpTo(12), 2.0), OffsetRow(Unbounded, 5.0)]
  const GeosynchronousRows: seq<OffsetRow> := [OffsetRow(UpTo(1), 1.0 / 4.0), OffsetRow(UpTo(3), 1.0 / 3.0),
    OffsetRow(UpTo(5), 1.0 / 2.0), OffsetRow(UpTo(7), 3.0 / 4.0), OffsetRow(UpTo(12), 1.0), OffsetRow(Unbounded, 2.0)]
  const GeostationaryRows: seq<OffsetRow> := [OffsetRow(UpTo(1), 1.0 / 5.0), OffsetRow(UpTo(3), 1.0 / 4.0),
    OffsetRow(UpTo(5), 1.0 / 3.0), OffsetRow(UpTo(7), 1.0 / 2.0), OffsetRow(UpTo(12), 3.0 / 4.0), OffsetRow(Unbounded, 1.0)]

  /** The table for an orbit type; a missing or unknown type gets the LEO table. */
  function RowsFor(orbitType: Option<string>): seq<OffsetRow> {
    if orbitType == Some("LEO") then LeoRows
    else if orbitType == Some("MEO") then MeoRows
    else if orbitType == Some("GEOSYNCHRONOUS") then GeosynchronousRows
    else if orbitType == Some("GEOSTATIONARY") then GeostationaryRows
    else LeoRows
  }

  /** Row i is the first row whose bound admits the age. */
  ghost predicate FirstWithin(rows: seq<OffsetRow>, ageDays: real, i: int) {
    0 <= i < |rows| && Within(ageDays, rows[i].maxAgeDays) &&
    forall j :: 0 <= j < i ==> !Within(ageDays, rows[j].maxAgeDays)
  }

  /** The fraction of the first row that admits the age, if any does (Python's `next` over the table). */
  function FirstFit(rows: seq<OffsetRow>, ageDays: real): Option<real> {
    if rows == [] then None
    else if Within(ageDays, rows[0].maxAgeDays) then Some(rows[0].fraction)
    else FirstFit(rows[1..], ageDays)
  }

  /**
   * FirstFit finds a fraction exactly when some row admits the age, and then
   * it is the fraction of the first such row.
   */
  lemma {:induction false} FirstFitIsFirstWithin(rows: seq<OffsetRow>, ageDays: real)
    ensures FirstFit(rows, ageDays).Some? <==> exists i :: 0 <= i < |rows| && Within(ageDays, rows[i].maxAgeDays)
    ensures FirstFit(rows, ageDays).Some? ==>
      exists i :: FirstWithin(rows, ageDays, i) && FirstFit(rows, ageDays).value == rows[i].fraction
    decreases |rows|
  {
    if rows == [] {
    } else if Within(ageDays, rows[0].maxAgeDays) {
      assert FirstWithin(rows, ageDays, 0);
    } else {
      FirstFitIsFirstWithin(rows[1..], ageDays);
      var r := FirstFit(rows, ageDays);
      if r.Some? {
        var i :| FirstWithin(rows[1..], ageDays, i) && r.value == rows[1..][i].fraction;
        assert FirstWithin(rows, ageDays, i + 1);
        assert Within(ageDays, rows[i + 1].maxAgeDays);
      } else {
        forall i | 0 <= i < |rows| ensures !Within(ageDays, rows[i].maxAgeDays) {
          if i > 0 { assert rows[i] == rows[1..][i - 1]; }
        }
      }
    }
  }

  /** The fraction applied to the offset, for an orbit type and a TLE age in days. */
  function OffsetFraction(orbitType: Option<string>, tleAgeDays: real): (r: real)
    ensures exists i :: FirstWithin(RowsFor(orbitType), tleAgeDays, i) && r == RowsFor(orbitType)[i].fraction
  {
    var rows := RowsFor(orbitType);
    assert Within(tleAgeDays, rows[5].maxAgeDays);
    FirstFitIsFirstWithin(rows, tleAgeDays);
    FirstFit(rows, tleAgeDays).value
  }

  /** An orbit type that has no table of its own is looked up in the LEO table. */
  lemma UnknownOrbitUsesLeo(orbitType: Option<string>, tleAgeDays: real)
    requires orbitType !in {Some("MEO"), Some("GEOSYNCHRONOUS"), Some("GEOSTATIONARY")}
    ensures OffsetFraction(orbitType, tleAgeDays) == OffsetFraction(Some("LEO"), tleAgeDays)
  {
  }

  /** Bounds and fractions that both grow strictly down the table; only the last row is unbounded. */
  ghost predicate Ascending(rows: seq<OffsetRow>) {
    forall i, j :: 0 <= i < j < |rows| ==>
      rows[i].fraction < rows[j].fraction &&
      rows[i].maxAgeDays.UpTo? &&
      (rows[j].maxAgeDays.UpTo? ==> rows[i].maxAgeDays.days < rows[j].maxAgeDays.days)
  }

  /** Every table lists its bounds and its fractions in strictly increasing order. */
  lemma TablesAscending(orbitType: Option<string>)
    ensures Ascending(RowsFor(orbitType))
  {
    assert Ascending(LeoRows);
    assert Ascending(MeoRows);
    assert Ascending(GeosynchronousRows);
    assert Ascending(GeostationaryRows);
  }

  lemma FirstWithinMonotone(rows: seq<OffsetRow>, a1: real, a2: real, i1: int, i2: int)
    requires Ascending(rows) && a1 <= a2
    requires FirstWithin(rows, a1, i1) && FirstWithin(rows, a2, i2)
    ensures rows[i1].fraction <= rows[i2].fraction
  {
    assert Within(a1, rows[i2].maxAgeDays);
    if i2 < i1 {
      assert false;
    }
  }

  /** An older TLE never gets a smaller fraction. */
  lemma OffsetFractionMonotone(orbitType: Option<string>, a1: real, a2: real)
    requires a1 <= a2
    ensures OffsetFraction(orbitType, a1) <= OffsetFraction(orbitType, a2)
  {
    var rows := RowsFor(orbitType);
    var f1, f2 := OffsetFraction(orbitType, a1), OffsetFraction(orbitType, a2);
    var i1 :| FirstWithin(rows, a1, i1) && f1 == rows[i1].fraction;
    var i2 :| FirstWithin(rows, a2, i2) && f2 == rows[i2].fraction;
    TablesAscending(orbitType);
    FirstWithinMonotone(rows, a1, a2, i1, i2);
  }

  // ---------------------------------------------------------------------
  // Staleness clamp

  function RealMin(a: real, b: real): real {
    if b < a then b else a
  }

  function RealMax(a: real, b: real): real {
    if b > a then b else a
  }

  /** Seconds since the TLE epoch, in days, clamped to [0, 5]. */
  function StalenessDays(timeDiffSeconds: real): (r: real)
    ensures 0.0 <= r <= 5.0
    ensures 0.0 <= timeDiffSeconds / 86400.0 <= 5.0 ==> r == timeDiffSeconds / 86400.0
    ensures timeDiffSeconds <= 0.0 ==> r == 0.0
    ensures timeDiffSeconds / 86400.0 >= 5.0 ==> r == 5.0
  {
    RealMax(0.0, RealMin(5.0, timeDiffSeconds / 86400.0))
  }

  lemma StalenessMonotone(d1: real, d2: real)
    requires d1 <= d2
    ensures StalenessDays(d1) <= StalenessDays(d2)
  {
  }

  // ---------------------------------------------------------------------
  // Potential-window filter

  /** A potential observation window as returned by the server. */
  datatype Window = Window(firstObservableTime: string, lastObservableTime: string)

  const MidnightSuffix: string := "T00:00:00Z"

  /** Python's `s[-n:]`: the last n characters, or all of s if it is shorter. */
  function Tail(s: string, n: nat): (r: string)
    requires n > 0
    ensures |r| == if |s| < n then |s| else n
    ensures r == s[|s| - |r|..]
  {
    if |s| <= n then s else s[|s| - n..]
  }

  /** The time is at midnight UTC exactly. */
  predicate EndsAtMidnight(s: string) {
    |s| >= |MidnightSuffix| && s[|s| - |MidnightSuffix|..] == MidnightSuffix
  }

  /** The comparison as written takes 9 characters, which can never equal the 10-character suffix. */
  function FilterPotentialsAsWritten(windows: seq<Window>): seq<Window> {
    if windows == [] then []
    else
      (if Tail(windows[0].lastObservableTime, 9) != MidnightSuffix then [windows[0]] else []) +
      FilterPotentialsAsWritten(windows[1..])
  }

  /** As written, the filter drops nothing. */
  lemma {:induction false} AsWrittenFilterKeepsAll(windows: seq<Window>)
    ensures FilterPotentialsAsWritten(windows) == windows
  {
    if windows != [] {
      assert |Tail(windows[0].lastObservableTime, 9)| != |MidnightSuffix|;
      AsWrittenFilterKeepsAll(windows[1..]);
    }
  }

  /** A window ending at midnight is kept as written and dropped as intended. */
  lemma MidnightWindowKeptAsWritten()
    ensures var w := Window("2024-03-01T21:14:05.120Z", "2024-03-02T00:00:00Z");
      FilterPotentialsAsWritten([w]) == [w] && FilterPotentials([w]) == []
  {
    var w := Window("2024-03-01T21:14:05.120Z", "2024-03-02T00:00:00Z");
    AsWrittenFilterKeepsAll([w]);
    assert EndsAtMidnight(w.lastObservableTime);
  }

  /** The windows whose last observable time does not end at midnight, in their order. */
  function FilterPotentials(windows: seq<Window>): (r: seq<Window>)
    ensures |r| <= |windows|
    ensures forall w :: w in r <==> w in windows && !EndsAtMidnight(w.lastObservableTime)
  {
    if windows == [] then []
    else
      var w := windows[0];
      assert Tail(w.lastObservableTime, |MidnightSuffix|) == MidnightSuffix <==> EndsAtMidnight(w.lastObservableTime);
      var rest := FilterPotentials(windows[1..]);
      assert forall v :: v in windows <==> v == w || v in windows[1..];
      (if Tail(w.lastObservableTime, |MidnightSuffix|) != MidnightSuffix then [w] else []) + rest
  }

  /** Filtering keeps the order: it distributes over concatenation. */
  lemma {:induction false} FilterPotentialsAppend(a: seq<Window>, b: seq<Window>)
    ensures FilterPotentials(a + b) == FilterPotentials(a) + FilterPotentials(b)
    decreases |a|
  {
    if a == [] {
      assert a + b == b;
    } else {
      assert (a + b)[0] == a[0];
      assert (a + b)[1..] == a[1..] + b;
      FilterPotentialsAppend(a[1..], b);
    }
  }
}
