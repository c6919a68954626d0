/** What the planning run guarantees, proved about the specification in
    module TripSpec: the timeline is contiguous from the start instant to the
    arrival, every interval carries its shift number, the number of shifts is
    one more than the number of rests and resets, the clock never goes back,
    and the run fails exactly when the route or one of its durations is bad. */
module TripProperties {
  import opened Outcomes
  import opened HosRules
  import opened TripUtils
  import opened Timeline
  import opened DutyCounters
  import opened TripSpec

  /** What holds of every state a run started at t0 reaches: the timeline is
      well kept, and it ends where the open drive started or, with no drive
      open, at the clock. */
  predicate Inv(t0: real, s: SimState) {
    && Recorded(t0, s.timeline, s.shift)
    && (if IsDriving(s.drive) then s.drive.startTime == EndOf(t0, s.timeline) <= s.clock
        else s.clock == EndOf(t0, s.timeline))
  }

  /** s' comes after s: the timeline was only appended to, and neither the
      clock nor the shift number went back. */
  predicate Later(s: SimState, s': SimState) {
    s.timeline <= s'.timeline && s.clock <= s'.clock && s.shift <= s'.shift
  }

  lemma StartInv(t0: real, cycleUsedHours: real)
    ensures Inv(t0, Start(t0, cycleUsedHours))
    ensures Start(t0, cycleUsedHours).shift == 1
  {
  }

  /** Closing a drive records it from where the timeline ended up to now. */
  lemma EndDrivingKeeps(g: Geocoder, t0: real, s: SimState)
    requires Inv(t0, s)
    ensures var r := EndDriving(g, s);
      && Inv(t0, r) && !IsDriving(r.drive) && Later(s, r)
      && r.clock == s.clock && r.shift == s.shift && r.hos == s.hos
      && |r.timeline| <= |s.timeline| + 1
  {
    if IsDriving(s.drive) {
      var iv := MakeInterval(g, s.shift, Driving, "", s.drive.startTime, s.clock, Some(s.drive.location));
      AppendRecorded(t0, s.timeline, s.shift, iv);
      HosRules.FuelDistanceAndLabels();
    }
  }

  /** A pause records its stop from the end of the timeline up to the new
      clock; a Sleeper Berth pause belongs to the shift it closes. */
  lemma PauseKeeps(g: Geocoder, t0: real, s: SimState, status: string, reason: string,
                   length: int, at: Option<Coord>, h: Counters)
    requires Inv(t0, s) && length >= 0
    ensures var r := Pause(g, s, status, reason, length, at);
      && Inv(t0, r.(shift := if status == SleeperBerth then s.shift + 1 else s.shift, hos := h))
      && Later(s, r) && r.clock == s.clock + length as real && r.shift == s.shift
      && !IsDriving(r.drive)
  {
    var s1 := EndDriving(g, s);
    EndDrivingKeeps(g, t0, s);
    var iv := MakeInterval(g, s1.shift, status, reason, s1.clock, s1.clock + length as real, at);
    AppendRecorded(t0, s1.timeline, s1.shift, iv);
  }

  lemma CycleResetKeeps(g: Geocoder, t0: real, s: SimState)
    requires Inv(t0, s)
    ensures var r := CycleReset(g, s);
      Inv(t0, r) && Later(s, r) && r.shift == s.shift + 1 &&
      r.clock == s.clock + CycleResetDuration as real && r.hos == AfterReset(s.hos)
  {
    PauseKeeps(g, t0, s, SleeperBerth, "34 hour cycle reset", CycleResetDuration, None, AfterReset(s.hos));
  }

  lemma TakeDueStopKeeps(g: Geocoder, t0: real, s: SimState, at: Coord)
    requires Inv(t0, s)
    ensures var r := TakeDueStop(g, s, at);
      Inv(t0, r) && Later(s, r)
  {
    HosRules.FuelDistanceAndLabels();
    match Due(s.hos)
    case BreakDue =>
      PauseKeeps(g, t0, s, OffDuty, "30 min break", BreakDuration, Some(at), AfterBreak(s.hos));
    case RestDue =>
      PauseKeeps(g, t0, s, SleeperBerth, "10 hour rest", RestDuration, Some(at), AfterRest(s.hos));
    case FuelDue =>
      PauseKeeps(g, t0, s, OnDuty, "Fueling", FuelDuration, Some(at), AfterFuel(s.hos));
    case NothingDue =>
  }

  lemma StopAtKeeps(g: Geocoder, t0: real, s: SimState, legIndex: nat, at: Coord)
    requires Inv(t0, s)
    ensures var r := StopAt(g, s, legIndex, at);
      Inv(t0, r) && Later(s, r) && r.hos == s.hos && r.shift == s.shift
  {
    HosRules.FuelDistanceAndLabels();
    assert StopReason(legIndex) != SleeperBerth;
    PauseKeeps(g, t0, s, OnDuty, StopReason(legIndex), StopDuration, Some(at), s.hos);
    EndDrivingKeeps(g, t0, s);
  }

  lemma DriveIncrementKeeps(g: Geocoder, t0: real, s: SimState, allowed: real, fraction: real,
                            miles: real, a: Coord, b: Coord)
    requires Inv(t0, s) && IsDriving(s.drive) && 0.0 < allowed
    ensures var r := DriveIncrement(g, s, allowed, fraction, miles, a, b);
      Inv(t0, r) && Later(s, r)
  {
    var s2 := s.(clock := s.clock + allowed, hos := Advance(s.hos, allowed, miles * fraction));
    var at := Interpolate(a, b, fraction);
    assert DriveIncrement(g, s, allowed, fraction, miles, a, b) == TakeDueStop(g, s2, at);
    assert s2.timeline == s.timeline && s2.shift == s.shift && s2.drive == s.drive;
    assert Inv(t0, s2) && Later(s, s2);
    TakeDueStopKeeps(g, t0, s2, at);
  }

  /** Driving a step keeps the timeline well kept and only moves forward. */
  lemma {:induction false} DriveLoopKeeps(g: Geocoder, t0: real, s: SimState, remaining: real,
                                          miles: real, a: Coord, b: Coord)
    requires Valid(s.hos) && Inv(t0, s)
    ensures var r := DriveLoop(g, s, remaining, miles, a, b);
      Inv(t0, r) && Later(s, r)
    decreases HoursLeft(remaining), Stage(s.hos), 1
  {
    if remaining > 0.0 {
      var s1 := EnsureDriving(s, a);
      assert Inv(t0, s1) && Later(s, s1);
      DriveOnKeeps(g, t0, s1, remaining, miles, a, b);
      var r := DriveOn(g, s1, remaining, miles, a, b);
      assert DriveLoop(g, s, remaining, miles, a, b) == r;
      assert s.timeline <= s1.timeline <= r.timeline;
    }
  }

  lemma {:induction false} DriveOnKeeps(g: Geocoder, t0: real, s: SimState, remaining: real,
                                        miles: real, a: Coord, b: Coord)
    requires Valid(s.hos) && Inv(t0, s) && IsDriving(s.drive) && remaining > 0.0
    ensures var r := DriveOn(g, s, remaining, miles, a, b);
      Inv(t0, r) && Later(s, r)
    decreases HoursLeft(remaining), Stage(s.hos), 0
  {
    var allowed := AllowedDrive(remaining, s.hos);
    if allowed <= 0.0 {
      CycleResetKeeps(g, t0, s);
      assert DriveOn(g, s, remaining, miles, a, b) == CycleReset(g, s);
    } else {
      var fraction := allowed / remaining;
      Progress(remaining, s.hos, miles * fraction);
      var s3 := DriveIncrement(g, s, allowed, fraction, miles, a, b);
      DriveIncrementKeeps(g, t0, s, allowed, fraction, miles, a, b);
      DriveLoopKeeps(g, t0, s3, remaining - allowed, miles, a, b);
      var r := DriveLoop(g, s3, remaining - allowed, miles, a, b);
      assert DriveOn(g, s, remaining, miles, a, b) == r;
      assert s.timeline <= s3.timeline <= r.timeline;
    }
  }

  lemma RunStepKeeps(g: Geocoder, t0: real, s: SimState, step: Step, isLast: bool, legIndex: nat)
    requires Valid(s.hos) && Inv(t0, s)
    ensures var r := RunStep(g, s, step, isLast, legIndex);
      r.Ok? ==> Inv(t0, r.value) && Later(s, r.value)
  {
    if StepDuration(step).Ok? {
      var s1 := DriveLoop(g, s, StepDuration(step).value, StepMiles(step), step.startLocation, step.endLocation);
      DriveLoopKeeps(g, t0, s, StepDuration(step).value, StepMiles(step), step.startLocation, step.endLocation);
      if isLast {
        StopAtKeeps(g, t0, s1, legIndex, step.endLocation);
      }
    }
  }

  lemma {:induction false} RunStepsKeeps(g: Geocoder, t0: real, s: SimState, steps: seq<Step>,
                                         i: nat, legIndex: nat)
    requires Valid(s.hos) && Inv(t0, s) && i <= |steps|
    ensures var r := RunSteps(g, s, steps, i, legIndex);
      r.Ok? ==> Inv(t0, r.value) && Later(s, r.value)
    decreases |steps| - i
  {
    if i < |steps| {
      RunStepKeeps(g, t0, s, steps[i], i == |steps| - 1, legIndex);
      var r1 := RunStep(g, s, steps[i], i == |steps| - 1, legIndex);
      if r1.Ok? {
        RunStepsKeeps(g, t0, r1.value, steps, i + 1, legIndex);
      }
    }
  }

  lemma {:induction false} RunLegsKeeps(g: Geocoder, t0: real, s: SimState, legs: seq<Leg>, i: nat)
    requires Valid(s.hos) && Inv(t0, s) && i <= |legs|
    ensures var r := RunLegs(g, s, legs, i);
      r.Ok? ==> Inv(t0, r.value) && Later(s, r.value)
    decreases |legs| - i
  {
    if i < |legs| {
      RunStepsKeeps(g, t0, s, legs[i].steps, 0, i);
      var r1 := RunSteps(g, s, legs[i].steps, 0, i);
      if r1.Ok? {
        RunLegsKeeps(g, t0, r1.value, legs, i + 1);
      }
    }
  }

  /** With some of the step left and any one of the four budgets spent, the
      step ends at once with a 34-hour cycle reset: a spent shift budget is
      answered with the cycle reset too. Under Valid only the 14-hour window
      or the 70-hour cycle can be the spent one. */
  lemma SpentBudgetResets(g: Geocoder, s: SimState, remaining: real, miles: real, a: Coord, b: Coord)
    requires Valid(s.hos) && remaining > 0.0
    requires TimeUntilBreak(s.hos) <= 0.0 || TimeUntilShiftEnd(s.hos) <= 0.0 ||
             TimeUntilOnDutyEnd(s.hos) <= 0.0 || TimeUntilCycleEnd(s.hos) <= 0.0
    ensures DriveLoop(g, s, remaining, miles, a, b) == CycleReset(g, EnsureDriving(s, a))
    ensures DriveLoop(g, s, remaining, miles, a, b).shift == s.shift + 1
    ensures DriveLoop(g, s, remaining, miles, a, b).hos.cycleUsed == 0.0
  {
    var s1 := EnsureDriving(s, a);
    NoDriveIffBudgetSpent(remaining, s1.hos);
    assert DriveOn(g, s1, remaining, miles, a, b) == CycleReset(g, s1);
  }

  /** The timeline of a planned trip starts at the start instant, runs
      without gap or overlap up to the arrival, accounts for every second in
      between, numbers each interval with its shift, and the trip has one
      shift more than it has rests and cycle resets. */
  lemma PlannedTimeline(response: RouteResponse, start: Option<real>, cycleUsedHours: real,
                        g: Geocoder)
    requires PlanTrip(response, start, cycleUsedHours, g).Ok?
    ensures var trip := PlanTrip(response, start, cycleUsedHours, g).value;
      && start.Some?
      && Contiguous(start.value, trip.timeline)
      && Numbered(trip.timeline) && Measured(trip.timeline)
      && trip.summary.arrival == EndOf(start.value, trip.timeline)
      && trip.summary.arrival >= start.value
      && TotalSeconds(trip.timeline) == trip.summary.arrival - start.value
      && trip.summary.totalShifts == 1 + SleeperCount(trip.timeline)
  {
    var t0 := start.value;
    var s0 := Start(t0, cycleUsedHours);
    var route := response.routes[0];
    RunLegsKeeps(g, t0, s0, route.legs, 0);
    var s := RunLegs(g, s0, route.legs, 0).value;
    EndDrivingKeeps(g, t0, s);
    var s' := EndDriving(g, s);
    RecordedMeans(t0, s'.timeline, s'.shift);
    ElapsedIsTotal(t0, s'.timeline);
  }

  // ---------------------------------------------------------------------
  // When a run fails
  // ---------------------------------------------------------------------

  predicate StepsParse(steps: seq<Step>) {
    forall i :: 0 <= i < |steps| ==> StepDuration(steps[i]).Ok?
  }

  predicate LegsParse(legs: seq<Leg>) {
    forall i :: 0 <= i < |legs| ==> StepsParse(legs[i].steps)
  }

  lemma {:induction false} RunStepsOk(g: Geocoder, s: SimState, steps: seq<Step>, i: nat, legIndex: nat)
    requires Valid(s.hos) && i <= |steps|
    ensures RunSteps(g, s, steps, i, legIndex).Ok? <==>
      forall j :: i <= j < |steps| ==> StepDuration(steps[j]).Ok?
    decreases |steps| - i
  {
    if i < |steps| {
      var r1 := RunStep(g, s, steps[i], i == |steps| - 1, legIndex);
      if r1.Ok? {
        RunStepsOk(g, r1.value, steps, i + 1, legIndex);
        assert RunSteps(g, s, steps, i, legIndex) == RunSteps(g, r1.value, steps, i + 1, legIndex);
        assert StepDuration(steps[i]).Ok?;
        if forall j :: i + 1 <= j < |steps| ==> StepDuration(steps[j]).Ok? {
          assert forall j :: i <= j < |steps| ==> StepDuration(steps[j]).Ok? by {
            forall j | i <= j < |steps| ensures StepDuration(steps[j]).Ok? {
              if j > i { assert i + 1 <= j < |steps|; }
            }
          }
        }
      } else {
        assert StepDuration(steps[i]).Err?;
        assert RunSteps(g, s, steps, i, legIndex) == Err(r1.error);
      }
    }
  }

  lemma {:induction false} RunLegsOk(g: Geocoder, s: SimState, legs: seq<Leg>, i: nat)
    requires Valid(s.hos) && i <= |legs|
    ensures RunLegs(g, s, legs, i).Ok? <==>
      forall j :: i <= j < |legs| ==> StepsParse(legs[j].steps)
    decreases |legs| - i
  {
    if i < |legs| {
      RunStepsOk(g, s, legs[i].steps, 0, i);
      var r1 := RunSteps(g, s, legs[i].steps, 0, i);
      if r1.Ok? {
        RunLegsOk(g, r1.value, legs, i + 1);
        assert RunLegs(g, s, legs, i) == RunLegs(g, r1.value, legs, i + 1);
        assert StepsParse(legs[i].steps);
        if forall j :: i + 1 <= j < |legs| ==> StepsParse(legs[j].steps) {
          assert forall j :: i <= j < |legs| ==> StepsParse(legs[j].steps) by {
            forall j | i <= j < |legs| ensures StepsParse(legs[j].steps) {
              if j > i { assert i + 1 <= j < |legs|; }
            }
          }
        }
      } else {
        assert !StepsParse(legs[i].steps);
        assert RunLegs(g, s, legs, i) == Err(r1.error);
      }
    }
  }

  /** A run succeeds exactly when the service returned a route, the start
      instant parses, and every step duration and the route's own duration
      parse; with no route the answer carries the raw response. */
  lemma PlanTripOk(response: RouteResponse, start: Option<real>, cycleUsedHours: real, g: Geocoder)
    ensures response.routes == [] ==>
      PlanTrip(response, start, cycleUsedHours, g) == Err(NoRoute(response))
    ensures response.routes != [] && start.None? ==>
      PlanTrip(response, start, cycleUsedHours, g) == Err(BadStartTime)
    ensures PlanTrip(response, start, cycleUsedHours, g).Ok? <==>
      && response.routes != [] && start.Some?
      && LegsParse(response.routes[0].legs)
      && ParseDuration(response.routes[0].duration).Ok?
  {
    if response.routes != [] && start.Some? {
      RunLegsOk(g, Start(start.value, cycleUsedHours), response.routes[0].legs, 0);
    }
  }
}
