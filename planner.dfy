/** The planning run as the program performs it: one planner object holds the
    clock, the shift number, the five duty counters, the drive marker and the
    timeline, and its methods update them in place, step by step and stop by
    stop. Every method is proved to move the object's state exactly as the
    matching function of module TripSpec moves a SimState, so what module
    TripProperties proves of those functions holds of the planner. */
module TripPlanner {
  import opened Outcomes
  import opened HosRules
  import opened TripUtils
  import opened Timeline
  import opened DutyCounters
  import opened TripSpec
  import TripProperties

  class Planner {
    const geocode: Geocoder
    var clock: real
    var shift: int
    var cycleUsed: real
    var shiftDriving: real
    var shiftOnDuty: real
    var sinceBrake: real
    var milesSinceFuel: real
    var drive: DriveState
    var timeline: seq<Interval>

    /** The five duty counters as one value. */
    function Hos(): Counters
      reads this
    {
      Counters(cycleUsed, shiftDriving, shiftOnDuty, sinceBrake, milesSinceFuel)
    }

    /** The planner's whole state as a SimState. */
    function State(): SimState
      reads this
    {
      SimState(clock, shift, Hos(), drive, timeline)
    }

    /** A run starting at t0 with cycleUsedHours already used in the cycle. */
    constructor(geocode: Geocoder, t0: real, cycleUsedHours: real)
      ensures this.geocode == geocode
      ensures State() == Start(t0, cycleUsedHours)
      ensures Valid(Hos())
    {
      this.geocode := geocode;
      clock := t0;
      shift := 1;
      cycleUsed := cycleUsedHours * SecondsPerHour as real;
      shiftDriving := 0.0;
      shiftOnDuty := 0.0;
      sinceBrake := 0.0;
      milesSinceFuel := 0.0;
      drive := NoDrive;
      timeline := [];
    }

    /** Appends one interval of the current shift, with the address of its location. */
    method RecordInterval(status: string, reason: string, start: real, end: real,
                          location: Option<Coord>)
      modifies this
      ensures State() == Record(geocode, old(State()), status, reason, start, end, location)
    {
      var address := if location.Some? then geocode(location.value) else None;
      var duration := Trunc((end - start) / SecondsPerMinute as real);
      timeline := timeline + [Interval(shift, status, reason, start, end, location, address, duration)];
    }

    method StartDriving(location: Coord)
      modifies this
      ensures State() == TripSpec.StartDriving(old(State()), location)
    {
      drive := Drive(true, clock, location);
    }

    /** Closes an active drive as a Driving interval ending now. */
    method EndDriving()
      modifies this
      ensures State() == TripSpec.EndDriving(geocode, old(State()))
    {
      if drive.Drive? && drive.active {
        RecordInterval(Driving, "", drive.startTime, clock, Some(drive.location));
        drive := drive.(active := false);
      }
    }

    method CycleReset()
      modifies this
      ensures State() == TripSpec.CycleReset(geocode, old(State()))
    {
      EndDriving();
      var resetEnd := clock + CycleResetDuration as real;
      RecordInterval(SleeperBerth, "34 hour cycle reset", clock, resetEnd, None);
      clock := resetEnd;
      shiftDriving := 0.0;
      shiftOnDuty := 0.0;
      sinceBrake := 0.0;
      cycleUsed := 0.0;
      shift := shift + 1;
    }

    method TakeBreak(at: Coord)
      modifies this
      ensures State() == TripSpec.TakeBreak(geocode, old(State()), at)
    {
      EndDriving();
      var breakEnd := clock + BreakDuration as real;
      RecordInterval(OffDuty, "30 min break", clock, breakEnd, Some(at));
      clock := breakEnd;
      sinceBrake := 0.0;
      shiftOnDuty := shiftOnDuty + BreakDuration as real;
    }

    method TakeRest(at: Coord)
      modifies this
      ensures State() == TripSpec.TakeRest(geocode, old(State()), at)
    {
      EndDriving();
      var restEnd := clock + RestDuration as real;
      RecordInterval(SleeperBerth, "10 hour rest", clock, restEnd, Some(at));
      clock := restEnd;
      shift := shift + 1;
      shiftDriving := 0.0;
      shiftOnDuty := 0.0;
      sinceBrake := 0.0;
    }

    method Refuel(at: Coord)
      modifies this
      ensures State() == TripSpec.Refuel(geocode, old(State()), at)
    {
      EndDriving();
      var fuelEnd := clock + FuelDuration as real;
      RecordInterval(OnDuty, "Fueling", clock, fuelEnd, Some(at));
      clock := fuelEnd;
      shiftOnDuty := shiftOnDuty + FuelDuration as real;
      cycleUsed := cycleUsed + FuelDuration as real;
      milesSinceFuel := 0.0;
    }

    /** The one-hour pickup or dropoff stop at the end of leg legIndex. */
    method StopAt(legIndex: nat, at: Coord)
      modifies this
      ensures State() == TripSpec.StopAt(geocode, old(State()), legIndex, at)
    {
      EndDriving();
      var stopType := if legIndex == 0 then "Pickup point" else "Dropoff point";
      var stopEnd := clock + StopDuration as real;
      RecordInterval(OnDuty, stopType, clock, stopEnd, Some(at));
      clock := stopEnd;
    }

    /** Takes the stop the counters call for, if any: the break before the
        rest before the fuelling stop. */
    method TakeDueStop(at: Coord)
      modifies this
      ensures State() == TripSpec.TakeDueStop(geocode, old(State()), at)
    {
      if sinceBrake >= MaxDrivingAfterBrake as real {
        TakeBreak(at);
      } else if shiftDriving >= MaxDrivingTime as real || shiftOnDuty >= MaxHoursOnDuty as real {
        TakeRest(at);
      } else if milesSinceFuel >= FuelMilesDistance as real {
        Refuel(at);
      }
    }

    /** Advances the clock and the counters over `allowed` seconds of
        driving that cover `milesDriven` miles. */
    method AdvanceBy(allowed: real, milesDriven: real)
      modifies this
      ensures State() == old(State()).(clock := old(clock) + allowed,
                                       hos := Advance(old(Hos()), allowed, milesDriven))
    {
      clock := clock + allowed;
      shiftDriving := shiftDriving + allowed;
      shiftOnDuty := shiftOnDuty + allowed;
      sinceBrake := sinceBrake + allowed;
      cycleUsed := cycleUsed + allowed;
      milesSinceFuel := milesSinceFuel + milesDriven;
    }

    /** Drives one increment of `allowed` seconds, a `fraction` of the way
        from a towards b, then takes the stop the counters call for there. */
    method Increment(allowed: real, fraction: real, miles: real, a: Coord, b: Coord)
      modifies this
      ensures State() == DriveIncrement(geocode, old(State()), allowed, fraction, miles, a, b)
    {
      var partial := Interpolate(a, b, fraction);
      var milesDriven := miles * fraction;
      AdvanceBy(allowed, milesDriven);
      ghost var driven := State();
      assert DriveIncrement(geocode, old(State()), allowed, fraction, miles, a, b)
          == TripSpec.TakeDueStop(geocode, driven, partial);
      TakeDueStop(partial);
    }

    /** One turn of the drive loop with `remaining` seconds of the step left:
        opens a drive if none is active and answers the allowed drive; when it
        is not positive, takes the 34-hour reset, otherwise drives that long. */
    method DriveTurn(remaining: real, miles: real, a: Coord, b: Coord) returns (allowed: real)
      requires Valid(Hos()) && remaining > 0.0
      modifies this
      ensures Valid(Hos())
      ensures allowed <= 0.0 ==> State() == DriveLoop(geocode, old(State()), remaining, miles, a, b)
      ensures allowed > 0.0 ==>
        && DriveLoop(geocode, State(), remaining - allowed, miles, a, b)
           == DriveLoop(geocode, old(State()), remaining, miles, a, b)
        && (HoursLeft(remaining - allowed) < HoursLeft(remaining) ||
            (HoursLeft(remaining - allowed) == HoursLeft(remaining) && Stage(Hos()) < Stage(old(Hos()))))
    {
      ghost var before := State();
      if !(drive.Drive? && drive.active) {
        StartDriving(a);
      }
      ghost var started := State();
      assert started == EnsureDriving(before, a);
      assert DriveLoop(geocode, before, remaining, miles, a, b) == DriveOn(geocode, started, remaining, miles, a, b);
      allowed := AllowedDrive(remaining, Hos());
      if allowed <= 0.0 {
        assert DriveOn(geocode, started, remaining, miles, a, b) == TripSpec.CycleReset(geocode, started);
        CycleReset();
        return;
      }
      var fraction := allowed / remaining;
      Progress(remaining, started.hos, miles * fraction);
      assert DriveOn(geocode, started, remaining, miles, a, b)
          == DriveLoop(geocode, DriveIncrement(geocode, started, allowed, fraction, miles, a, b),
                       remaining - allowed, miles, a, b);
      Increment(allowed, fraction, miles, a, b);
    }

    /** Drives a step of `duration` seconds and `miles` miles from a to b:
        while some of the step is left, open a drive if none is active, drive
        as long as the limits allow and take the stop they call for; when no
        driving is allowed, take a 34-hour reset and give up the rest of the
        step. */
    method DriveStep(duration: real, miles: real, a: Coord, b: Coord)
      requires Valid(Hos())
      modifies this
      ensures Valid(Hos())
      ensures State() == DriveLoop(geocode, old(State()), duration, miles, a, b)
    {
      var remaining := duration;
      while remaining > 0.0
        invariant Valid(Hos())
        invariant DriveLoop(geocode, State(), remaining, miles, a, b)
               == DriveLoop(geocode, old(State()), duration, miles, a, b)
        decreases HoursLeft(remaining), Stage(Hos())
      {
        var allowed := DriveTurn(remaining, miles, a, b);
        if allowed <= 0.0 {
          break;
        }
        remaining := remaining - allowed;
      }
    }

    /** One step of leg legIndex; a duration that does not parse ends the run with an error. */
    method RunStep(step: Step, isLast: bool, legIndex: nat) returns (err: Option<TripError>)
      requires Valid(Hos())
      modifies this
      ensures var r := TripSpec.RunStep(geocode, old(State()), step, isLast, legIndex);
        match r
        case Ok(s) => err == None && State() == s && Valid(Hos())
        case Err(e) => err == Some(e)
    {
      var stepDuration := StepDuration(step);
      if stepDuration.Err? {
        return Some(MalformedDuration(stepDuration.error));
      }
      var stepMiles := StepMiles(step);
      DriveStep(stepDuration.value, stepMiles, step.startLocation, step.endLocation);
      if isLast {
        StopAt(legIndex, step.endLocation);
      }
      return None;
    }

    /** Every step of every leg, in order; the first malformed step duration
        ends the run with an error. */
    method Run(legs: seq<Leg>) returns (err: Option<TripError>)
      requires Valid(Hos())
      modifies this
      ensures var r := RunLegs(geocode, old(State()), legs, 0);
        match r
        case Ok(s) => err == None && State() == s
        case Err(e) => err == Some(e)
    {
      for legIndex := 0 to |legs|
        invariant Valid(Hos())
        invariant RunLegs(geocode, State(), legs, legIndex) == RunLegs(geocode, old(State()), legs, 0)
      {
        var steps := legs[legIndex].steps;
        ghost var legStart := State();
        for stepIndex := 0 to |steps|
          invariant Valid(Hos())
          invariant RunSteps(geocode, State(), steps, stepIndex, legIndex)
                 == RunSteps(geocode, legStart, steps, 0, legIndex)
        {
          err := RunStep(steps[stepIndex], stepIndex == |steps| - 1, legIndex);
          if err.Some? {
            return;
          }
        }
      }
      return None;
    }
  }

  /** The planning run: no route and an unreadable start instant are errors
      reported before anything is planned; otherwise the first route's legs
      are driven, the last drive is closed and the summary is taken from the
      route and the final state. The result is the one TripSpec.PlanTrip
      defines, so its timeline runs without gap from the start to the
      arrival and the shift count is one more than the number of rests and
      resets. */
  method GenerateTrip(response: RouteResponse, start: Option<real>, cycleUsedHours: real,
                      geocode: Geocoder) returns (r: Result<Trip, TripError>)
    ensures r == PlanTrip(response, start, cycleUsedHours, geocode)
    ensures r.Ok? ==>
      && start.Some?
      && Contiguous(start.value, r.value.timeline)
      && Numbered(r.value.timeline) && Measured(r.value.timeline)
      && r.value.summary.arrival == EndOf(start.value, r.value.timeline)
      && r.value.summary.totalShifts == 1 + SleeperCount(r.value.timeline)
  {
    if response.routes == [] {
      return Err(NoRoute(response));
    }
    var route := response.routes[0];
    var totalMiles := MilesFromMeters(route.distanceMeters);
    if start.None? {
      return Err(BadStartTime);
    }
    var planner := new Planner(geocode, start.value, cycleUsedHours);
    var err := planner.Run(route.legs);
    if err.Some? {
      return Err(err.value);
    }
    planner.EndDriving();
    var routeDuration := ParseDuration(route.duration);
    if routeDuration.Err? {
      return Err(MalformedDuration(routeDuration.error));
    }
    var summary := Summary(totalMiles, Trunc(routeDuration.value / SecondsPerHour as real),
                           planner.shift, planner.clock);
    r := Ok(Trip(summary, planner.timeline));
    TripProperties.PlannedTimeline(response, start, cycleUsedHours, geocode);
  }
}
