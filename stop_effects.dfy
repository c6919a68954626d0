/** What each recording and stop operation of a run does to the state, one
    operation at a time: which interval it appends, how far it moves the
    clock, which counters it changes, and that it leaves everything else as
    it was. Then the stop every leg ends with, and the summary of a trip. */
module StopEffects {
  import opened Outcomes
  import opened HosRules
  import opened TripUtils
  import opened Timeline
  import opened DutyCounters
  import opened TripSpec

  function Last(t: seq<Interval>): Interval
    requires t != []
  {
    t[|t| - 1]
  }

  /** r is s with one stop appended: the open drive, if any, was closed, then
      an interval with this status, reason and location was recorded from
      the old clock to the new one, `length` seconds later, in the shift of s. */
  predicate EndsWithStop(g: Geocoder, s: SimState, r: SimState, status: string, reason: string,
                         length: int, at: Option<Coord>)
  {
    && r.clock == s.clock + length as real
    && !IsDriving(r.drive)
    && r.timeline != []
    && r.timeline == EndDriving(g, s).timeline + [Last(r.timeline)]
    && Last(r.timeline) == MakeInterval(g, s.shift, status, reason, s.clock, s.clock + length as real, at)
  }

  /** Recording appends exactly one interval, with the given status, reason,
      times and location, the address the geocoder finds for that location,
      the current shift and the length in minutes; nothing else changes. */
  lemma RecordAppends(g: Geocoder, s: SimState, status: string, reason: string,
                      start: real, end: real, location: Option<Coord>)
    ensures var r := Record(g, s, status, reason, start, end, location);
      && |r.timeline| == |s.timeline| + 1
      && r.timeline[..|s.timeline|] == s.timeline
      && Last(r.timeline).shift == s.shift
      && Last(r.timeline).status == status && Last(r.timeline).reason == reason
      && Last(r.timeline).startTime == start && Last(r.timeline).endTime == end
      && Last(r.timeline).location == location
      && Last(r.timeline).address == (if location.Some? then g(location.value) else None)
      && Last(r.timeline).duration == DurationMinutes(start, end)
      && r.(timeline := s.timeline) == s
  {
  }

  /** Opening a drive marks it active from the current clock at the given
      place; nothing else changes. */
  lemma StartDrivingOpens(s: SimState, location: Coord)
    ensures var r := StartDriving(s, location);
      && IsDriving(r.drive) && r.drive.startTime == s.clock && r.drive.location == location
      && r.(drive := s.drive) == s
  {
  }

  /** Closing a drive appends an interval exactly when a drive is active: a
      Driving interval from the drive's start to now at the drive's start
      place. Afterwards no drive is active; the clock, shift and counters
      do not change. */
  lemma EndDrivingCloses(g: Geocoder, s: SimState)
    ensures var r := EndDriving(g, s);
      && !IsDriving(r.drive)
      && r.clock == s.clock && r.shift == s.shift && r.hos == s.hos
      && (|r.timeline| == |s.timeline| + 1 <==> IsDriving(s.drive))
      && (!IsDriving(s.drive) ==> r == s)
      && (IsDriving(s.drive) ==>
            && r.timeline[..|s.timeline|] == s.timeline
            && Last(r.timeline) == MakeInterval(g, s.shift, Driving, "", s.drive.startTime,
                                                s.clock, Some(s.drive.location)))
  {
  }

  /** A pause closes the drive, then records its stop from now for `length`
      seconds and moves the clock to the stop's end; shift and counters are
      left to the caller. */
  lemma PauseRecords(g: Geocoder, s: SimState, status: string, reason: string,
                     length: int, at: Option<Coord>)
    ensures var r := Pause(g, s, status, reason, length, at);
      && EndsWithStop(g, s, r, status, reason, length, at)
      && r.shift == s.shift && r.hos == s.hos
  {
    var r := Pause(g, s, status, reason, length, at);
    assert r.timeline == EndDriving(g, s).timeline + [Last(r.timeline)];
  }

  /** The 34-hour reset: a Sleeper Berth interval with no location, a new
      shift, and every time counter restarted. */
  lemma CycleResetRecords(g: Geocoder, s: SimState)
    ensures var r := CycleReset(g, s);
      && EndsWithStop(g, s, r, SleeperBerth, "34 hour cycle reset", 34 * 3600, None)
      && r.shift == s.shift + 1
      && r.hos == Initial(0.0).(milesSinceFuel := s.hos.milesSinceFuel)
  {
    PauseRecords(g, s, SleeperBerth, "34 hour cycle reset", CycleResetDuration, None);
  }

  /** The 30-minute break: an Off Duty interval at the given place, same shift. */
  lemma TakeBreakRecords(g: Geocoder, s: SimState, at: Coord)
    ensures var r := TakeBreak(g, s, at);
      && EndsWithStop(g, s, r, OffDuty, "30 min break", 30 * 60, Some(at))
      && r.shift == s.shift && r.hos == AfterBreak(s.hos)
  {
    PauseRecords(g, s, OffDuty, "30 min break", BreakDuration, Some(at));
  }

  /** The 10-hour rest: a Sleeper Berth interval at the given place and a new shift. */
  lemma TakeRestRecords(g: Geocoder, s: SimState, at: Coord)
    ensures var r := TakeRest(g, s, at);
      && EndsWithStop(g, s, r, SleeperBerth, "10 hour rest", 10 * 3600, Some(at))
      && r.shift == s.shift + 1
      && r.hos == Initial(s.hos.cycleUsed / 3600.0).(milesSinceFuel := s.hos.milesSinceFuel)
  {
    PauseRecords(g, s, SleeperBerth, "10 hour rest", RestDuration, Some(at));
  }

  /** The fuelling stop: a 30-minute On Duty interval at the given place, same shift. */
  lemma RefuelRecords(g: Geocoder, s: SimState, at: Coord)
    ensures var r := Refuel(g, s, at);
      && EndsWithStop(g, s, r, OnDuty, "Fueling", 30 * 60, Some(at))
      && r.shift == s.shift && r.hos == AfterFuel(s.hos) && r.hos.milesSinceFuel == 0.0
  {
    PauseRecords(g, s, OnDuty, "Fueling", FuelDuration, Some(at));
  }

  /** The pickup (first leg) or dropoff (any later leg): a one-hour On Duty
      interval at the given place; shift and counters are unchanged. */
  lemma StopAtRecords(g: Geocoder, s: SimState, legIndex: nat, at: Coord)
    ensures var r := StopAt(g, s, legIndex, at);
      && EndsWithStop(g, s, r, OnDuty, if legIndex == 0 then "Pickup point" else "Dropoff point",
                      3600, Some(at))
      && r.shift == s.shift && r.hos == s.hos
  {
    PauseRecords(g, s, OnDuty, StopReason(legIndex), StopDuration, Some(at));
  }

  /** A leg with steps that runs through ends with its stop: the last interval
      is the one-hour On Duty pickup or dropoff at the end of the leg's last
      step, and the clock stands at its end with no drive open. */
  lemma {:induction false} LegEndsWithStop(g: Geocoder, s: SimState, steps: seq<Step>, i: nat,
                                           legIndex: nat)
    requires Valid(s.hos) && i < |steps|
    requires RunSteps(g, s, steps, i, legIndex).Ok?
    ensures var r := RunSteps(g, s, steps, i, legIndex).value;
      && r.timeline != [] && !IsDriving(r.drive)
      && Last(r.timeline).status == OnDuty
      && Last(r.timeline).reason == StopReason(legIndex)
      && Last(r.timeline).location == Some(steps[|steps| - 1].endLocation)
      && Last(r.timeline).endTime == Last(r.timeline).startTime + 3600.0 == r.clock
    decreases |steps| - i
  {
    var r1 := RunStep(g, s, steps[i], i == |steps| - 1, legIndex);
    assert r1.Ok?;
    assert RunSteps(g, s, steps, i, legIndex) == RunSteps(g, r1.value, steps, i + 1, legIndex);
    if i == |steps| - 1 {
      var d := StepDuration(steps[i]).value;
      var s1 := DriveLoop(g, s, d, StepMiles(steps[i]), steps[i].startLocation, steps[i].endLocation);
      assert r1.value == StopAt(g, s1, legIndex, steps[i].endLocation);
      StopAtRecords(g, s1, legIndex, steps[i].endLocation);
    } else {
      LegEndsWithStop(g, r1.value, steps, i + 1, legIndex);
    }
  }

  /** A planned trip reports the route's own distance converted to miles, the
      route's own duration in whole hours (truncated), and as arrival the
      clock once the last drive is closed; its last interval is the final
      leg's dropoff, or its pickup when the route has one leg. */
  lemma PlanTripSummary(response: RouteResponse, start: Option<real>, cycleUsedHours: real,
                        g: Geocoder)
    requires PlanTrip(response, start, cycleUsedHours, g).Ok?
    ensures var trip := PlanTrip(response, start, cycleUsedHours, g).value;
      var route := response.routes[0];
      && trip.summary.totalMiles == MilesFromMeters(route.distanceMeters)
      && trip.summary.predictedDrivingHours == Trunc(ParseDuration(route.duration).value / 3600.0)
      && (route.legs != [] && route.legs[|route.legs| - 1].steps != [] ==>
            && trip.timeline != []
            && Last(trip.timeline).reason == StopReason(|route.legs| - 1)
            && Last(trip.timeline).endTime == trip.summary.arrival)
  {
    var route := response.routes[0];
    var s0 := Start(start.value, cycleUsedHours);
    var s := RunLegs(g, s0, route.legs, 0).value;
    if route.legs != [] && route.legs[|route.legs| - 1].steps != [] {
      LastLegEndsWithStop(g, s0, route.legs, 0);
      EndDrivingCloses(g, s);
    }
  }

  lemma {:induction false} LastLegEndsWithStop(g: Geocoder, s: SimState, legs: seq<Leg>, i: nat)
    requires Valid(s.hos) && i < |legs| && legs[|legs| - 1].steps != []
    requires RunLegs(g, s, legs, i).Ok?
    ensures var r := RunLegs(g, s, legs, i).value;
      && r.timeline != [] && !IsDriving(r.drive)
      && Last(r.timeline).reason == StopReason(|legs| - 1)
      && Last(r.timeline).endTime == r.clock
    decreases |legs| - i
  {
    var r1 := RunSteps(g, s, legs[i].steps, 0, i);
    assert r1.Ok?;
    assert RunLegs(g, s, legs, i) == RunLegs(g, r1.value, legs, i + 1);
    if i == |legs| - 1 {
      LegEndsWithStop(g, s, legs[i].steps, 0, i);
    } else {
      LastLegEndsWithStop(g, r1.value, legs, i + 1);
    }
  }
}
