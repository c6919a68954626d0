/** Worked runs of the planner, each proved to produce exactly the timeline
    it lists. They pin the order of stops, the reset of the break clock, the
    10-hour rest and the new shift, where a fuelling stop is taken, the
    abandoned rest of a step after a cycle reset, a cycle pushed past 70
    hours, the fuel distance counted for a split step, and the pickup and
    dropoff of a two-leg route. */
module Scenarios {
  import opened Outcomes
  import opened HosRules
  import opened TripUtils
  import opened Timeline
  import opened DutyCounters
  import opened TripSpec

  const Origin := Coord(0.0, 0.0)
  const Pickup := Coord(9.0, 9.0)
  const Dropoff := Coord(18.0, 18.0)

  /** A route of one leg with one step of `seconds` seconds from Origin to Pickup. */
  function OneStepRoute(seconds: nat, meters: Option<real>): RouteResponse {
    var d := Text(ShowNat(seconds) + "s");
    RouteResponse([Route(0.0, d, "", [Leg([Step(Some(d), meters, Origin, Pickup)])])])
  }

  function StepOf(seconds: nat, meters: Option<real>): Step {
    Step(Some(Text(ShowNat(seconds) + "s")), meters, Origin, Pickup)
  }

  /** Planning a one-step route drives the step from the start state, stops
      at its end for the pickup and closes the drive. */
  lemma PlanOneStep(g: Geocoder, seconds: nat, meters: Option<real>, t0: real, hours: real)
    ensures var d := DriveLoop(g, Start(t0, hours), seconds as real, StepMiles(StepOf(seconds, meters)),
                               Origin, Pickup);
      var e := TripSpec.EndDriving(g, TripSpec.StopAt(g, d, 0, Pickup));
      PlanTrip(OneStepRoute(seconds, meters), Some(t0), hours, g)
        == Ok(Trip(Summary(0.0, Trunc(seconds as real / 3600.0), e.shift, e.clock), e.timeline))
  {
    ParseDurationRoundTrip(seconds);
    var s0 := Start(t0, hours);
    var legs := OneStepRoute(seconds, meters).routes[0].legs;
    assert legs == [Leg([StepOf(seconds, meters)])];
    var d := DriveLoop(g, s0, seconds as real, StepMiles(StepOf(seconds, meters)), Origin, Pickup);
    var s3 := TripSpec.StopAt(g, d, 0, Pickup);
    assert TripSpec.RunStep(g, s0, StepOf(seconds, meters), true, 0) == Ok(s3);
    assert RunSteps(g, s3, legs[0].steps, 1, 0) == Ok(s3);
    assert RunSteps(g, s0, legs[0].steps, 0, 0) == Ok(s3);
    assert RunLegs(g, s3, legs, 1) == Ok(s3);
    assert RunLegs(g, s0, legs, 0) == Ok(s3);
    assert MilesFromMeters(0.0) == 0.0;
  }

  /** A run whose legs end in state s plans the trip that closes the drive
      of s, with the route's own distance and duration in the summary. */
  lemma PlanFromRun(response: RouteResponse, t0: real, hours: real, g: Geocoder, s: SimState)
    requires response.routes != []
    requires RunLegs(g, Start(t0, hours), response.routes[0].legs, 0) == Ok(s)
    requires ParseDuration(response.routes[0].duration).Ok?
    ensures var e := TripSpec.EndDriving(g, s);
      var route := response.routes[0];
      PlanTrip(response, Some(t0), hours, g) == Ok(Trip(
        Summary(MilesFromMeters(route.distanceMeters),
                Trunc(ParseDuration(route.duration).value / 3600.0), e.shift, e.clock),
        e.timeline))
  {
  }

  /** The state a five-hour step of `miles` miles leaves behind: the drive still open. */
  function AfterFiveHours(miles: real): SimState {
    SimState(18000.0, 1, Counters(18000.0, 18000.0, 18000.0, 18000.0, miles),
             Drive(true, 0.0, Origin), [])
  }

  /** Five hours fit every budget of a fresh shift: one increment, no stop,
      as long as the step is shorter than the fuel distance. */
  lemma FiveHourDrive(g: Geocoder, miles: real)
    requires 0.0 <= miles < FuelMilesDistance as real
    ensures DriveLoop(g, Start(0.0, 0.0), 18000.0, miles, Origin, Pickup) == AfterFiveHours(miles)
  {
    var s1 := TripSpec.StartDriving(Start(0.0, 0.0), Origin);
    assert AllowedDrive(18000.0, s1.hos) == 18000.0;
    assert 18000.0 / 18000.0 == 1.0;
    assert Due(Advance(s1.hos, 18000.0, miles * 1.0)) == NothingDue;
  }

  /** After the five-hour drive: the drive closes at the pickup stop. */
  lemma FiveHourArrival(g: Geocoder)
    ensures var e := TripSpec.EndDriving(g, TripSpec.StopAt(g, AfterFiveHours(0.0), 0, Pickup));
      && e.clock == 21600.0 && e.shift == 1
      && e.timeline == [
        Interval(1, Driving, "", 0.0, 18000.0, Some(Origin), g(Origin), 300),
        Interval(1, OnDuty, "Pickup point", 18000.0, 21600.0, Some(Pickup), g(Pickup), 60) ]
  {
    var e := TripSpec.StopAt(g, AfterFiveHours(0.0), 0, Pickup);
    assert TripSpec.EndDriving(g, e) == e;
    assert DurationMinutes(0.0, 18000.0) == 300;
    assert DurationMinutes(18000.0, 21600.0) == 60;
  }

  /** A five-hour step from fresh counters: one drive, then the one-hour pickup stop. */
  lemma FiveHourStep(g: Geocoder)
    ensures PlanTrip(OneStepRoute(18000, None), Some(0.0), 0.0, g) == Ok(Trip(
      Summary(0.0, 5, 1, 21600.0),
      [ Interval(1, Driving, "", 0.0, 18000.0, Some(Origin), g(Origin), 300),
        Interval(1, OnDuty, "Pickup point", 18000.0, 21600.0, Some(Pickup), g(Pickup), 60) ]))
  {
    PlanOneStep(g, 18000, None, 0.0, 0.0);
    assert StepMiles(StepOf(18000, None)) == 0.0;
    FiveHourDrive(g, 0.0);
    FiveHourArrival(g);
    assert Trunc(18000.0 / 3600.0) == 5;
  }

  /** The first eight hours of a nine-hour step end in the 30-minute break,
      taken eight ninths of the way along the step. */
  lemma NineHourFirstIncrement(g: Geocoder, miles: real)
    requires 0.0 <= miles < 1125.0
    ensures DriveIncrement(g, TripSpec.StartDriving(Start(0.0, 0.0), Origin), 28800.0, 8.0 / 9.0,
                           miles, Origin, Pickup)
      == SimState(30600.0, 1, Counters(28800.0, 28800.0, 30600.0, 0.0, miles * (8.0 / 9.0)),
                  Drive(false, 0.0, Origin),
                  [ MakeInterval(g, 1, Driving, "", 0.0, 28800.0, Some(Origin)),
                    MakeInterval(g, 1, OffDuty, "30 min break", 28800.0, 30600.0, Some(Coord(8.0, 8.0))) ])
  {
    var h := Advance(Initial(0.0), 28800.0, miles * (8.0 / 9.0));
    assert Due(h) == BreakDue;
    assert Interpolate(Origin, Pickup, 8.0 / 9.0) == Coord(8.0, 8.0);
  }

  /** The state a nine-hour step with `miles` miles leaves behind. */
  function AfterNineHours(g: Geocoder, miles: real): SimState {
    SimState(34200.0, 1, Counters(32400.0, 32400.0, 34200.0, 3600.0, miles * (17.0 / 9.0)),
                  Drive(true, 30600.0, Origin),
                  [ MakeInterval(g, 1, Driving, "", 0.0, 28800.0, Some(Origin)),
                    MakeInterval(g, 1, OffDuty, "30 min break", 28800.0, 30600.0, Some(Coord(8.0, 8.0))) ])
  }

  /** A nine-hour step: eight hours of driving, the break, then a new drive
      for the last hour. The new drive is placed at the step's start, and the
      fuel distance counts the step's miles once for the last hour alone:
      17/9 of the miles the step covers. */
  lemma NineHourDrive(g: Geocoder, miles: real)
    requires 0.0 <= miles < 500.0
    ensures DriveLoop(g, Start(0.0, 0.0), 32400.0, miles, Origin, Pickup)
      == AfterNineHours(g, miles)
  {
    var s0 := Start(0.0, 0.0);
    var s1 := TripSpec.StartDriving(s0, Origin);
    assert AllowedDrive(32400.0, s1.hos) == 28800.0;
    assert 28800.0 / 32400.0 == 8.0 / 9.0;
    NineHourFirstIncrement(g, miles);
    var s2 := DriveIncrement(g, s1, 28800.0, 8.0 / 9.0, miles, Origin, Pickup);
    assert DriveLoop(g, s0, 32400.0, miles, Origin, Pickup) == DriveLoop(g, s2, 3600.0, miles, Origin, Pickup);
    var s3 := TripSpec.StartDriving(s2, Origin);
    assert AllowedDrive(3600.0, s3.hos) == 3600.0;
    assert 3600.0 / 3600.0 == 1.0;
    assert Due(Advance(s3.hos, 3600.0, miles * 1.0)) == NothingDue;
    var s4 := DriveIncrement(g, s3, 3600.0, 1.0, miles, Origin, Pickup);
    assert DriveLoop(g, s2, 3600.0, miles, Origin, Pickup) == DriveLoop(g, s4, 0.0, miles, Origin, Pickup);
  }

  /** After the nine-hour drive: the pickup stop, then nothing left to close. */
  lemma NineHourArrival(g: Geocoder)
    ensures var e := TripSpec.EndDriving(g, TripSpec.StopAt(g, AfterNineHours(g, 0.0), 0, Pickup));
      && e.clock == 37800.0 && e.shift == 1
      && e.timeline == [
        Interval(1, Driving, "", 0.0, 28800.0, Some(Origin), g(Origin), 480),
        Interval(1, OffDuty, "30 min break", 28800.0, 30600.0, Some(Coord(8.0, 8.0)), g(Coord(8.0, 8.0)), 30),
        Interval(1, Driving, "", 30600.0, 34200.0, Some(Origin), g(Origin), 60),
        Interval(1, OnDuty, "Pickup point", 34200.0, 37800.0, Some(Pickup), g(Pickup), 60) ]
  {
    var e := TripSpec.StopAt(g, AfterNineHours(g, 0.0), 0, Pickup);
    assert TripSpec.EndDriving(g, e) == e;
    assert DurationMinutes(0.0, 28800.0) == 480;
    assert DurationMinutes(28800.0, 30600.0) == 30;
    assert DurationMinutes(30600.0, 34200.0) == 60;
    assert DurationMinutes(34200.0, 37800.0) == 60;
  }

  /** The nine-hour step planned as a whole route, without distance. */
  lemma NineHourStep(g: Geocoder)
    ensures PlanTrip(OneStepRoute(32400, None), Some(0.0), 0.0, g) == Ok(Trip(
      Summary(0.0, 9, 1, 37800.0),
      [ Interval(1, Driving, "", 0.0, 28800.0, Some(Origin), g(Origin), 480),
        Interval(1, OffDuty, "30 min break", 28800.0, 30600.0, Some(Coord(8.0, 8.0)), g(Coord(8.0, 8.0)), 30),
        Interval(1, Driving, "", 30600.0, 34200.0, Some(Origin), g(Origin), 60),
        Interval(1, OnDuty, "Pickup point", 34200.0, 37800.0, Some(Pickup), g(Pickup), 60) ]))
  {
    PlanOneStep(g, 32400, None, 0.0, 0.0);
    assert StepMiles(StepOf(32400, None)) == 0.0;
    NineHourDrive(g, 0.0);
    NineHourArrival(g);
    assert Trunc(32400.0 / 3600.0) == 9;
  }

  /** The state a one-hour step leaves behind when the cycle has only six
      minutes left: six minutes of driving, then the 34-hour reset. */
  function AfterCycleEnd(g: Geocoder): SimState {
    SimState(122760.0, 2, Counters(0.0, 0.0, 0.0, 0.0, 0.0), Drive(false, 0.0, Origin),
             [ MakeInterval(g, 1, Driving, "", 0.0, 360.0, Some(Origin)),
               MakeInterval(g, 1, SleeperBerth, "34 hour cycle reset", 360.0, 122760.0, None) ])
  }

  /** With 69.9 hours used, a one-hour step drives the six minutes left in the
      cycle, then resets the cycle and gives up the other 54 minutes. */
  lemma CycleEndDrive(g: Geocoder)
    ensures DriveLoop(g, Start(0.0, 69.9), 3600.0, 0.0, Origin, Pickup) == AfterCycleEnd(g)
  {
    var s0 := Start(0.0, 69.9);
    var s1 := TripSpec.StartDriving(s0, Origin);
    assert AllowedDrive(3600.0, s1.hos) == 360.0;
    assert 360.0 / 3600.0 == 0.1;
    assert Due(Advance(s1.hos, 360.0, 0.0 * 0.1)) == NothingDue;
    var s2 := DriveIncrement(g, s1, 360.0, 0.1, 0.0, Origin, Pickup);
    assert DriveLoop(g, s0, 3600.0, 0.0, Origin, Pickup) == DriveLoop(g, s2, 3240.0, 0.0, Origin, Pickup);
    assert EnsureDriving(s2, Origin) == s2;
    assert AllowedDrive(3240.0, s2.hos) == 0.0;
    assert DriveLoop(g, s2, 3240.0, 0.0, Origin, Pickup) == TripSpec.CycleReset(g, s2);
  }

  /** The pickup stop after the reset belongs to the second shift. */
  lemma CycleEndArrival(g: Geocoder)
    ensures var e := TripSpec.EndDriving(g, TripSpec.StopAt(g, AfterCycleEnd(g), 0, Pickup));
      && e.clock == 126360.0 && e.shift == 2
      && e.timeline == [
        Interval(1, Driving, "", 0.0, 360.0, Some(Origin), g(Origin), 6),
        Interval(1, SleeperBerth, "34 hour cycle reset", 360.0, 122760.0, None, None, 2040),
        Interval(2, OnDuty, "Pickup point", 122760.0, 126360.0, Some(Pickup), g(Pickup), 60) ]
  {
    var e := TripSpec.StopAt(g, AfterCycleEnd(g), 0, Pickup);
    assert TripSpec.EndDriving(g, e) == e;
    assert DurationMinutes(0.0, 360.0) == 6;
    assert DurationMinutes(360.0, 122760.0) == 2040;
    assert DurationMinutes(122760.0, 126360.0) == 60;
  }

  /** A one-hour route started with 69.9 cycle hours used: six minutes of
      driving, the reset, and the pickup in shift 2 — the route arrives after
      six minutes of its hour of driving. */
  lemma CycleEndStep(g: Geocoder)
    ensures PlanTrip(OneStepRoute(3600, None), Some(0.0), 69.9, g) == Ok(Trip(
      Summary(0.0, 1, 2, 126360.0),
      [ Interval(1, Driving, "", 0.0, 360.0, Some(Origin), g(Origin), 6),
        Interval(1, SleeperBerth, "34 hour cycle reset", 360.0, 122760.0, None, None, 2040),
        Interval(2, OnDuty, "Pickup point", 122760.0, 126360.0, Some(Pickup), g(Pickup), 60) ]))
  {
    PlanOneStep(g, 3600, None, 0.0, 69.9);
    assert StepMiles(StepOf(3600, None)) == 0.0;
    CycleEndDrive(g);
    CycleEndArrival(g);
    assert Trunc(3600.0 / 3600.0) == 1;
  }

  /** The state a step leaves behind when the cycle is already used up: a
      drive opened and closed at once, then the reset. */
  function AfterSpentCycle(g: Geocoder): SimState {
    SimState(122400.0, 2, Counters(0.0, 0.0, 0.0, 0.0, 0.0), Drive(false, 0.0, Origin),
             [ MakeInterval(g, 1, Driving, "", 0.0, 0.0, Some(Origin)),
               MakeInterval(g, 1, SleeperBerth, "34 hour cycle reset", 0.0, 122400.0, None) ])
  }

  /** With all 70 hours used, the drive opens before the budget is checked,
      so the timeline gets a Driving interval of no length before the reset. */
  lemma SpentCycleDrive(g: Geocoder)
    ensures DriveLoop(g, Start(0.0, 70.0), 3600.0, 0.0, Origin, Pickup) == AfterSpentCycle(g)
    ensures AfterSpentCycle(g).timeline[0].startTime == AfterSpentCycle(g).timeline[0].endTime
  {
    var s0 := Start(0.0, 70.0);
    var s1 := TripSpec.StartDriving(s0, Origin);
    assert AllowedDrive(3600.0, s1.hos) == 0.0;
    assert DriveLoop(g, s0, 3600.0, 0.0, Origin, Pickup) == TripSpec.CycleReset(g, s1);
  }

  /** The state a two-hour step of 1500 miles leaves behind: the whole step
      driven in one increment, then the fuelling stop at the step's end. */
  function AfterFuelStep(g: Geocoder): SimState {
    SimState(9000.0, 1, Counters(9000.0, 7200.0, 9000.0, 7200.0, 0.0), Drive(false, 0.0, Origin),
             [ MakeInterval(g, 1, Driving, "", 0.0, 7200.0, Some(Origin)),
               MakeInterval(g, 1, OnDuty, "Fueling", 7200.0, 9000.0, Some(Pickup)) ])
  }

  /** The fuel distance is checked only once an increment is driven: a
      1500-mile step that fits every budget crosses 1000 miles two thirds of
      the way along, at (6, 6), yet the fuelling stop is taken at the step's
      end, (9, 9). */
  lemma FuelAtStepEnd(g: Geocoder)
    ensures DriveLoop(g, Start(0.0, 0.0), 7200.0, 1500.0, Origin, Pickup) == AfterFuelStep(g)
    ensures Interpolate(Origin, Pickup, 1000.0 / 1500.0) == Coord(6.0, 6.0)
    ensures AfterFuelStep(g).timeline[1].location == Some(Pickup)
  {
    var s0 := Start(0.0, 0.0);
    var s1 := TripSpec.StartDriving(s0, Origin);
    assert AllowedDrive(7200.0, s1.hos) == 7200.0;
    assert 7200.0 / 7200.0 == 1.0;
    var h := Advance(s1.hos, 7200.0, 1500.0 * 1.0);
    assert Due(h) == FuelDue;
    assert Interpolate(Origin, Pickup, 1.0) == Pickup;
    var s2 := DriveIncrement(g, s1, 7200.0, 1.0, 1500.0, Origin, Pickup);
    assert s2 == AfterFuelStep(g);
    assert DriveLoop(g, s0, 7200.0, 1500.0, Origin, Pickup) == DriveLoop(g, s2, 0.0, 1500.0, Origin, Pickup);
  }

  /** The state once a twelve-hour step of `miles` miles has driven its first
      eight hours and taken the break two thirds of the way along. */
  function AfterTwelveHourBreak(g: Geocoder, miles: real): SimState {
    SimState(30600.0, 1, Counters(28800.0, 28800.0, 30600.0, 0.0, miles * (2.0 / 3.0)),
             Drive(false, 0.0, Origin),
             [ MakeInterval(g, 1, Driving, "", 0.0, 28800.0, Some(Origin)),
               MakeInterval(g, 1, OffDuty, "30 min break", 28800.0, 30600.0, Some(Coord(6.0, 6.0))) ])
  }

  /** The state once the same step has driven three more hours, reached the
      11-hour driving limit and taken the 10-hour rest three quarters of the
      way along what was left. The rest keeps the fuel distance. */
  function AfterTwelveHourRest(g: Geocoder, miles: real): SimState {
    SimState(77400.0, 2, Counters(39600.0, 0.0, 0.0, 0.0, miles * (2.0 / 3.0) + miles * 0.75),
             Drive(false, 30600.0, Origin),
             [ MakeInterval(g, 1, Driving, "", 0.0, 28800.0, Some(Origin)),
               MakeInterval(g, 1, OffDuty, "30 min break", 28800.0, 30600.0, Some(Coord(6.0, 6.0))),
               MakeInterval(g, 1, Driving, "", 30600.0, 41400.0, Some(Origin)),
               MakeInterval(g, 1, SleeperBerth, "10 hour rest", 41400.0, 77400.0, Some(Coord(6.75, 6.75))) ])
  }

  /** The state a twelve-hour step leaves behind: the last hour is driven in
      the second shift and its drive is still open. */
  function AfterTwelveHours(g: Geocoder, miles: real): SimState {
    SimState(81000.0, 2, Counters(43200.0, 3600.0, 3600.0, 3600.0, miles * (2.0 / 3.0) + miles * 0.75 + miles),
             Drive(true, 77400.0, Origin),
             AfterTwelveHourRest(g, miles).timeline)
  }

  lemma TwelveHourBreak(g: Geocoder, miles: real)
    requires 0.0 <= miles < 400.0
    ensures DriveLoop(g, Start(0.0, 0.0), 43200.0, miles, Origin, Pickup)
         == DriveLoop(g, AfterTwelveHourBreak(g, miles), 14400.0, miles, Origin, Pickup)
  {
    var s0 := Start(0.0, 0.0);
    var s1 := TripSpec.StartDriving(s0, Origin);
    assert AllowedDrive(43200.0, s1.hos) == 28800.0;
    assert 28800.0 / 43200.0 == 2.0 / 3.0;
    assert Due(Advance(s1.hos, 28800.0, miles * (2.0 / 3.0))) == BreakDue;
    assert Interpolate(Origin, Pickup, 2.0 / 3.0) == Coord(6.0, 6.0);
    var s2 := DriveIncrement(g, s1, 28800.0, 2.0 / 3.0, miles, Origin, Pickup);
    assert s2 == AfterTwelveHourBreak(g, miles);
  }

  lemma TwelveHourRest(g: Geocoder, miles: real)
    requires 0.0 <= miles < 400.0
    ensures DriveLoop(g, AfterTwelveHourBreak(g, miles), 14400.0, miles, Origin, Pickup)
         == DriveLoop(g, AfterTwelveHourRest(g, miles), 3600.0, miles, Origin, Pickup)
  {
    var s1 := TripSpec.StartDriving(AfterTwelveHourBreak(g, miles), Origin);
    assert AllowedDrive(14400.0, s1.hos) == 10800.0;
    assert 10800.0 / 14400.0 == 0.75;
    assert Due(Advance(s1.hos, 10800.0, miles * 0.75)) == RestDue;
    assert Interpolate(Origin, Pickup, 0.75) == Coord(6.75, 6.75);
    var s2 := DriveIncrement(g, s1, 10800.0, 0.75, miles, Origin, Pickup);
    assert s2 == AfterTwelveHourRest(g, miles);
  }

  /** A twelve-hour step from fresh counters: eight hours and the break, three
      more hours up to the 11-hour limit and the 10-hour rest, then the last
      hour in a new shift. */
  lemma TwelveHourDrive(g: Geocoder, miles: real)
    requires 0.0 <= miles < 400.0
    ensures DriveLoop(g, Start(0.0, 0.0), 43200.0, miles, Origin, Pickup) == AfterTwelveHours(g, miles)
  {
    TwelveHourBreak(g, miles);
    TwelveHourRest(g, miles);
    var s0 := AfterTwelveHourRest(g, miles);
    var s1 := TripSpec.StartDriving(s0, Origin);
    assert AllowedDrive(3600.0, s1.hos) == 3600.0;
    assert 3600.0 / 3600.0 == 1.0;
    assert Due(Advance(s1.hos, 3600.0, miles * 1.0)) == NothingDue;
    var s2 := DriveIncrement(g, s1, 3600.0, 1.0, miles, Origin, Pickup);
    assert s2 == AfterTwelveHours(g, miles);
    assert DriveLoop(g, s0, 3600.0, miles, Origin, Pickup) == DriveLoop(g, s2, 0.0, miles, Origin, Pickup);
  }

  /** After the twelve-hour drive: the pickup closes the drive of the second shift. */
  lemma TwelveHourArrival(g: Geocoder, miles: real)
    ensures var e := TripSpec.EndDriving(g, TripSpec.StopAt(g, AfterTwelveHours(g, miles), 0, Pickup));
      && e.clock == 84600.0 && e.shift == 2
      && e.timeline == [
        Interval(1, Driving, "", 0.0, 28800.0, Some(Origin), g(Origin), 480),
        Interval(1, OffDuty, "30 min break", 28800.0, 30600.0, Some(Coord(6.0, 6.0)), g(Coord(6.0, 6.0)), 30),
        Interval(1, Driving, "", 30600.0, 41400.0, Some(Origin), g(Origin), 180),
        Interval(1, SleeperBerth, "10 hour rest", 41400.0, 77400.0, Some(Coord(6.75, 6.75)),
                 g(Coord(6.75, 6.75)), 600),
        Interval(2, Driving, "", 77400.0, 81000.0, Some(Origin), g(Origin), 60),
        Interval(2, OnDuty, "Pickup point", 81000.0, 84600.0, Some(Pickup), g(Pickup), 60) ]
  {
    var e := TripSpec.StopAt(g, AfterTwelveHours(g, miles), 0, Pickup);
    assert TripSpec.EndDriving(g, e) == e;
    assert DurationMinutes(0.0, 28800.0) == 480;
    assert DurationMinutes(28800.0, 30600.0) == 30;
    assert DurationMinutes(30600.0, 41400.0) == 180;
    assert DurationMinutes(41400.0, 77400.0) == 600;
    assert DurationMinutes(77400.0, 81000.0) == 60;
    assert DurationMinutes(81000.0, 84600.0) == 60;
  }

  /** The twelve-hour step planned as a whole route: the 10-hour rest starts
      the second shift, to which the last drive and the pickup belong. */
  lemma TwelveHourStep(g: Geocoder, meters: real)
    requires 0.0 <= meters <= 600000.0
    ensures PlanTrip(OneStepRoute(43200, Some(meters)), Some(0.0), 0.0, g) == Ok(Trip(
      Summary(0.0, 12, 2, 84600.0),
      [ Interval(1, Driving, "", 0.0, 28800.0, Some(Origin), g(Origin), 480),
        Interval(1, OffDuty, "30 min break", 28800.0, 30600.0, Some(Coord(6.0, 6.0)), g(Coord(6.0, 6.0)), 30),
        Interval(1, Driving, "", 30600.0, 41400.0, Some(Origin), g(Origin), 180),
        Interval(1, SleeperBerth, "10 hour rest", 41400.0, 77400.0, Some(Coord(6.75, 6.75)),
                 g(Coord(6.75, 6.75)), 600),
        Interval(2, Driving, "", 77400.0, 81000.0, Some(Origin), g(Origin), 60),
        Interval(2, OnDuty, "Pickup point", 81000.0, 84600.0, Some(Pickup), g(Pickup), 60) ]))
  {
    PlanOneStep(g, 43200, Some(meters), 0.0, 0.0);
    var miles := StepMiles(StepOf(43200, Some(meters)));
    assert miles == MilesFromMeters(meters) < 400.0;
    TwelveHourDrive(g, miles);
    TwelveHourArrival(g, miles);
    assert Trunc(43200.0 / 3600.0) == 12;
  }

  /** A route of two legs, each one step of an hour and `meters` metres:
      Origin to Pickup, then Pickup to Dropoff. */
  function TwoLegRoute(meters: real): RouteResponse {
    var hour := Number(3600.0);
    RouteResponse([Route(meters + meters, Number(7200.0), "",
      [ Leg([Step(Some(hour), Some(meters), Origin, Pickup)]),
        Leg([Step(Some(hour), Some(meters), Pickup, Dropoff)]) ])])
  }

  /** The state the first leg leaves behind: an hour of driving and the pickup. */
  function AfterFirstLeg(g: Geocoder, miles: real): SimState {
    SimState(7200.0, 1, Counters(3600.0, 3600.0, 3600.0, 3600.0, miles), Drive(false, 0.0, Origin),
             [ MakeInterval(g, 1, Driving, "", 0.0, 3600.0, Some(Origin)),
               MakeInterval(g, 1, OnDuty, "Pickup point", 3600.0, 7200.0, Some(Pickup)) ])
  }

  /** The state the second leg leaves behind: another hour and the dropoff. */
  function AfterSecondLeg(g: Geocoder, miles: real): SimState {
    SimState(14400.0, 1, Counters(7200.0, 7200.0, 7200.0, 7200.0, miles + miles),
             Drive(false, 7200.0, Pickup),
             [ MakeInterval(g, 1, Driving, "", 0.0, 3600.0, Some(Origin)),
               MakeInterval(g, 1, OnDuty, "Pickup point", 3600.0, 7200.0, Some(Pickup)),
               MakeInterval(g, 1, Driving, "", 7200.0, 10800.0, Some(Pickup)),
               MakeInterval(g, 1, OnDuty, "Dropoff point", 10800.0, 14400.0, Some(Dropoff)) ])
  }

  /** A leg of one one-hour step that fits every budget and needs no stop:
      one drive from the step's start, then the leg's stop at its end. */
  lemma HourLeg(g: Geocoder, s: SimState, step: Step, legIndex: nat)
    requires step.staticDuration == Some(Number(3600.0))
    requires Valid(s.hos) && !IsDriving(s.drive)
    requires AllowedDrive(3600.0, s.hos) == 3600.0
    requires Due(Advance(s.hos, 3600.0, StepMiles(step))) == NothingDue
    ensures RunSteps(g, s, [step], 0, legIndex) == Ok(TripSpec.StopAt(g,
      s.(clock := s.clock + 3600.0, hos := Advance(s.hos, 3600.0, StepMiles(step)),
         drive := Drive(true, s.clock, step.startLocation)),
      legIndex, step.endLocation))
  {
    var miles := StepMiles(step);
    var s1 := TripSpec.StartDriving(s, step.startLocation);
    assert 3600.0 / 3600.0 == 1.0;
    assert miles * 1.0 == miles;
    var s2 := DriveIncrement(g, s1, 3600.0, 1.0, miles, step.startLocation, step.endLocation);
    assert DriveLoop(g, s, 3600.0, miles, step.startLocation, step.endLocation)
        == DriveLoop(g, s2, 0.0, miles, step.startLocation, step.endLocation);
    assert RunStep(g, s, step, true, legIndex) == Ok(TripSpec.StopAt(g, s2, legIndex, step.endLocation));
  }

  lemma FirstLeg(g: Geocoder, meters: real)
    requires 0.0 <= meters <= 100000.0
    ensures RunSteps(g, Start(0.0, 0.0), TwoLegRoute(meters).routes[0].legs[0].steps, 0, 0)
         == Ok(AfterFirstLeg(g, MilesFromMeters(meters)))
  {
    var s0 := Start(0.0, 0.0);
    var step := Step(Some(Number(3600.0)), Some(meters), Origin, Pickup);
    assert TwoLegRoute(meters).routes[0].legs[0].steps == [step];
    var miles := MilesFromMeters(meters);
    assert StepMiles(step) == miles < 100.0;
    assert AllowedDrive(3600.0, s0.hos) == 3600.0;
    assert Due(Advance(s0.hos, 3600.0, miles)) == NothingDue;
    HourLeg(g, s0, step, 0);
    var s1 := s0.(clock := 3600.0, hos := Advance(s0.hos, 3600.0, miles), drive := Drive(true, 0.0, Origin));
    var s2 := TripSpec.EndDriving(g, s1);
    assert s2 == s1.(timeline := [MakeInterval(g, 1, Driving, "", 0.0, 3600.0, Some(Origin))],
                     drive := Drive(false, 0.0, Origin));
    assert TripSpec.StopAt(g, s1, 0, Pickup) == AfterFirstLeg(g, miles);
  }

  lemma SecondLeg(g: Geocoder, meters: real)
    requires 0.0 <= meters <= 100000.0
    ensures var miles := MilesFromMeters(meters);
      RunSteps(g, AfterFirstLeg(g, miles), TwoLegRoute(meters).routes[0].legs[1].steps, 0, 1)
         == Ok(AfterSecondLeg(g, miles))
  {
    var miles := MilesFromMeters(meters);
    var s0 := AfterFirstLeg(g, miles);
    var step := Step(Some(Number(3600.0)), Some(meters), Pickup, Dropoff);
    assert TwoLegRoute(meters).routes[0].legs[1].steps == [step];
    assert StepMiles(step) == miles < 100.0;
    assert AllowedDrive(3600.0, s0.hos) == 3600.0;
    assert Due(Advance(s0.hos, 3600.0, miles)) == NothingDue;
    HourLeg(g, s0, step, 1);
    var s1 := s0.(clock := 10800.0, hos := Advance(s0.hos, 3600.0, miles), drive := Drive(true, 7200.0, Pickup));
    var s2 := TripSpec.EndDriving(g, s1);
    assert s2 == s1.(timeline := s0.timeline + [MakeInterval(g, 1, Driving, "", 7200.0, 10800.0, Some(Pickup))],
                     drive := Drive(false, 7200.0, Pickup));
    assert TripSpec.StopAt(g, s1, 1, Dropoff) == AfterSecondLeg(g, miles);
  }

  lemma TwoLegRun(g: Geocoder, meters: real)
    requires 0.0 <= meters <= 100000.0
    ensures RunLegs(g, Start(0.0, 0.0), TwoLegRoute(meters).routes[0].legs, 0)
         == Ok(AfterSecondLeg(g, MilesFromMeters(meters)))
  {
    var miles := MilesFromMeters(meters);
    var legs := TwoLegRoute(meters).routes[0].legs;
    FirstLeg(g, meters);
    SecondLeg(g, meters);
    var s1, s2 := AfterFirstLeg(g, miles), AfterSecondLeg(g, miles);
    assert RunLegs(g, s2, legs, 2) == Ok(s2);
    assert RunLegs(g, s1, legs, 1) == Ok(s2);
  }

  /** After both legs no drive is open, and the timeline holds both drives and both stops. */
  lemma TwoLegArrival(g: Geocoder, miles: real)
    ensures TripSpec.EndDriving(g, AfterSecondLeg(g, miles)) == AfterSecondLeg(g, miles)
    ensures AfterSecondLeg(g, miles).timeline == [
        Interval(1, Driving, "", 0.0, 3600.0, Some(Origin), g(Origin), 60),
        Interval(1, OnDuty, "Pickup point", 3600.0, 7200.0, Some(Pickup), g(Pickup), 60),
        Interval(1, Driving, "", 7200.0, 10800.0, Some(Pickup), g(Pickup), 60),
        Interval(1, OnDuty, "Dropoff point", 10800.0, 14400.0, Some(Dropoff), g(Dropoff), 60) ]
  {
    assert DurationMinutes(0.0, 3600.0) == 60;
    assert DurationMinutes(3600.0, 7200.0) == 60;
    assert DurationMinutes(7200.0, 10800.0) == 60;
    assert DurationMinutes(10800.0, 14400.0) == 60;
  }

  /** Two one-hour legs: the first ends with the pickup, the second with the
      dropoff, each drive starting where its leg starts; the summary reports
      the route's own distance. */
  lemma TwoLegTrip(g: Geocoder, meters: real)
    requires 0.0 <= meters <= 100000.0
    ensures PlanTrip(TwoLegRoute(meters), Some(0.0), 0.0, g) == Ok(Trip(
      Summary(MilesFromMeters(meters + meters), 2, 1, 14400.0),
      [ Interval(1, Driving, "", 0.0, 3600.0, Some(Origin), g(Origin), 60),
        Interval(1, OnDuty, "Pickup point", 3600.0, 7200.0, Some(Pickup), g(Pickup), 60),
        Interval(1, Driving, "", 7200.0, 10800.0, Some(Pickup), g(Pickup), 60),
        Interval(1, OnDuty, "Dropoff point", 10800.0, 14400.0, Some(Dropoff), g(Dropoff), 60) ]))
  {
    var s := AfterSecondLeg(g, MilesFromMeters(meters));
    TwoLegRun(g, meters);
    PlanFromRun(TwoLegRoute(meters), 0.0, 0.0, g, s);
    TwoLegArrival(g, MilesFromMeters(meters));
    assert Trunc(7200.0 / 3600.0) == 2;
  }

  /** The state after the first increment of a 90-minute, 2000-mile step
      started with 69 cycle hours used: the hour left in the cycle driven,
      then a fuelling stop that takes the cycle past its 70 hours. */
  function AfterFuelPastCycle(g: Geocoder): SimState {
    SimState(5400.0, 1, Counters(253800.0, 3600.0, 5400.0, 3600.0, 0.0), Drive(false, 0.0, Origin),
             [ MakeInterval(g, 1, Driving, "", 0.0, 3600.0, Some(Origin)),
               MakeInterval(g, 1, OnDuty, "Fueling", 3600.0, 5400.0, Some(Coord(6.0, 6.0))) ])
  }

  /** The state that step leaves behind: the drive reopened at 70.5 cycle
      hours, closed at once with no length, and the 34-hour reset. */
  function AfterCycleOverrun(g: Geocoder): SimState {
    SimState(127800.0, 2, Counters(0.0, 0.0, 0.0, 0.0, 0.0), Drive(false, 5400.0, Origin),
             [ MakeInterval(g, 1, Driving, "", 0.0, 3600.0, Some(Origin)),
               MakeInterval(g, 1, OnDuty, "Fueling", 3600.0, 5400.0, Some(Coord(6.0, 6.0))),
               MakeInterval(g, 1, Driving, "", 5400.0, 5400.0, Some(Origin)),
               MakeInterval(g, 1, SleeperBerth, "34 hour cycle reset", 5400.0, 127800.0, None) ])
  }

  /** The fuelling stop is counted against the cycle without checking it: a
      stop taken with the cycle at exactly 70 hours leaves it at 70.5 hours
      when the next drive opens, and that drive is recorded before the reset. */
  lemma FuelPastCycle(g: Geocoder)
    ensures DriveLoop(g, Start(0.0, 69.0), 5400.0, 2000.0, Origin, Pickup)
         == DriveLoop(g, AfterFuelPastCycle(g), 1800.0, 2000.0, Origin, Pickup)
    ensures AfterFuelPastCycle(g).hos.cycleUsed > MaxCycleSeconds as real
    ensures DriveLoop(g, AfterFuelPastCycle(g), 1800.0, 2000.0, Origin, Pickup) == AfterCycleOverrun(g)
  {
    var s0 := Start(0.0, 69.0);
    var s1 := TripSpec.StartDriving(s0, Origin);
    assert AllowedDrive(5400.0, s1.hos) == 3600.0;
    assert 3600.0 / 5400.0 == 2.0 / 3.0;
    assert Due(Advance(s1.hos, 3600.0, 2000.0 * (2.0 / 3.0))) == FuelDue;
    assert Interpolate(Origin, Pickup, 2.0 / 3.0) == Coord(6.0, 6.0);
    var s2 := DriveIncrement(g, s1, 3600.0, 2.0 / 3.0, 2000.0, Origin, Pickup);
    assert s2 == AfterFuelPastCycle(g);
    var s3 := TripSpec.StartDriving(s2, Origin);
    assert AllowedDrive(1800.0, s3.hos) == -1800.0;
    assert DriveLoop(g, s2, 1800.0, 2000.0, Origin, Pickup) == TripSpec.CycleReset(g, s3);
  }
}
