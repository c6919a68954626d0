/** The planning run as a function of its inputs. Every operation of the run
    (recording an interval, opening and closing a drive, each kind of stop, one
    step of the route, the whole route) maps one simulation state to the
    next; the imperative planner in module TripPlanner is proved to follow
    these functions step by step, and module TripProperties proves what they
    guarantee. */
module TripSpec {
  import opened Outcomes
  import opened HosRules
  import opened TripUtils
  import opened Timeline
  import opened DutyCounters

  // ---------------------------------------------------------------------
  // Inputs
  // ---------------------------------------------------------------------

  /** A routed step; a missing duration counts as "0s", a missing distance as 0. */
  datatype Step = Step(
    staticDuration: Option<DurationValue>,
    distanceMeters: Option<real>,
    startLocation: Coord,
    endLocation: Coord)

  datatype Leg = Leg(steps: seq<Step>)

  datatype Route = Route(
    distanceMeters: real,
    duration: DurationValue,
    encodedPolyline: string,
    legs: seq<Leg>)

  /** What the route service answered: possibly no route at all. */
  datatype RouteResponse = RouteResponse(routes: seq<Route>)

  // ---------------------------------------------------------------------
  // Outputs
  // ---------------------------------------------------------------------

  datatype Summary = Summary(
    totalMiles: real,
    predictedDrivingHours: int,
    totalShifts: int,
    arrival: real)

  datatype Trip = Trip(summary: Summary, timeline: seq<Interval>)

  datatype TripError =
    | NoRoute(raw: RouteResponse)     // the route service returned no route
    | BadStartTime                    // the start timestamp does not parse
    | MalformedDuration(text: string) // a duration string is not a number

  // ---------------------------------------------------------------------
  // State of a run
  // ---------------------------------------------------------------------

  /** The drive marker: none yet, or the last drive opened, still active or closed. */
  datatype DriveState = NoDrive | Drive(active: bool, startTime: real, location: Coord)

  predicate IsDriving(d: DriveState) {
    d.Drive? && d.active
  }

  datatype SimState = SimState(
    clock: real,
    shift: int,
    hos: Counters,
    drive: DriveState,
    timeline: seq<Interval>)

  function Start(t0: real, cycleUsedHours: real): SimState {
    SimState(t0, 1, Initial(cycleUsedHours), NoDrive, [])
  }

  /** The point a fraction of the way from a to b. */
  function Interpolate(a: Coord, b: Coord, fraction: real): Coord {
    Coord(a.latitude + fraction * (b.latitude - a.latitude),
          a.longitude + fraction * (b.longitude - a.longitude))
  }

  function StopReason(legIndex: nat): string {
    if legIndex == 0 then "Pickup point" else "Dropoff point"
  }

  // ---------------------------------------------------------------------
  // Operations
  // ---------------------------------------------------------------------

  function Record(g: Geocoder, s: SimState, status: string, reason: string,
                  start: real, end: real, location: Option<Coord>): SimState
  {
    s.(timeline := s.timeline + [MakeInterval(g, s.shift, status, reason, start, end, location)])
  }

  function StartDriving(s: SimState, location: Coord): SimState {
    s.(drive := Drive(true, s.clock, location))
  }

  /** Closes an active drive as a Driving interval ending now; otherwise nothing. */
  function EndDriving(g: Geocoder, s: SimState): SimState {
    if IsDriving(s.drive) then
      Record(g, s, Driving, "", s.drive.startTime, s.clock, Some(s.drive.location))
        .(drive := s.drive.(active := false))
    else s
  }

  /** Closes the drive and records a stop of `length` seconds starting now;
      the clock moves to the end of the stop. */
  function Pause(g: Geocoder, s: SimState, status: string, reason: string,
                 length: int, at: Option<Coord>): SimState
  {
    var s1 := EndDriving(g, s);
    var stopEnd := s1.clock + length as real;
    Record(g, s1, status, reason, s1.clock, stopEnd, at).(clock := stopEnd)
  }

  function CycleReset(g: Geocoder, s: SimState): SimState {
    Pause(g, s, SleeperBerth, "34 hour cycle reset", CycleResetDuration, None)
      .(hos := AfterReset(s.hos), shift := s.shift + 1)
  }

  function TakeBreak(g: Geocoder, s: SimState, at: Coord): SimState {
    Pause(g, s, OffDuty, "30 min break", BreakDuration, Some(at)).(hos := AfterBreak(s.hos))
  }

  function TakeRest(g: Geocoder, s: SimState, at: Coord): SimState {
    Pause(g, s, SleeperBerth, "10 hour rest", RestDuration, Some(at))
      .(shift := s.shift + 1, hos := AfterRest(s.hos))
  }

  function Refuel(g: Geocoder, s: SimState, at: Coord): SimState {
    Pause(g, s, OnDuty, "Fueling", FuelDuration, Some(at)).(hos := AfterFuel(s.hos))
  }

  /** The stop a drive increment triggers, in priority order, taken at `at`. */
  function TakeDueStop(g: Geocoder, s: SimState, at: Coord): (r: SimState)
    ensures r.hos == Settle(s.hos)
  {
    match Due(s.hos)
    case BreakDue => TakeBreak(g, s, at)
    case RestDue => TakeRest(g, s, at)
    case FuelDue => Refuel(g, s, at)
    case NothingDue => s
  }

  /** The one-hour pickup or dropoff stop at the end of a leg. */
  function StopAt(g: Geocoder, s: SimState, legIndex: nat, at: Coord): SimState {
    Pause(g, s, OnDuty, StopReason(legIndex), StopDuration, Some(at))
  }

  /** Opens a drive at the step's start unless one is active. */
  function EnsureDriving(s: SimState, at: Coord): SimState {
    if IsDriving(s.drive) then s else StartDriving(s, at)
  }

  /** Drives `allowed` seconds of a step from a towards b, where `fraction`
      is the share of the step's whole extent this counts for: the position
      reached is that fraction of the way from the step's start, and the miles
      covered that fraction of the step's miles. Then the stop the counters
      call for, if any, is taken there. */
  function DriveIncrement(g: Geocoder, s: SimState, allowed: real, fraction: real,
                          miles: real, a: Coord, b: Coord): (r: SimState)
    ensures r.hos == Settle(Advance(s.hos, allowed, miles * fraction))
  {
    var s2 := s.(clock := s.clock + allowed, hos := Advance(s.hos, allowed, miles * fraction));
    TakeDueStop(g, s2, Interpolate(a, b, fraction))
  }

  /** Drives the `remaining` seconds of a step from a towards b, taking every
      stop the limits call for; a cycle reset abandons the rest of the step.
      While some of the step is left, a drive is opened at the step's start
      unless one is active, and DriveOn takes one turn. */
  function DriveLoop(g: Geocoder, s: SimState, remaining: real, miles: real,
                     a: Coord, b: Coord): (r: SimState)
    requires Valid(s.hos)
    ensures Valid(r.hos)
    decreases HoursLeft(remaining), Stage(s.hos), 1
  {
    if remaining <= 0.0 then s
    else DriveOn(g, EnsureDriving(s, a), remaining, miles, a, b)
  }

  /** One turn of the drive loop with a drive open: with no driving allowed, a
      cycle reset ends the step; otherwise drive as long as allowed, take the
      stop due and go on with the rest. Each increment counts for the fraction
      allowed / remaining, relative to what is left of the step rather than to
      its whole duration: it reaches that fraction of the way from the step's
      start and covers that fraction of the step's miles. */
  function DriveOn(g: Geocoder, s: SimState, remaining: real, miles: real,
                   a: Coord, b: Coord): (r: SimState)
    requires Valid(s.hos) && remaining > 0.0
    ensures Valid(r.hos)
    decreases HoursLeft(remaining), Stage(s.hos), 0
  {
    var allowed := AllowedDrive(remaining, s.hos);
    if allowed <= 0.0 then CycleReset(g, s)
    else
      var fraction := allowed / remaining;
      Progress(remaining, s.hos, miles * fraction);
      DriveLoop(g, DriveIncrement(g, s, allowed, fraction, miles, a, b), remaining - allowed, miles, a, b)
  }

  function StepDuration(step: Step): Result<real, string> {
    match step.staticDuration
    case Some(v) => ParseDuration(v)
    case None => ParseDuration(Text("0s"))
  }

  function StepMiles(step: Step): real {
    match step.distanceMeters
    case Some(m) => MilesFromMeters(m)
    case None => MilesFromMeters(0.0)
  }

  /** One step of a leg; the last step of a leg ends with its stop. */
  function RunStep(g: Geocoder, s: SimState, step: Step, isLast: bool, legIndex: nat)
    : (r: Result<SimState, TripError>)
    requires Valid(s.hos)
    ensures r.Ok? ==> Valid(r.value.hos)
  {
    match StepDuration(step)
    case Err(text) => Err(MalformedDuration(text))
    case Ok(duration) =>
      var s1 := DriveLoop(g, s, duration, StepMiles(step), step.startLocation, step.endLocation);
      Ok(if isLast then StopAt(g, s1, legIndex, step.endLocation) else s1)
  }

  /** Steps i.. of the leg with index legIndex. */
  function RunSteps(g: Geocoder, s: SimState, steps: seq<Step>, i: nat, legIndex: nat)
    : (r: Result<SimState, TripError>)
    requires Valid(s.hos) && i <= |steps|
    ensures r.Ok? ==> Valid(r.value.hos)
    decreases |steps| - i
  {
    if i == |steps| then Ok(s)
    else
      match RunStep(g, s, steps[i], i == |steps| - 1, legIndex)
      case Err(e) => Err(e)
      case Ok(s1) => RunSteps(g, s1, steps, i + 1, legIndex)
  }

  /** Legs i.. of the route. */
  function RunLegs(g: Geocoder, s: SimState, legs: seq<Leg>, i: nat)
    : (r: Result<SimState, TripError>)
    requires Valid(s.hos) && i <= |legs|
    ensures r.Ok? ==> Valid(r.value.hos)
    decreases |legs| - i
  {
    if i == |legs| then Ok(s)
    else
      match RunSteps(g, s, legs[i].steps, 0, i)
      case Err(e) => Err(e)
      case Ok(s1) => RunLegs(g, s1, legs, i + 1)
  }

  /** The whole planning run: the first route's legs, the final close of the
      drive, and the summary. */
  function PlanTrip(response: RouteResponse, start: Option<real>, cycleUsedHours: real,
                    g: Geocoder): Result<Trip, TripError>
  {
    if response.routes == [] then Err(NoRoute(response))
    else if start.None? then Err(BadStartTime)
    else
      var route := response.routes[0];
      match RunLegs(g, Start(start.value, cycleUsedHours), route.legs, 0)
      case Err(e) => Err(e)
      case Ok(s) =>
        var s' := EndDriving(g, s);
        match ParseDuration(route.duration)
        case Err(text) => Err(MalformedDuration(text))
        case Ok(seconds) =>
          Ok(Trip(Summary(MilesFromMeters(route.distanceMeters),
                          Trunc(seconds / SecondsPerHour as real),
                          s'.shift, s'.clock),
                  s'.timeline))
  }
}
