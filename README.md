# Hours-of-Service trip timeline planner, modelled in Dafny

The modelled system plans a truck trip under the US Hours-of-Service (HOS) rules. It takes the
first route a routing service returns, walks its legs and steps in order, and simulates a clock
and five running counters:

- seconds used in the 70-hour cycle;
- seconds driven in the current shift;
- seconds on duty in the current shift;
- seconds driven since the last 30-minute break;
- miles driven since the last fuelling stop.

Each step is driven in increments. An increment is as long as the rest of the step and the four
time budgets allow. After each increment the counters may call for a stop, in this priority
order:

1. a 30-minute break once 8 hours have been driven since the last break;
2. a 10-hour rest, which starts a new shift, once 11 hours of driving or 14 hours on duty are
   reached in the shift;
3. a 30-minute fuelling stop once 1000 miles have been driven since the last one.

When no driving at all is allowed, the planner takes a 34-hour cycle reset and gives up the rest
of the step. The last step of each leg ends with a one-hour pickup stop (first leg) or dropoff
stop (later legs). Every activity is appended to a timeline of duty intervals:

- Driving;
- Off Duty (break);
- Sleeper Berth (rest or reset);
- On Duty (fuel, pickup or dropoff).

The result also holds a summary:

- the route's total miles;
- its predicted driving hours;
- the number of shifts;
- the arrival instant.

The project has ten files:

- `hos_rules.dfy` (module `HosRules`) holds the rule constants and the status labels.
- `trip_utils.dfy` (module `TripUtils`) holds:
  - duration parsing (`"45s"` → 45, or a plain number);
  - the metres-to-miles conversion;
  - the truncation toward zero that `int()` performs.
- `counters.dfy` (module `DutyCounters`) holds:
  - the five counters;
  - the drive budget;
  - the stop priority;
  - the counter change each stop makes;
  - the invariant and termination measure of the drive loop.
- `timeline.dfy` (module `Timeline`) holds the duty interval record and what a well-kept
  timeline is: contiguous, numbered by shift, and measured in minutes.
- `trip_spec.dfy` (module `TripSpec`) is the planning run as functions over a `SimState` value.
  Each operation is one function:
  - recording an interval;
  - opening or closing a drive;
  - each kind of stop;
  - one drive increment;
  - the drive loop of a step;
  - a step, the steps of a leg, and the legs;
  - the whole run, `PlanTrip`.
- `trip_properties.dfy` (module `TripProperties`) proves what the run guarantees:
  - every state keeps the timeline well kept;
  - the clock and the shift number never go back;
  - a planned trip's timeline runs without gap or overlap from the start to the arrival;
  - the shift count is one more than the number of rests and resets;
  - the run fails exactly when there is no route, the start instant does not parse, or a
    duration does not parse.
- `stop_effects.dfy` (module `StopEffects`) states what each recording and stop operation does
  to the state: the interval it appends, the clock, the shift and the counters. It also proves
  that every leg ends with its pickup or dropoff, and what the trip summary reports.
- `planner.dfy` (module `TripPlanner`) is the program's own imperative form:
  - a `Planner` object whose fields (clock, shift, the five counters, the drive marker and the
    timeline) are updated in place;
  - the drive loop as a `while` loop and the legs and steps as `for` loops;
  - every method proved to move the object's state exactly as the matching `TripSpec` function
    does;
  - `GenerateTrip`, proved equal to `PlanTrip` and to inherit its timeline guarantees.
- `scenarios.dfy` (module `Scenarios`) holds worked routes, each proved to produce exactly the
  timeline listed. They cover a plain drive, the break, the 10-hour rest, the fuelling stop, the
  cycle reset and a two-leg route with its dropoff.
- `outcomes.dfy` (module `Outcomes`) holds the `Option` and `Result` types.

Modelling choices:

- **Time.** Instants and durations are exact real numbers of seconds. The start instant is
  given already parsed: `None` stands for a timestamp that does not parse, which the program
  rejects.
- **Reverse geocoding.** It is a function parameter `Coord -> Option<string>`, so the model does
  not fix which address a lookup returns.
- **Routes.** The routing service's answer is an input value (`RouteResponse`).

Several behaviours of the code are worth knowing. Each is stated and proved by the member named.
The model follows the code in every case:

- **Fuel distance is over-counted when a step is split.** Each increment counts
  `allowed / remaining` of the step's miles. The fraction is taken of what is left of the step,
  but the miles are those of the whole step. A nine-hour step split by the break adds 8/9 of its
  miles, then all of them again, so it counts 17/9 of its miles toward the next fuel stop
  (`Scenarios.NineHourDrive`).
- **The drive after a stop restarts at the step's start location.** The drive that follows a
  break in the middle of a step is reported at the step's start, not where the break was taken.
  Reported positions can therefore move backwards (`Scenarios.NineHourStep`).
- **A spent budget leads to the 34-hour cycle reset, never to the 10-hour rest.** Whenever a
  budget is computed, the 8 hours since the break and the 11 hours of driving are never spent
  (`DutyCounters.Valid`). So within a run only the 14-hour window and the cycle lead to the reset.
  A break or a fuelling stop adds 30 minutes of on-duty time without a check. If that takes the
  shift to 14 hours on duty, the next turn answers with a cycle reset
  (`TripProperties.SpentBudgetResets`).
- **The cycle can be past 70 hours when a drive opens.** One might expect cycle time to be within
  70 hours whenever a Driving interval opens; the code does not keep that. A fuelling stop is
  counted against the cycle without a check. A step started with 69 cycle hours used drives the
  last hour of the cycle, and its fuelling stop takes the cycle to 70.5 hours. The code then opens
  the next drive before it checks the budgets: it records a Driving interval of no length, then
  the reset (`Scenarios.FuelPastCycle`, and `Scenarios.SpentCycleDrive` for a run started with
  the cycle used up).
- **A fuelling stop is taken at the end of the increment, not where 1000 miles are reached.** The
  fuel distance is checked only after an increment is driven. A two-hour, 1500-mile step from
  fresh counters passes 1000 miles two thirds of the way along, at (6, 6), but the stop is
  recorded at the step's end, (9, 9) (`Scenarios.FuelAtStepEnd`).
- **A cycle reset abandons the rest of the step.** A one-hour step started with 69.9 cycle hours
  used drives six minutes, resets, and goes on to the pickup (`Scenarios.CycleEndStep`).
- **Pickup and dropoff hours are not counted.** The one-hour stops are recorded as On Duty but
  do not count against the 14-hour window or the cycle (`StopEffects.StopAtRecords`).

## Model

| member | source | states |
|---|---|---|
| HosRules.LimitValues | rules/hos_rules.py:4-7 | the cycle, on-duty, driving and since-break limits are 70, 14, 11 and 8 hours in seconds |
| HosRules.LimitsOrdered | rules/hos_rules.py:4-7 | the four limits are positive and strictly increasing: 8 h < 11 h < 14 h < 70 h |
| HosRules.StopLengths | rules/hos_rules.py:17-21 | breaks and fuel stops last 1800 s, rests 36000 s, resets 122400 s and pickup/dropoff stops 3600 s |
| HosRules.FuelDistanceAndLabels | rules/hos_rules.py:8-14 | the fuel distance is 1000 miles and the four status labels are pairwise distinct |
| TripUtils.ParseDuration | utils/trip_utils.py:7-11 | a number is returned unchanged; a string succeeds exactly when it reads as a decimal once every 's' is removed, and the error carries that text |
| TripUtils.ParseDurationRoundTrip | utils/trip_utils.py:7-11 | "<n>s" parses back to n seconds for every natural n |
| TripUtils.EverySDropped | utils/trip_utils.py:9-10 | every 's' is removed, not only a trailing unit: inserting an 's' anywhere does not change the result |
| TripUtils.MalformedDurationFails | utils/trip_utils.py:9-10 | a string such as "4x5s" that is not numeric without its 's' is an error |
| TripUtils.RemoveSIdempotent | utils/trip_utils.py:10 | removing 's' twice is the same as removing it once |
| TripUtils.MilesFromMeters | utils/trip_utils.py:13-14 | the rounded factor never gives more miles than the exact conversion by 1609.344 m per mile, and at most four parts in ten million fewer |
| TripUtils.ParseNumberSign | utils/trip_utils.py:10 | the empty text is no number; a leading '-' negates what the rest reads as, a leading '+' is dropped, and only a '-' gives a negative value |
| TripUtils.SignedRoundTrip | utils/trip_utils.py:10 | a whole number reads back as itself, unchanged with a '+' and negated with a '-' |
| TripUtils.MilesFromMetersZero | utils/trip_utils.py:13-14 | zero metres is zero miles (a step without distance adds no miles) |
| TripUtils.MilesFromMetersAdditive | utils/trip_utils.py:13-14 | the conversion is additive over distances |
| TripUtils.MilesFromMetersMonotone | utils/trip_utils.py:13-14 | the conversion is non-negative and monotone on non-negative distances |
| TripUtils.FuelThreshold | utils/trip_utils.py:4-5 | the fuel threshold is 1609344 m, which the rounded factor converts to just under 1000 miles |
| TripUtils.Trunc | services/trip_planner.py:28 | the integer part of a real rounded toward zero, for both signs, as int() on a float |
| Timeline.DurationMinutes | services/trip_planner.py:28 | an interval's length in minutes is the whole number of minutes it spans, rounded down |
| Timeline.RecordedMeans | services/trip_planner.py:26-46 | a timeline built by appending intervals at its end is contiguous, numbered by shift, measured in minutes, and its shift is one more than its Sleeper Berth intervals |
| Timeline.RecordedIsContiguous | services/trip_planner.py:26-46 | appending each interval where the last one ended gives a gap-free, overlap-free timeline |
| Timeline.RecordedIsNumbered | services/trip_planner.py:26-46 | each interval carries the shift after the Sleeper Berth intervals before it |
| Timeline.ElapsedIsTotal | services/trip_planner.py:26-38 | a contiguous timeline's interval lengths add up to the time from its start to its end |
| Timeline.StartsOrdered | services/trip_planner.py:26-38 | in a contiguous timeline later intervals never start earlier |
| DutyCounters.FreshStart | services/trip_planner.py:20-24 | a run starts inside the drive loop's invariant, and its first budget is the least of the step, the 8 hours before a break and what the cycle has left of its 70 hours |
| DutyCounters.AllowedDrive | services/trip_planner.py:65-75 | the allowed drive is at most the rest of the step and each of the four budgets, and equals one of them |
| DutyCounters.NoDriveIffBudgetSpent | services/trip_planner.py:65-77 | with some of the step left, no drive is allowed exactly when one of the four budgets is spent |
| DutyCounters.IncrementWithinLimits | services/trip_planner.py:65-97 | after an increment of the allowed length no counter is past its limit |
| DutyCounters.Due | services/trip_planner.py:102-131 | the break is due when 8 h have been driven since it; the rest when not, but 11 h driven or 14 h on duty; fuel only when neither and 1000 miles |
| DutyCounters.AdvanceSpendsBudgets | services/trip_planner.py:93-98 | driving an increment takes its length from each of the four budgets and adds its miles to the fuel distance |
| DutyCounters.BreakRestoresBreakClock | services/trip_planner.py:107-109 | the break gives back the full 8 hours before the next break and costs 30 minutes of the 14-hour window; driving, cycle and fuel distance are kept |
| DutyCounters.RestStartsShift | services/trip_planner.py:117-121 | after the rest the counters are those of a fresh run with the same cycle hours used, except that the fuel distance carries on |
| DutyCounters.FuelCountsOnDuty | services/trip_planner.py:128-131 | fuelling empties the fuel distance and costs 30 minutes of the 14-hour window and of the cycle; the break clock and the driving budget are kept |
| DutyCounters.ResetStartsCycle | services/trip_planner.py:81-85 | after the cycle reset the counters are those of a fresh run with no cycle hours used, except that the fuel distance carries on |
| DutyCounters.Progress | services/trip_planner.py:61-131 | each increment of the drive loop keeps the counters' invariant and brings the loop closer to its end, so the loop terminates |
| TripSpec.TakeDueStop | services/trip_planner.py:102-131 | the counters after the triggered stop are the ones Settle computes from the priority order |
| TripSpec.DriveIncrement | services/trip_planner.py:89-131 | the counters after an increment are those of driving its length and its share of the miles, then settling the triggered stop |
| TripSpec.DriveLoop | services/trip_planner.py:61-131 | driving a step keeps the counters' invariant (break clock under 8 h, shift driving under 11 h, and shift driving equal to the time since the break or exactly 8 h more), whatever the step |
| TripSpec.DriveOn | services/trip_planner.py:65-131 | one turn of the drive loop with a drive open keeps the counters' invariant (break clock under 8 h, shift driving under 11 h, and shift driving equal to the time since the break or exactly 8 h more) |
| TripSpec.RunStep | services/trip_planner.py:50-139 | a step that runs keeps the counters' invariant (break clock under 8 h, shift driving under 11 h, and shift driving equal to the time since the break or exactly 8 h more) |
| TripSpec.RunSteps | services/trip_planner.py:49-139 | the steps of a leg that run keep the counters' invariant (break clock under 8 h, shift driving under 11 h, and shift driving equal to the time since the break or exactly 8 h more) |
| TripSpec.RunLegs | services/trip_planner.py:48-139 | the legs of a route that run keep the counters' invariant (break clock under 8 h, shift driving under 11 h, and shift driving equal to the time since the break or exactly 8 h more) |
| TripProperties.StartInv | services/trip_planner.py:14-24 | a run starts in shift 1 with an empty, well-kept timeline ending at the start instant |
| TripProperties.EndDrivingKeeps | services/trip_planner.py:43-46 | closing a drive records it from its start to now, keeps the timeline well kept, and leaves no drive open |
| TripProperties.PauseKeeps | services/trip_planner.py:77-139 | a stop is recorded from the end of the timeline for its full length, and a Sleeper Berth stop moves to the next shift |
| TripProperties.CycleResetKeeps | services/trip_planner.py:77-87 | the reset lasts 34 hours, starts a new shift, zeroes the time counters and keeps the timeline well kept |
| TripProperties.TakeDueStopKeeps | services/trip_planner.py:102-131 | whichever stop is due, the timeline stays well kept and the clock does not go back |
| TripProperties.StopAtKeeps | services/trip_planner.py:133-139 | the pickup or dropoff stop keeps the timeline well kept, does not change the counters and stays in the shift |
| TripProperties.DriveIncrementKeeps | services/trip_planner.py:89-131 | an increment keeps the timeline well kept and only moves forward |
| TripProperties.DriveLoopKeeps | services/trip_planner.py:61-131 | driving a whole step keeps the timeline well kept and only moves forward |
| TripProperties.DriveOnKeeps | services/trip_planner.py:65-131 | one turn of the drive loop, a reset or an increment with its stop, keeps the timeline well kept and only moves forward |
| TripProperties.RunStepKeeps | services/trip_planner.py:49-139 | a step keeps the timeline well kept and only moves forward |
| TripProperties.RunStepsKeeps | services/trip_planner.py:49-139 | the steps of a leg keep the timeline well kept and only move forward |
| TripProperties.RunLegsKeeps | services/trip_planner.py:48-139 | the legs keep the timeline well kept and only move forward |
| TripProperties.SpentBudgetResets | services/trip_planner.py:61-87 | with some of the step left and any budget spent, the step ends in a 34-hour reset that starts a new shift and zeroes the cycle |
| TripProperties.PlannedTimeline | services/trip_planner.py:48-151 | a planned trip's timeline starts at the start instant, is contiguous up to the arrival, covers exactly the elapsed time, is numbered and measured, and the shift count is one more than its rests and resets |
| TripProperties.RunStepsOk | services/trip_planner.py:49-50 | the steps of a leg run exactly when every remaining step duration parses |
| TripProperties.RunLegsOk | services/trip_planner.py:48-50 | the legs run exactly when every step duration of every remaining leg parses |
| StopEffects.RecordAppends | services/trip_planner.py:26-38 | recording appends exactly one interval with the given status, reason, times and location, the geocoder's address for that location, the current shift and its length in minutes; nothing else changes |
| StopEffects.StartDrivingOpens | services/trip_planner.py:40-41 | opening a drive marks it active from the current clock at the given place; nothing else changes |
| StopEffects.EndDrivingCloses | services/trip_planner.py:43-46 | an interval is appended exactly when a drive is active: a Driving interval from the drive's start to now at the drive's place; afterwards no drive is active, and clock, shift and counters are unchanged |
| StopEffects.PauseRecords | services/trip_planner.py:77-139 | a stop closes the drive, appends its interval from now for its full length, and moves the clock to its end |
| StopEffects.CycleResetRecords | services/trip_planner.py:77-87 | the reset closes the drive, appends a 34-hour Sleeper Berth interval with no location, starts a new shift and restarts every time counter, keeping the fuel distance |
| StopEffects.TakeBreakRecords | services/trip_planner.py:102-109 | the break closes the drive, appends a 30-minute Off Duty interval at the point reached, stays in the shift and changes the counters as a break does |
| StopEffects.TakeRestRecords | services/trip_planner.py:111-121 | the rest closes the drive, appends a 10-hour Sleeper Berth interval at the point reached, starts a new shift and restarts the shift counters |
| StopEffects.RefuelRecords | services/trip_planner.py:123-131 | the fuelling stop closes the drive, appends a 30-minute On Duty interval at the point reached, stays in the shift and empties the fuel distance |
| StopEffects.StopAtRecords | services/trip_planner.py:133-139 | the stop at a leg's end closes the drive and appends a one-hour On Duty interval labelled "Pickup point" for the first leg and "Dropoff point" for every later one, with shift and counters unchanged |
| StopEffects.LegEndsWithStop | services/trip_planner.py:49-139 | a leg with steps that runs ends with its one-hour On Duty pickup or dropoff at its last step's end location, with no drive open and the clock at the stop's end |
| StopEffects.LastLegEndsWithStop | services/trip_planner.py:48-139 | a route that runs ends, after its legs, with the last leg's stop, with no drive open and the clock at the stop's end |
| StopEffects.PlanTripSummary | services/trip_planner.py:141-151 | a planned trip reports the route's distance in miles and its duration in whole hours, and its timeline ends with the last leg's stop at the arrival |
| TripProperties.PlanTripOk | services/trip_planner.py:8-14 | no route gives the no-route error with the raw answer; a bad start gives its error; the run succeeds exactly when there is a route, the start parses, and every step duration and the route duration parse |
| TripPlanner.Planner.constructor | services/trip_planner.py:14-24 | the planner starts at the start instant in shift 1 with the initial counters, no drive and an empty timeline |
| TripPlanner.Planner.RecordInterval | services/trip_planner.py:26-38 | appends one interval of the current shift with its address and length in minutes, and changes nothing else |
| TripPlanner.Planner.StartDriving | services/trip_planner.py:40-41 | opens a drive at the current clock and the given location |
| TripPlanner.Planner.EndDriving | services/trip_planner.py:43-46 | closes an active drive as a Driving interval ending now, and otherwise changes nothing |
| TripPlanner.Planner.CycleReset | services/trip_planner.py:77-87 | closes the drive, records the 34-hour Sleeper Berth reset, zeroes the time counters and starts a new shift |
| TripPlanner.Planner.TakeBreak | services/trip_planner.py:102-109 | closes the drive, records the 30-minute Off Duty break, restarts the break clock and adds the break to on-duty time |
| TripPlanner.Planner.TakeRest | services/trip_planner.py:111-121 | closes the drive, records the 10-hour Sleeper Berth rest, starts a new shift and zeroes the shift counters |
| TripPlanner.Planner.Refuel | services/trip_planner.py:123-131 | closes the drive, records the 30-minute On Duty fuelling stop, adds it to on-duty and cycle time and zeroes the fuel distance |
| TripPlanner.Planner.StopAt | services/trip_planner.py:133-139 | closes the drive and records the one-hour pickup (first leg) or dropoff stop at the step's end |
| TripPlanner.Planner.TakeDueStop | services/trip_planner.py:102-131 | takes the break, else the rest, else the fuelling stop, as the counters call for, and otherwise changes nothing |
| TripPlanner.Planner.AdvanceBy | services/trip_planner.py:93-98 | moves the clock and the four time counters on by the increment's length and the fuel distance by its miles, and changes nothing else |
| TripPlanner.Planner.Increment | services/trip_planner.py:89-131 | advances the clock and the counters by one increment and takes the stop the priority order calls for |
| TripPlanner.Planner.DriveTurn | services/trip_planner.py:61-131 | one pass of the loop body: with no driving allowed it takes the reset and ends the step; otherwise it drives the allowed increment, leaves the rest of the step to the loop, and brings the loop closer to its end |
| TripPlanner.Planner.DriveStep | services/trip_planner.py:59-131 | the drive loop leaves the planner in the state DriveLoop defines and keeps the counters' invariant |
| TripPlanner.Planner.RunStep | services/trip_planner.py:50-139 | a step either fails with the malformed-duration error RunStep defines or leaves the state RunStep defines |
| TripPlanner.Planner.Run | services/trip_planner.py:48-139 | the loops over legs and steps end in the state RunLegs defines, or with its error |
| TripPlanner.GenerateTrip | services/trip_planner.py:6-152 | the result is PlanTrip's, so a planned timeline is contiguous, numbered and measured, ends at the arrival, and the shift count is one more than the rests and resets |
| Scenarios.PlanOneStep | services/trip_planner.py:48-152 | a one-step route is planned as driving the step, the pickup stop and the final close of the drive |
| Scenarios.FiveHourDrive | services/trip_planner.py:61-100 | five hours of a step shorter than the fuel distance fit every budget of a fresh shift: one increment and no stop |
| Scenarios.FiveHourArrival | services/trip_planner.py:133-141 | after the five-hour drive the pickup closes the drive, and the arrival is six hours after the start |
| Scenarios.FiveHourStep | services/trip_planner.py:6-152 | a five-hour route gives a 300-minute drive then a 60-minute pickup, in one shift |
| Scenarios.NineHourFirstIncrement | services/trip_planner.py:89-109 | after 8 hours of a nine-hour step the break is taken 8/9 of the way along |
| Scenarios.NineHourDrive | services/trip_planner.py:61-131 | a nine-hour step drives 8 hours, breaks, drives the last hour from the step's start, and counts 17/9 of its miles toward fuel |
| Scenarios.NineHourArrival | services/trip_planner.py:133-141 | after the nine-hour step the pickup follows in the same shift, and the arrival is 10.5 hours after the start |
| Scenarios.NineHourStep | services/trip_planner.py:6-152 | a nine-hour route gives a 480-minute drive, a 30-minute break, a 60-minute drive and the pickup |
| Scenarios.CycleEndDrive | services/trip_planner.py:61-100 | with 69.9 cycle hours used, a one-hour step drives 6 minutes, resets, and gives up the other 54 |
| Scenarios.CycleEndArrival | services/trip_planner.py:133-141 | after the reset the pickup belongs to shift 2 |
| Scenarios.CycleEndStep | services/trip_planner.py:6-152 | that route gives a 6-minute drive, a 2040-minute reset and the pickup in shift 2 |
| Scenarios.PlanFromRun | services/trip_planner.py:141-151 | a run whose legs end in a state plans the trip that closes its drive, with the route's distance and duration in the summary |
| Scenarios.FuelAtStepEnd | services/trip_planner.py:89-131 | a 1500-mile, two-hour step from fresh counters passes 1000 miles at (6, 6), but the fuelling stop is recorded at the step's end (9, 9) |
| Scenarios.TwelveHourBreak | services/trip_planner.py:61-109 | the first eight hours of a twelve-hour step end in the break two thirds of the way along |
| Scenarios.TwelveHourRest | services/trip_planner.py:61-121 | three more hours reach the 11-hour limit, and the 10-hour rest is taken three quarters of the way along what was left |
| Scenarios.TwelveHourDrive | services/trip_planner.py:61-131 | a twelve-hour step drives 8 hours, breaks, drives 3 hours, rests 10 hours and drives its last hour in shift 2 |
| Scenarios.TwelveHourArrival | services/trip_planner.py:133-141 | after the twelve-hour step the last drive and the pickup belong to shift 2 |
| Scenarios.TwelveHourStep | services/trip_planner.py:6-152 | a twelve-hour route gives 480 minutes of driving, the break, 180 minutes, the 600-minute rest, 60 minutes and the pickup, over two shifts |
| Scenarios.HourLeg | services/trip_planner.py:48-139 | a one-step, one-hour leg that needs no stop is one drive from the step's start and then the leg's stop |
| Scenarios.FirstLeg | services/trip_planner.py:48-139 | the first leg of the two-leg route ends with the pickup after an hour's drive |
| Scenarios.SecondLeg | services/trip_planner.py:48-139 | the second leg opens a new drive at its own start and ends with the dropoff |
| Scenarios.TwoLegRun | services/trip_planner.py:48-139 | the two legs run one after the other |
| Scenarios.TwoLegArrival | services/trip_planner.py:141 | after both legs no drive is left to close |
| Scenarios.TwoLegTrip | services/trip_planner.py:6-152 | a two-leg route gives a drive, the pickup, a drive and the dropoff in one shift, with the route's distance in the summary |
| Scenarios.FuelPastCycle | services/trip_planner.py:61-131 | with 69 cycle hours used, a fuelling stop after the cycle's last hour takes the cycle to 70.5 hours; the next drive is recorded with no length before the reset |
| Scenarios.SpentCycleDrive | services/trip_planner.py:61-87 | with the cycle used up, the drive opens before the check, so a Driving interval of no length precedes the reset |

## Left out

- Route request: the call to the routing service is not modelled. Its answer is the input
  `RouteResponse`, already decoded into legs and steps.
- Reverse geocoding: this network lookup is the parameter `geocode`.
- Reverse geocoding failures: in the program an HTTP error or a time-out of the lookup raises
  an exception (services/google_client.py:35-36). Nothing catches it while an interval is
  recorded, so it ends the whole planning run. The model's `geocode` can only return an address
  or `None`, so this abort is not modelled.
- Missing response keys: a route without `duration` or `polyline`, a route without `legs`, or a
  leg without `steps` makes the program raise a key error (services/trip_planner.py:48-49, 144,
  147). The model's `Route` and `Leg` records always carry these fields.
- `TripSpec.PlanTrip`: the start timestamp is given as seconds. The ISO-8601 parsing of
  `datetime.fromisoformat` is not modelled; `None` stands for a start it rejects.
- `TripSpec.PlanTrip`: the summary's total miles are not rounded to two decimals. Exact reals
  have no rounding to mimic.
- `TripSpec.PlanTrip`: the decoded polyline is not part of the result, and the encoded polyline
  is kept as an uninterpreted string. Polyline decoding is an external library.
- Time format: instants stay seconds, so the `format_time` day/month/year text of the interval
  times and the arrival is not modelled.
- Floating point: all arithmetic is exact. Rounding of the fuel distance, the fractions and the
  minute counts is not modelled.
- `TripUtils.ParseDuration`: only an optional sign, digits and one decimal point are read.
  Python's `float()` also accepts surrounding whitespace, exponents, underscores, `inf` and
  `nan`.
- Missing keys: a route without a distance, or a step without start or end coordinates, would
  raise an error in the program. The model's record types always carry them. A step's missing
  duration and distance are modelled (as "0s" and 0).
- The error dictionary: the program's dictionary for "no route" and the exceptions for unusable
  input are the `TripError` values `NoRoute`, `BadStartTime` and `MalformedDuration`.
- The web layer: the HTTP view and URL routing that call the planner are not part of this model.
