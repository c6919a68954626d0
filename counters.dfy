/** The five running Hours-of-Service counters of one planning run, the drive
    budget computed from them, the priority order of the stops that a drive
    increment can trigger, and the counter changes each stop makes. */
module DutyCounters {
  import opened HosRules

  /** All time counters are in seconds, the distance in miles. */
  datatype Counters = Counters(
    cycleUsed: real,       // counted against the 70-hour cycle
    shiftDriving: real,    // driven in the current shift
    shiftOnDuty: real,     // on duty in the current shift
    sinceBrake: real,      // driven since the last 30-minute break
    milesSinceFuel: real)  // driven since the last fuelling stop

  /** The counters at the start of a run: only the cycle carries hours already used. */
  function Initial(cycleUsedHours: real): Counters {
    Counters(cycleUsedHours * SecondsPerHour as real, 0.0, 0.0, 0.0, 0.0)
  }

  // ---------------------------------------------------------------------
  // Budgets
  // ---------------------------------------------------------------------

  function TimeUntilBreak(h: Counters): real {
    MaxDrivingAfterBrake as real - h.sinceBrake
  }

  function TimeUntilShiftEnd(h: Counters): real {
    MaxDrivingTime as real - h.shiftDriving
  }

  function TimeUntilOnDutyEnd(h: Counters): real {
    MaxHoursOnDuty as real - h.shiftOnDuty
  }

  function TimeUntilCycleEnd(h: Counters): real {
    MaxCycleSeconds as real - h.cycleUsed
  }

  function Min(a: real, b: real): real {
    if a <= b then a else b
  }

  /** How long the driver may drive on: the least of the rest of the step and
      the four remaining budgets. */
  function AllowedDrive(remaining: real, h: Counters): (r: real)
    ensures r <= remaining && r <= TimeUntilBreak(h) && r <= TimeUntilShiftEnd(h)
    ensures r <= TimeUntilOnDutyEnd(h) && r <= TimeUntilCycleEnd(h)
    ensures r == remaining || r == TimeUntilBreak(h) || r == TimeUntilShiftEnd(h)
         || r == TimeUntilOnDutyEnd(h) || r == TimeUntilCycleEnd(h)
  {
    Min(remaining, Min(TimeUntilBreak(h), Min(TimeUntilShiftEnd(h),
      Min(TimeUntilOnDutyEnd(h), TimeUntilCycleEnd(h)))))
  }

  /** With some of the step left, no drive is allowed exactly when one of the
      four budgets is used up: the cycle reset fires for any of them. */
  lemma NoDriveIffBudgetSpent(remaining: real, h: Counters)
    requires remaining > 0.0
    ensures AllowedDrive(remaining, h) <= 0.0 <==>
      TimeUntilBreak(h) <= 0.0 || TimeUntilShiftEnd(h) <= 0.0 ||
      TimeUntilOnDutyEnd(h) <= 0.0 || TimeUntilCycleEnd(h) <= 0.0
  {
  }

  /** Driving for `seconds` and covering `miles`. */
  function Advance(h: Counters, seconds: real, miles: real): Counters {
    Counters(h.cycleUsed + seconds, h.shiftDriving + seconds, h.shiftOnDuty + seconds,
             h.sinceBrake + seconds, h.milesSinceFuel + miles)
  }

  /** Driving spends the same time from each of the four budgets and adds
      the miles to the fuel distance. */
  lemma AdvanceSpendsBudgets(h: Counters, seconds: real, miles: real)
    ensures var r := Advance(h, seconds, miles);
      && TimeUntilBreak(r) == TimeUntilBreak(h) - seconds
      && TimeUntilShiftEnd(r) == TimeUntilShiftEnd(h) - seconds
      && TimeUntilOnDutyEnd(r) == TimeUntilOnDutyEnd(h) - seconds
      && TimeUntilCycleEnd(r) == TimeUntilCycleEnd(h) - seconds
      && r.milesSinceFuel == h.milesSinceFuel + miles
  {
  }

  /** Right after a positive increment of the allowed length no counter is
      beyond its limit. */
  lemma IncrementWithinLimits(remaining: real, h: Counters, miles: real)
    requires AllowedDrive(remaining, h) > 0.0
    ensures var h' := Advance(h, AllowedDrive(remaining, h), miles);
      && h'.sinceBrake <= MaxDrivingAfterBrake as real
      && h'.shiftDriving <= MaxDrivingTime as real
      && h'.shiftOnDuty <= MaxHoursOnDuty as real
      && h'.cycleUsed <= MaxCycleSeconds as real
  {
  }

  // ---------------------------------------------------------------------
  // Stops and their priority
  // ---------------------------------------------------------------------

  /** The stop, if any, that a drive increment triggers. */
  datatype Trigger = BreakDue | RestDue | FuelDue | NothingDue

  /** Break before rest before fuel; at most one of them. */
  function Due(h: Counters): (t: Trigger)
    ensures t == BreakDue <==> h.sinceBrake >= MaxDrivingAfterBrake as real
    ensures t == RestDue <==> (
      && h.sinceBrake < MaxDrivingAfterBrake as real
      && (h.shiftDriving >= MaxDrivingTime as real || h.shiftOnDuty >= MaxHoursOnDuty as real))
    ensures t == FuelDue <==> (
      && h.sinceBrake < MaxDrivingAfterBrake as real
      && h.shiftDriving < MaxDrivingTime as real && h.shiftOnDuty < MaxHoursOnDuty as real
      && h.milesSinceFuel >= FuelMilesDistance as real)
  {
    if h.sinceBrake >= MaxDrivingAfterBrake as real then BreakDue
    else if h.shiftDriving >= MaxDrivingTime as real || h.shiftOnDuty >= MaxHoursOnDuty as real then RestDue
    else if h.milesSinceFuel >= FuelMilesDistance as real then FuelDue
    else NothingDue
  }

  /** A 30-minute break: the break clock restarts and the break counts as on-duty time. */
  function AfterBreak(h: Counters): Counters {
    h.(sinceBrake := 0.0, shiftOnDuty := h.shiftOnDuty + BreakDuration as real)
  }

  /** A 10-hour rest: a new shift, the cycle and the fuel distance carry on. */
  function AfterRest(h: Counters): Counters {
    h.(shiftDriving := 0.0, shiftOnDuty := 0.0, sinceBrake := 0.0)
  }

  /** A fuelling stop: 30 minutes on duty, counted against the cycle too. */
  function AfterFuel(h: Counters): Counters {
    h.(shiftOnDuty := h.shiftOnDuty + FuelDuration as real,
       cycleUsed := h.cycleUsed + FuelDuration as real,
       milesSinceFuel := 0.0)
  }

  /** A 34-hour cycle reset: every time counter restarts, the fuel distance carries on. */
  function AfterReset(h: Counters): Counters {
    h.(shiftDriving := 0.0, shiftOnDuty := 0.0, sinceBrake := 0.0, cycleUsed := 0.0)
  }

  /** The break gives back the full 8 hours before the next break and costs
      30 minutes of the 14-hour window; driving, cycle and fuel distance are kept. */
  lemma BreakRestoresBreakClock(h: Counters)
    ensures var r := AfterBreak(h);
      && TimeUntilBreak(r) == MaxDrivingAfterBrake as real
      && TimeUntilOnDutyEnd(r) == TimeUntilOnDutyEnd(h) - 1800.0
      && TimeUntilShiftEnd(r) == TimeUntilShiftEnd(h)
      && TimeUntilCycleEnd(r) == TimeUntilCycleEnd(h)
      && r.milesSinceFuel == h.milesSinceFuel
  {
  }

  /** After the rest the counters are those of a fresh run with the same
      cycle hours used, except that the fuel distance carries on. */
  lemma RestStartsShift(h: Counters)
    ensures AfterRest(h) == Initial(h.cycleUsed / 3600.0).(milesSinceFuel := h.milesSinceFuel)
  {
  }

  /** Fuelling empties the fuel distance and costs 30 minutes of the 14-hour
      window and of the cycle; the break clock and the driving budget are kept. */
  lemma FuelCountsOnDuty(h: Counters)
    ensures var r := AfterFuel(h);
      && r.milesSinceFuel == 0.0
      && TimeUntilOnDutyEnd(r) == TimeUntilOnDutyEnd(h) - 1800.0
      && TimeUntilCycleEnd(r) == TimeUntilCycleEnd(h) - 1800.0
      && TimeUntilBreak(r) == TimeUntilBreak(h)
      && TimeUntilShiftEnd(r) == TimeUntilShiftEnd(h)
  {
  }

  /** After the cycle reset the counters are those of a fresh run with no
      cycle hours used, except that the fuel distance carries on. */
  lemma ResetStartsCycle(h: Counters)
    ensures AfterReset(h) == Initial(0.0).(milesSinceFuel := h.milesSinceFuel)
  {
  }

  /** The counters once the triggered stop, if any, is taken. */
  function Settle(h: Counters): Counters {
    match Due(h)
    case BreakDue => AfterBreak(h)
    case RestDue => AfterRest(h)
    case FuelDue => AfterFuel(h)
    case NothingDue => h
  }

  // ---------------------------------------------------------------------
  // Invariant and progress of the drive loop
  // ---------------------------------------------------------------------

  /** What holds of the counters whenever the drive loop is about to compute
      a budget: the break clock is below its limit, the shift has driven
      either just the time since the break or exactly one break-length more
      (there is at most one break per shift), and the shift's driving is
      below its limit. So of the four budgets only the 14-hour window and the
      cycle can be spent when a budget is computed. */
  predicate Valid(h: Counters) {
    && 0.0 <= h.sinceBrake < MaxDrivingAfterBrake as real
    && (h.shiftDriving == h.sinceBrake ||
        h.shiftDriving == h.sinceBrake + MaxDrivingAfterBrake as real)
    && h.shiftDriving < MaxDrivingTime as real
  }

  /** A run starts inside the invariant, and its first budget is the least of
      the step, the 8 hours before a break and what the cycle has left. */
  lemma FreshStart(cycleUsedHours: real, remaining: real)
    ensures Valid(Initial(cycleUsedHours))
    ensures AllowedDrive(remaining, Initial(cycleUsedHours)) ==
      Min(remaining, Min(MaxDrivingAfterBrake as real, MaxCycleSeconds as real - cycleUsedHours * 3600.0))
  {
  }

  /** Whole hours of a remaining step duration, rounded up. */
  function HoursLeft(remaining: real): nat {
    if remaining <= 0.0 then 0 else (remaining / SecondsPerHour as real).Floor + 1
  }

  /** Where the counters stand in a shift: 0 when the next budget is
      certainly spent, 1 at a fresh shift, 2 after the shift's break,
      3 before it. */
  function Stage(h: Counters): nat {
    if h.cycleUsed >= MaxCycleSeconds as real || h.shiftOnDuty >= MaxHoursOnDuty as real then 0
    else if h.shiftDriving == 0.0 && h.sinceBrake == 0.0 && h.shiftOnDuty == 0.0 then 1
    else if h.shiftDriving == h.sinceBrake + MaxDrivingAfterBrake as real then 2
    else 3
  }

  lemma HoursLeftDrop(remaining: real, seconds: real)
    requires 0.0 < remaining && SecondsPerHour as real <= seconds <= remaining
    ensures HoursLeft(remaining - seconds) < HoursLeft(remaining)
  {
    var H := SecondsPerHour as real;
    var k := (remaining / H).Floor;
    if remaining - seconds > 0.0 {
      var k' := ((remaining - seconds) / H).Floor;
      assert (remaining - seconds) / H <= remaining / H - 1.0;
      assert k' as real <= (remaining - seconds) / H;
      assert remaining / H < k as real + 1.0;
    }
  }

  /** One turn of the drive loop that drives a positive amount keeps the
      invariant and brings the loop closer to its end: either the remaining
      step shrinks by a whole hour, or the shift moves on to a later stage. */
  lemma {:induction false} Progress(remaining: real, h: Counters, miles: real)
    requires Valid(h) && remaining > 0.0 && AllowedDrive(remaining, h) > 0.0
    ensures var a := AllowedDrive(remaining, h);
      var h' := Settle(Advance(h, a, miles));
      && Valid(h')
      && (HoursLeft(remaining - a) < HoursLeft(remaining) ||
          (HoursLeft(remaining - a) == HoursLeft(remaining) && Stage(h') < Stage(h)))
  {
    var a := AllowedDrive(remaining, h);
    var h1 := Advance(h, a, miles);
    var h' := Settle(h1);
    var B, D, O, C := MaxDrivingAfterBrake as real, MaxDrivingTime as real,
                      MaxHoursOnDuty as real, MaxCycleSeconds as real;
    assert HoursLeft(remaining - a) <= HoursLeft(remaining);
    if a == remaining {
      assert HoursLeft(remaining - a) == 0;
    } else if h.shiftDriving == h.sinceBrake + B {
      // After the shift's break only the driving or on-duty limit, or the cycle, can stop the drive.
      assert a <= D - h.shiftDriving;
      assert Due(h1) != BreakDue;
      if a == TimeUntilCycleEnd(h) {
        assert Stage(h') == 0;
      } else {
        assert Due(h1) == RestDue;
      }
    } else if h.shiftDriving == 0.0 && h.sinceBrake == 0.0 && h.shiftOnDuty == 0.0 {
      if a == TimeUntilCycleEnd(h) {
        assert Stage(h') == 0;
      } else {
        assert a == B;
        HoursLeftDrop(remaining, a);
      }
    } else {
      if a == TimeUntilCycleEnd(h) {
        assert Stage(h') == 0;
      } else if a == TimeUntilBreak(h) {
        assert Due(h1) == BreakDue;
      } else {
        assert a == TimeUntilOnDutyEnd(h);
      }
    }
  }
}
