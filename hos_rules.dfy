/** The fixed Hours-of-Service rule set: duty-time limits (in seconds), the
    refuelling distance (in miles), the four duty-status labels and the length
    (in seconds) of every stop the planner inserts into a timeline. */
module HosRules {

  const SecondsPerHour: int := 3600
  const SecondsPerMinute: int := 60

  // Duty-time limits
  const MaxCycleSeconds: int := 70 * SecondsPerHour
  const MaxHoursOnDuty: int := 14 * SecondsPerHour
  const MaxDrivingTime: int := 11 * SecondsPerHour
  const MaxDrivingAfterBrake: int := 8 * SecondsPerHour
  const FuelMilesDistance: int := 1000

  // Duty-status labels
  const OnDuty: string := "On Duty"
  const OffDuty: string := "Off Duty"
  const Driving: string := "Driving"
  const SleeperBerth: string := "Sleeper Berth"

  // Lengths of the inserted stops
  const BreakDuration: int := 30 * SecondsPerMinute
  const RestDuration: int := 10 * SecondsPerHour
  const CycleResetDuration: int := 34 * SecondsPerHour
  const FuelDuration: int := 30 * SecondsPerMinute
  const StopDuration: int := 1 * SecondsPerHour

  /** The four duty-time limits are 70, 14, 11 and 8 hours. */
  lemma LimitValues()
    ensures MaxCycleSeconds == 252000
    ensures MaxHoursOnDuty == 50400
    ensures MaxDrivingTime == 39600
    ensures MaxDrivingAfterBrake == 28800
  {
  }

  /** Break limit < driving limit < on-duty limit < cycle limit. */
  lemma LimitsOrdered()
    ensures 0 < MaxDrivingAfterBrake < MaxDrivingTime < MaxHoursOnDuty < MaxCycleSeconds
  {
  }

  /** Breaks and fuel stops last 30 minutes, rests 10 hours, cycle resets
      34 hours and pickup/dropoff stops one hour. */
  lemma StopLengths()
    ensures BreakDuration == FuelDuration == 1800
    ensures RestDuration == 36000
    ensures CycleResetDuration == 122400
    ensures StopDuration == 3600
  {
  }

  /** Fuel every 1000 miles; the four status labels are pairwise distinct. */
  lemma FuelDistanceAndLabels()
    ensures FuelMilesDistance == 1000
    ensures OnDuty != OffDuty && OnDuty != Driving && OnDuty != SleeperBerth
    ensures OffDuty != Driving && OffDuty != SleeperBerth
    ensures Driving != SleeperBerth
  {
    assert OnDuty[1] != Driving[1];
  }
}
