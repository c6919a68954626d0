/** The duty intervals a planning run appends to its timeline, and what holds
    of a timeline as a whole: intervals follow one another without gap or
    overlap, each carries the number of the shift it belongs to, and each
    reports its length in whole minutes. */
module Timeline {
  import opened Outcomes
  import opened HosRules
  import opened TripUtils

  datatype Coord = Coord(latitude: real, longitude: real)

  /** Reverse geocoding: an address for a coordinate, when one is known. */
  type Geocoder = Coord -> Option<string>

  /** One duty interval; times are seconds on the simulated clock. */
  datatype Interval = Interval(
    shift: int,
    status: string,
    reason: string,
    startTime: real,
    endTime: real,
    location: Option<Coord>,
    address: Option<string>,
    duration: int)  // whole minutes

  /** Minutes between two instants, truncated toward zero. */
  function DurationMinutes(start: real, end: real): (m: int)
    ensures start <= end ==> 0 <= m && (m * 60) as real <= end - start < ((m + 1) * 60) as real
  {
    Trunc((end - start) / SecondsPerMinute as real)
  }

  /** The record of an interval; an interval with a location also carries the
      address found for it. */
  function MakeInterval(geocode: Geocoder, shift: int, status: string, reason: string,
                        start: real, end: real, location: Option<Coord>): Interval
  {
    var address := if location.Some? then geocode(location.value) else None;
    Interval(shift, status, reason, start, end, location, address, DurationMinutes(start, end))
  }

  /** Where the timeline ends; an empty timeline ends where the run starts. */
  function EndOf(t0: real, t: seq<Interval>): real {
    if t == [] then t0 else t[|t| - 1].endTime
  }

  /** The intervals start at t0 and each starts where the previous one ends. */
  predicate Contiguous(t0: real, t: seq<Interval>) {
    && (|t| > 0 ==> t[0].startTime == t0)
    && (forall i :: 0 < i < |t| ==> t[i].startTime == t[i - 1].endTime)
    && (forall i :: 0 <= i < |t| ==> t[i].startTime <= t[i].endTime)
  }

  /** How many rests and cycle resets (the Sleeper Berth intervals) the timeline holds. */
  function SleeperCount(t: seq<Interval>): nat {
    if t == [] then 0
    else SleeperCount(t[..|t| - 1]) + (if t[|t| - 1].status == SleeperBerth then 1 else 0)
  }

  /** Each interval belongs to the shift that follows the Sleeper Berth intervals before it. */
  predicate Numbered(t: seq<Interval>) {
    forall i :: 0 <= i < |t| ==> t[i].shift == 1 + SleeperCount(t[..i])
  }

  predicate Measured(t: seq<Interval>) {
    forall i :: 0 <= i < |t| ==> t[i].duration == DurationMinutes(t[i].startTime, t[i].endTime)
  }

  /** A well-kept timeline of a run that started at t0 and is now in shift
      `shift`, stated one appended interval at a time: each interval starts
      where the timeline ended, carries the shift current when it was
      recorded and its length in minutes, and a Sleeper Berth interval
      starts a new shift. */
  predicate Recorded(t0: real, t: seq<Interval>, shift: int)
    decreases |t|
  {
    if t == [] then shift == 1
    else
      var p, iv := t[..|t| - 1], t[|t| - 1];
      && Recorded(t0, p, iv.shift)
      && iv.startTime == EndOf(t0, p) && iv.startTime <= iv.endTime
      && iv.duration == DurationMinutes(iv.startTime, iv.endTime)
      && shift == (if iv.status == SleeperBerth then iv.shift + 1 else iv.shift)
  }

  lemma AppendRecorded(t0: real, t: seq<Interval>, shift: int, iv: Interval)
    requires Recorded(t0, t, shift)
    requires iv.startTime == EndOf(t0, t) && iv.startTime <= iv.endTime
    requires iv.shift == shift && iv.duration == DurationMinutes(iv.startTime, iv.endTime)
    ensures Recorded(t0, t + [iv], if iv.status == SleeperBerth then shift + 1 else shift)
    ensures EndOf(t0, t + [iv]) == iv.endTime
  {
    assert (t + [iv])[..|t|] == t;
  }

  lemma {:induction false} RecordedIsContiguous(t0: real, t: seq<Interval>, shift: int)
    requires Recorded(t0, t, shift)
    ensures Contiguous(t0, t)
    decreases |t|
  {
    if t != [] {
      var p, iv := t[..|t| - 1], t[|t| - 1];
      RecordedIsContiguous(t0, p, iv.shift);
      forall i | 0 < i < |t| ensures t[i].startTime == t[i - 1].endTime {
        if i < |p| {
          assert t[i] == p[i] && t[i - 1] == p[i - 1];
        }
      }
      forall i | 0 <= i < |t| ensures t[i].startTime <= t[i].endTime {
        if i < |p| {
          assert t[i] == p[i];
        }
      }
    }
  }

  lemma {:induction false} RecordedIsNumbered(t0: real, t: seq<Interval>, shift: int)
    requires Recorded(t0, t, shift)
    ensures Numbered(t) && Measured(t)
    ensures shift == 1 + SleeperCount(t)
    decreases |t|
  {
    if t != [] {
      var p, iv := t[..|t| - 1], t[|t| - 1];
      RecordedIsNumbered(t0, p, iv.shift);
      forall i | 0 <= i < |t|
        ensures t[i].shift == 1 + SleeperCount(t[..i])
        ensures t[i].duration == DurationMinutes(t[i].startTime, t[i].endTime)
      {
        if i < |p| {
          assert t[i] == p[i] && t[..i] == p[..i];
        } else {
          assert t[..i] == p;
        }
      }
    }
  }

  /** A well-kept timeline is contiguous, numbers every interval with its
      shift, measures every interval in minutes, and its run is in the shift
      after the last of its Sleeper Berth intervals. */
  lemma RecordedMeans(t0: real, t: seq<Interval>, shift: int)
    requires Recorded(t0, t, shift)
    ensures Contiguous(t0, t) && Numbered(t) && Measured(t)
    ensures shift == 1 + SleeperCount(t)
  {
    RecordedIsContiguous(t0, t, shift);
    RecordedIsNumbered(t0, t, shift);
  }

  /** Total seconds covered by the intervals. */
  function TotalSeconds(t: seq<Interval>): real {
    if t == [] then 0.0 else TotalSeconds(t[..|t| - 1]) + (t[|t| - 1].endTime - t[|t| - 1].startTime)
  }

  /** A contiguous timeline accounts for every second between its start and its end. */
  lemma {:induction false} ElapsedIsTotal(t0: real, t: seq<Interval>)
    requires Contiguous(t0, t)
    ensures TotalSeconds(t) == EndOf(t0, t) - t0
    ensures EndOf(t0, t) >= t0
  {
    if t != [] {
      var p := t[..|t| - 1];
      assert Contiguous(t0, p) by {
        forall i | 0 < i < |p| ensures p[i].startTime == p[i - 1].endTime {
          assert p[i] == t[i] && p[i - 1] == t[i - 1];
        }
      }
      ElapsedIsTotal(t0, p);
    }
  }

  /** In a contiguous timeline no interval starts before an earlier one. */
  lemma {:induction false} StartsOrdered(t0: real, t: seq<Interval>, i: nat, j: nat)
    requires Contiguous(t0, t) && i <= j < |t|
    ensures t0 <= t[i].startTime <= t[j].startTime
    decreases j
  {
    if j > i {
      StartsOrdered(t0, t, i, j - 1);
    } else if i > 0 {
      StartsOrdered(t0, t, 0, i - 1);
    }
  }
}
