/** Unit conversions used by the planner: parsing of route durations such as
    "45s", metres to miles, and truncation of a real number toward zero (the
    behaviour of Python's int() on a float). */
module TripUtils {
  import opened Outcomes

  const MeterPerMile: real := 1609.344
  const FuelMeterThreshold: real := 1000.0 * MeterPerMile
  /** The conversion factor the planner uses: a rounding of 1 / MeterPerMile. */
  const MilesPerMeter: real := 0.000621371

  /** A duration as a route reports it: a string such as "45s", or a number. */
  datatype DurationValue = Text(text: string) | Number(seconds: real)

  // ---------------------------------------------------------------------
  // Duration parsing
  // ---------------------------------------------------------------------

  /** The string with every 's' character removed, wherever it occurs. */
  function RemoveS(s: string): (r: string)
    ensures 's' !in r
    ensures |r| <= |s|
    ensures forall c :: c != 's' ==> (c in r <==> c in s)
  {
    if s == [] then []
    else (if s[0] == 's' then [] else [s[0]]) + RemoveS(s[1..])
  }

  predicate IsDigit(c: char) {
    '0' <= c <= '9'
  }

  predicate AllDigits(s: string) {
    forall i :: 0 <= i < |s| ==> IsDigit(s[i])
  }

  function DigitValue(c: char): (d: nat)
    requires IsDigit(c)
    ensures d <= 9
  {
    (c as int) - ('0' as int)
  }

  /** Value of a non-empty or empty run of decimal digits, most significant first. */
  function DigitsValue(ds: string): nat
    requires AllDigits(ds)
  {
    if ds == [] then 0 else 10 * DigitsValue(ds[..|ds| - 1]) + DigitValue(ds[|ds| - 1])
  }

  /** Value of the digits after a decimal point. */
  function FractionValue(ds: string): (f: real)
    requires AllDigits(ds)
    ensures 0.0 <= f < 1.0
  {
    if ds == [] then 0.0 else (DigitValue(ds[0]) as real + FractionValue(ds[1..])) / 10.0
  }

  /** Index of the first occurrence of c, or |s| when there is none. */
  function IndexOf(s: string, c: char): (i: nat)
    ensures i <= |s|
    ensures i < |s| ==> s[i] == c
    ensures c !in s[..i]
  {
    if s == [] then 0
    else if s[0] == c then 0
    else 1 + IndexOf(s[1..], c)
  }

  /** An unsigned decimal: digits, optionally a point and more digits, with at
      least one digit in all ("7", "7.", ".5", "7.25"). */
  function ParseUnsigned(u: string): (r: Option<real>)
    ensures r.Some? ==> r.value >= 0.0
  {
    var dot := IndexOf(u, '.');
    var whole := u[..dot];
    var fraction := if dot < |u| then u[dot + 1..] else "";
    if AllDigits(whole) && AllDigits(fraction) && |whole| + |fraction| > 0
    then Some(DigitsValue(whole) as real + FractionValue(fraction))
    else None
  }

  /** A decimal with an optional sign, as a float conversion reads it. */
  function ParseNumber(t: string): Option<real> {
    if |t| > 0 && t[0] == '-' then
      match ParseUnsigned(t[1..])
      case Some(v) => Some(-v)
      case None => None
    else if |t| > 0 && t[0] == '+' then ParseUnsigned(t[1..])
    else ParseUnsigned(t)
  }

  /** Seconds denoted by a duration value. A string loses every 's' and the
      rest must be a number; anything else is an error carrying the text. A
      number is returned unchanged. */
  function ParseDuration(v: DurationValue): (r: Result<real, string>)
    ensures v.Number? ==> r == Ok(v.seconds)
    ensures v.Text? ==> (r.Ok? <==> ParseNumber(RemoveS(v.text)).Some?)
    ensures v.Text? && r.Ok? ==> r.value == ParseNumber(RemoveS(v.text)).value
  {
    match v
    case Number(x) => Ok(x)
    case Text(s) =>
      match ParseNumber(RemoveS(s))
      case Some(x) => Ok(x)
      case None => Err(RemoveS(s))
  }

  /** Decimal digits of n without leading zeros. */
  function ShowNat(n: nat): (s: string)
    ensures |s| > 0 && AllDigits(s)
  {
    if n < 10 then [('0' as int + n) as char]
    else ShowNat(n / 10) + [('0' as int + n % 10) as char]
  }

  lemma {:induction false} DigitsRoundTrip(n: nat)
    ensures DigitsValue(ShowNat(n)) == n
  {
    if n >= 10 {
      var s := ShowNat(n);
      assert s[..|s| - 1] == ShowNat(n / 10);
      DigitsRoundTrip(n / 10);
    }
  }

  lemma {:induction false} RemoveSKeeps(s: string)
    requires 's' !in s
    ensures RemoveS(s) == s
  {
    if s != [] {
      assert 's' !in s[1..] by {
        forall i | 0 <= i < |s[1..]| ensures s[1..][i] != 's' {
          assert s[1..][i] == s[i + 1];
        }
      }
      RemoveSKeeps(s[1..]);
    }
  }

  lemma {:induction false} RemoveSConcat(x: string, y: string)
    ensures RemoveS(x + y) == RemoveS(x) + RemoveS(y)
  {
    if x != [] {
      assert (x + y)[1..] == x[1..] + y;
      RemoveSConcat(x[1..], y);
    } else {
      assert x + y == y;
    }
  }

  /** Removing 's' is idempotent. */
  lemma RemoveSIdempotent(s: string)
    ensures RemoveS(RemoveS(s)) == RemoveS(s)
  {
    RemoveSKeeps(RemoveS(s));
  }

  lemma NotADigit(s: string, c: char)
    requires AllDigits(s) && !IsDigit(c)
    ensures c !in s
  {
  }

  /** A whole number of seconds written as "<n>s" parses back to n. */
  lemma ParseDurationRoundTrip(n: nat)
    ensures ParseDuration(Text(ShowNat(n) + "s")) == Ok(n as real)
  {
    var digits := ShowNat(n);
    NotADigit(digits, 's');
    RemoveSConcat(digits, "s");
    RemoveSKeeps(digits);
    assert RemoveS("s") == [];
    assert RemoveS(digits + "s") == digits;
    NotADigit(digits, '.');
    assert IsDigit(digits[0]);
    var dot := IndexOf(digits, '.');
    assert dot == |digits|;
    assert digits[..dot] == digits;
    DigitsRoundTrip(n);
  }

  /** The empty text is no number; a leading '-' negates what the rest reads
      as, a leading '+' is dropped, and only a '-' can give a negative value. */
  lemma ParseNumberSign(t: string)
    ensures t == [] ==> ParseNumber(t).None?
    ensures |t| > 0 && t[0] in "+-" ==> (ParseNumber(t).Some? <==> ParseUnsigned(t[1..]).Some?)
    ensures |t| > 0 && t[0] == '-' && ParseNumber(t).Some? ==>
      ParseNumber(t).value == -ParseUnsigned(t[1..]).value
    ensures ParseNumber(t).Some? && ParseNumber(t).value < 0.0 ==> t[0] == '-'
    ensures (t == [] || t[0] !in "+-") ==> ParseNumber(t) == ParseUnsigned(t)
  {
  }

  /** A whole number reads back as itself, with a '+' unchanged and with a
      '-' negated. */
  lemma SignedRoundTrip(n: nat)
    ensures ParseNumber(ShowNat(n)) == Some(n as real)
    ensures ParseNumber("+" + ShowNat(n)) == Some(n as real)
    ensures ParseNumber("-" + ShowNat(n)) == Some(-(n as real))
  {
    var digits := ShowNat(n);
    NotADigit(digits, '.');
    assert IsDigit(digits[0]);
    var dot := IndexOf(digits, '.');
    assert dot == |digits|;
    assert digits[..dot] == digits;
    DigitsRoundTrip(n);
    assert ParseUnsigned(digits) == Some(n as real);
    assert ("+" + digits)[1..] == digits && ("-" + digits)[1..] == digits;
  }

  /** Every 's' is dropped, not only a trailing one: "1s5s" reads as 15. */
  lemma EverySDropped(x: string, y: string)
    ensures ParseDuration(Text(x + "s" + y)) == ParseDuration(Text(x + y))
  {
    assert RemoveS(x + "s" + y) == RemoveS(x + y) by {
      assert RemoveS("s") == [];
      RemoveSConcat(x, "s");
      RemoveSConcat(x + "s", y);
      RemoveSConcat(x, y);
    }
  }

  /** A string that is not numeric once its 's' characters are gone is an error. */
  lemma MalformedDurationFails()
    ensures ParseDuration(Text("4x5s")).Err?
  {
    assert RemoveS("4x5s") == "4x5";
    assert IndexOf("4x5", '.') == 3;
    assert !IsDigit("4x5"[1]);
  }

  // ---------------------------------------------------------------------
  // Distance
  // ---------------------------------------------------------------------

  /** Metres to miles with the rounded factor: never more than the exact
      conversion, and less by at most four parts in ten million. */
  function MilesFromMeters(meters: real): (r: real)
    ensures meters >= 0.0 ==> 0.9999996 * (meters / 1609.344) <= r <= meters / 1609.344
    ensures meters <= 0.0 ==> meters / 1609.344 <= r <= 0.9999996 * (meters / 1609.344)
  {
    meters * MilesPerMeter
  }

  lemma MilesFromMetersZero()
    ensures MilesFromMeters(0.0) == 0.0
  {
  }

  lemma MilesFromMetersAdditive(a: real, b: real)
    ensures MilesFromMeters(a + b) == MilesFromMeters(a) + MilesFromMeters(b)
  {
  }

  lemma MilesFromMetersMonotone(a: real, b: real)
    requires 0.0 <= a <= b
    ensures 0.0 <= MilesFromMeters(a) <= MilesFromMeters(b)
  {
  }

  /** The fuel threshold is 1000 miles expressed in metres; converting it back
      with the rounded factor gives slightly less than 1000 miles. */
  lemma FuelThreshold()
    ensures FuelMeterThreshold == 1609344.0
    ensures 999.9996 < MilesFromMeters(FuelMeterThreshold) < 1000.0
  {
  }

  // ---------------------------------------------------------------------
  // Truncation toward zero
  // ---------------------------------------------------------------------

  /** The integer part of x, rounded toward zero. */
  function Trunc(x: real): (r: int)
    ensures x >= 0.0 ==> 0 <= r && r as real <= x < r as real + 1.0
    ensures x < 0.0 ==> r <= 0 && r as real - 1.0 < x <= r as real
  {
    if x >= 0.0 then x.Floor else -((-x).Floor)
  }
}
