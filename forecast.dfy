/**
 * Weather data: the weather-code to icon-glyph table, the compass label of
 * a wind direction, and the parser that turns a forecast reply into the
 * current sample and a map from "H:00" keys to hourly samples.
 */
module Forecast {
  import opened Builtins

  // -----------------------------------------------------------------------
  // Icons

  /** Glyphs of the weather icon font. */
  const Clear := "9"
  const PartlyCloudy := "8"
  const Cloudy := "7"
  const Rain := "6"
  const Snow := "5"
  const ClearNight := "2"
  const PartlyCloudyNight := "1"

  /** Weather codes drawn as rain, and as snow. */
  const RainCodes: set<int> := {51, 53, 55, 56, 57, 61, 63, 65, 66, 67, 80, 81, 82}
  const SnowCodes: set<int> := {71, 73, 75, 77, 85, 86}

  /** The icon glyph for a weather code, `None` for a code with no icon. */
  function WeatherIcon(code: int): (r: Option<string>)
    ensures r == Some(Clear) <==> code == 0
    ensures r == Some(PartlyCloudy) <==> code == 1 || code == 2
    ensures r == Some(Cloudy) <==> code == 3
    ensures r == Some(Rain) <==> code in RainCodes
    ensures r == Some(Snow) <==> code in SnowCodes
    ensures r.None? <==> code !in {0, 1, 2, 3} + RainCodes + SnowCodes
  {
    if code == 0 then Some("9")
    else if code in {1, 2} then Some("8")
    else if code == 3 then Some("7")
    else if code in {51, 53, 55, 56, 57, 61, 63, 65, 66, 67, 80, 81, 82} then Some("6")
    else if code in {71, 73, 75, 77, 85, 86} then Some("5")
    else None
  }

  // -----------------------------------------------------------------------
  // Compass

  const Directions: seq<string> :=
    ["N", "NNE", "NE", "ENE", "E", "ESE", "SE", "SSE",
     "S", "SSW", "SW", "WSW", "W", "WNW", "NW", "NNW"]

  /** The compass label of a direction in degrees: the nearest of the 16
      points, 22.5 degrees apart, a tie going to the even point. */
  function Direction(degrees: real): (r: string)
    ensures r in Directions
  {
    Directions[RoundHalfEven(degrees / 22.5) % 16]
  }

  /** Every direction strictly within 11.25 degrees of point `k` (counted
      clockwise from north, any number of turns) is labelled with point
      `k`. */
  lemma {:induction false} DirectionSector(degrees: real, k: int)
    requires 22.5 * k as real - 11.25 < degrees < 22.5 * k as real + 11.25
    ensures Direction(degrees) == Directions[k % 16]
  {
    RoundNearest(degrees / 22.5, k);
  }

  lemma TurnShift(degrees: real)
    ensures (degrees + 360.0) / 22.5 == degrees / 22.5 + 16 as real
  {
  }

  lemma ModShift(k: int)
    ensures (k + 16) % 16 == k % 16
  {
  }

  /** A whole turn does not change the label. */
  lemma {:induction false} DirectionPeriodic(degrees: real)
    ensures Direction(degrees + 360.0) == Direction(degrees)
  {
    TurnShift(degrees);
    RoundShiftEven(degrees / 22.5, 16);
    ModShift(RoundHalfEven(degrees / 22.5));
  }

  /** North at 0 and 360 degrees, south at 180, and 359 rounds up to
      north. */
  lemma DirectionCardinalExamples()
    ensures Direction(0.0) == "N" && Direction(360.0) == "N"
    ensures Direction(180.0) == "S" && Direction(359.0) == "N"
  {
    DirectionSector(0.0, 0);
    DirectionSector(360.0, 16);
    DirectionSector(180.0, 8);
    DirectionSector(359.0, 16);
  }

  /** 22 degrees is nearer NNE (22.5) than N; the exact midpoints 11.25 and
      33.75 go to the even point, N and NE. */
  lemma DirectionBoundaryExamples()
    ensures Direction(22.0) == "NNE"
    ensures Direction(11.25) == "N" && Direction(33.75) == "NE"
  {
    DirectionSector(22.0, 1);
    assert 11.25 / 22.5 == 0.5;
    RoundTie(0.5, 0);
    assert 33.75 / 22.5 == 1.5;
    RoundTie(1.5, 2);
  }

  /** A direction exactly between two compass points gets the even one of
      the two. */
  lemma {:induction false} DirectionTie(k: int)
    ensures Direction(22.5 * k as real + 11.25) == Directions[(if k % 2 == 0 then k else k + 1) % 16]
  {
    var d := 22.5 * k as real + 11.25;
    var x := k as real + 0.5;
    assert x * 22.5 == d;
    assert d / 22.5 == x;
    RoundTie(x, if k % 2 == 0 then k else k + 1);
  }

  // -----------------------------------------------------------------------
  // Forecast reply

  /** A number from the reply: its value and the text Python prints for
      it. */
  datatype Number = Number(value: real, text: string)

  /** What a weather widget shows: icon glyph, temperature, wind speed. */
  datatype Sample = Sample(icon: Option<string>, temperature: Number, windSpeed: Number)

  /** The "current" object of the reply. */
  datatype Current = Current(weatherCode: int, temperature: Number, windSpeed: Number)

  /** The parallel arrays of the "hourly" object, indexed by hour. */
  datatype Hourly = Hourly(weatherCode: seq<int>, temperature: seq<Number>, windSpeed: seq<Number>)

  /** The decoded forecast reply. The unit tables and the time array are
      read by nothing; the parser empties them to free memory. */
  class WeatherReply {
    var current: Current
    var hourly: Hourly
    var hourlyTime: seq<string>
    var currentUnits: map<string, string>
    var hourlyUnits: map<string, string>

    constructor (current: Current, hourly: Hourly, hourlyTime: seq<string>,
                 currentUnits: map<string, string>, hourlyUnits: map<string, string>)
      ensures this.current == current && this.hourly == hourly && this.hourlyTime == hourlyTime
      ensures this.currentUnits == currentUnits && this.hourlyUnits == hourlyUnits
    {
      this.current, this.hourly, this.hourlyTime := current, hourly, hourlyTime;
      this.currentUnits, this.hourlyUnits := currentUnits, hourlyUnits;
    }
  }

  /** The current sample: the icon of the current weather code, with the
      current temperature and wind speed as the reply gives them. */
  function CurrentSample(c: Current): (r: Sample)
    ensures r.icon == WeatherIcon(c.weatherCode)
    ensures r.temperature == c.temperature && r.windSpeed == c.windSpeed
  {
    Sample(WeatherIcon(c.weatherCode), c.temperature, c.windSpeed)
  }

  /** The current sample is read by the same rule as an hourly one: an
      hour whose three array entries are the current fields reads as the
      current sample. */
  lemma CurrentSampleLikeHourly(c: Current, h: Hourly, hour: int)
    requires PyIndex(h.weatherCode, hour) == Ok(c.weatherCode)
    requires PyIndex(h.temperature, hour) == Ok(c.temperature)
    requires PyIndex(h.windSpeed, hour) == Ok(c.windSpeed)
    ensures SampleAt(h, hour) == Ok(CurrentSample(c))
  {
  }

  /** The key of an hour in the hourly map: the hour, then ":00". */
  function HourKey(hour: int): string {
    IntString(hour) + ":00"
  }

  lemma {:induction false} HourKeyInjective(a: int, b: int)
    requires HourKey(a) == HourKey(b)
    ensures a == b
  {
    var s := HourKey(a);
    assert IntString(a) == s[..|s| - 3] == IntString(b);
    IntStringInjective(a, b);
  }

  /** The sample of one hour, read from the three arrays in turn; an hour
      outside any of them raises `IndexError`. */
  function SampleAt(h: Hourly, hour: int): (r: Result<Sample>)
    ensures r.Ok? <==> PyIndex(h.weatherCode, hour).Ok? && PyIndex(h.temperature, hour).Ok?
                       && PyIndex(h.windSpeed, hour).Ok?
    ensures r.Err? ==> r.error == IndexError
  {
    match PyIndex(h.weatherCode, hour)
    case Err(e) => Err(e)
    case Ok(code) =>
      match PyIndex(h.temperature, hour)
      case Err(e) => Err(e)
      case Ok(temp) =>
        match PyIndex(h.windSpeed, hour)
        case Err(e) => Err(e)
        case Ok(wind) => Ok(Sample(WeatherIcon(code), temp, wind))
  }

  /** A function reading one hour's sample from the hourly arrays. */
  type Reader = (Hourly, int) -> Result<Sample>

  /** The hourly map built for the configured hours, entry by entry in
      their order, or the error of the first hour that cannot be read. */
  function HourlyMap(h: Hourly, hours: seq<int>): Result<map<string, Sample>> {
    BuildHourly(h, hours, HourKey, SampleAt)
  }

  /** `HourlyMap` for any choice of key: the proofs below use only that
      the key of an hour determines the hour. */
  function BuildHourly(h: Hourly, hours: seq<int>, key: int -> string, read: Reader): Result<map<string, Sample>>
    decreases |hours|
  {
    if hours == [] then Ok(map[])
    else AddHour(BuildHourly(h, hours[..|hours| - 1], key, read), h, hours[|hours| - 1], key, read)
  }

  /** One step of building the hourly map: the entry of `hour` added to the
      map built so far, or the first error. */
  function AddHour(acc: Result<map<string, Sample>>, h: Hourly, hour: int, key: int -> string, read: Reader)
    : (r: Result<map<string, Sample>>)
    ensures r.Ok? <==> acc.Ok? && read(h, hour).Ok?
    ensures r.Ok? ==> r.value == acc.value[key(hour) := read(h, hour).value]
  {
    match acc
    case Err(e) => Err(e)
    case Ok(m) =>
      match read(h, hour)
      case Err(e) => Err(e)
      case Ok(s) => Ok(m[key(hour) := s])
  }

  ghost predicate Injective(key: int -> string) {
    forall a, b :: key(a) == key(b) ==> a == b
  }

  lemma HourKeyIsInjective()
    ensures Injective(HourKey)
  {
    forall a, b | HourKey(a) == HourKey(b) ensures a == b {
      HourKeyInjective(a, b);
    }
  }

  /** The map is built iff every configured hour can be read. */
  lemma {:induction false} BuildHourlyDefined(h: Hourly, hours: seq<int>, key: int -> string, read: Reader)
    ensures BuildHourly(h, hours, key, read).Ok? <==> forall i :: 0 <= i < |hours| ==> read(h, hours[i]).Ok?
    decreases |hours|
  {
    if hours != [] {
      var n := |hours| - 1;
      var front := hours[..n];
      BuildHourlyDefined(h, front, key, read);
      if BuildHourly(h, hours, key, read).Ok? {
        assert BuildHourly(h, front, key, read).Ok? && read(h, hours[n]).Ok?;
        forall i | 0 <= i < |hours| ensures read(h, hours[i]).Ok? {
          if i < n { assert hours[i] == front[i]; }
        }
      } else if BuildHourly(h, front, key, read).Ok? {
        assert read(h, hours[n]).Err?;
      } else {
        var i :| 0 <= i < n && read(h, front[i]).Err?;
        assert hours[i] == front[i];
      }
    }
  }

  /** The built map's keys are exactly the configured hours' keys. */
  lemma {:induction false} BuildHourlyKeys(h: Hourly, hours: seq<int>, key: int -> string, read: Reader)
    requires BuildHourly(h, hours, key, read).Ok?
    ensures BuildHourly(h, hours, key, read).value.Keys == set i | 0 <= i < |hours| :: key(hours[i])
    decreases |hours|
  {
    if hours != [] {
      var n := |hours| - 1;
      var front := hours[..n];
      assert BuildHourly(h, front, key, read).Ok?;
      BuildHourlyKeys(h, front, key, read);
      assert forall i :: 0 <= i < n ==> front[i] == hours[i];
      assert (set i | 0 <= i < n :: key(front[i])) == (set i | 0 <= i < n :: key(hours[i]));
    }
  }

  /** With an injective key, each configured hour's key maps to that
      hour's sample. */
  lemma {:induction false} BuildHourlyEntries(h: Hourly, hours: seq<int>, key: int -> string, read: Reader)
    requires Injective(key) && BuildHourly(h, hours, key, read).Ok?
    ensures forall i :: 0 <= i < |hours| ==>
      read(h, hours[i]).Ok? && key(hours[i]) in BuildHourly(h, hours, key, read).value &&
      BuildHourly(h, hours, key, read).value[key(hours[i])] == read(h, hours[i]).value
    decreases |hours|
  {
    if hours != [] {
      var n := |hours| - 1;
      var front := hours[..n];
      assert BuildHourly(h, front, key, read).Ok?;
      BuildHourlyEntries(h, front, key, read);
      var m := BuildHourly(h, front, key, read).value;
      var m' := BuildHourly(h, hours, key, read).value;
      assert m' == m[key(hours[n]) := read(h, hours[n]).value];
      forall i | 0 <= i < |hours|
        ensures read(h, hours[i]).Ok? && key(hours[i]) in m' && m'[key(hours[i])] == read(h, hours[i]).value
      {
        if i < n {
          assert hours[i] == front[i];
        }
      }
    }
  }

  /** The hourly map exists iff every configured hour can be read; its keys
      are then exactly the configured hours' "H:00" keys, and each maps to
      that hour's sample. */
  lemma HourlyMapEntries(h: Hourly, hours: seq<int>)
    ensures HourlyMap(h, hours).Ok? <==> forall i :: 0 <= i < |hours| ==> SampleAt(h, hours[i]).Ok?
    ensures HourlyMap(h, hours).Ok? ==>
      HourlyMap(h, hours).value.Keys == set i | 0 <= i < |hours| :: HourKey(hours[i])
    ensures HourlyMap(h, hours).Ok? ==> forall i :: 0 <= i < |hours| ==>
      HourlyMap(h, hours).value[HourKey(hours[i])] == SampleAt(h, hours[i]).value
  {
    BuildHourlyDefined(h, hours, HourKey, SampleAt);
    if HourlyMap(h, hours).Ok? {
      HourKeyIsInjective();
      BuildHourlyKeys(h, hours, HourKey, SampleAt);
      BuildHourlyEntries(h, hours, HourKey, SampleAt);
    }
  }

  /** `parse_weather_data`: empties the unit tables and the time array of
      the reply, then returns the current sample and the hourly map for
      the configured hours, or the `IndexError` of an hour outside the
      arrays. */
  method ParseWeather(reply: WeatherReply, hours: seq<int>)
    returns (r: Result<(Sample, map<string, Sample>)>)
    modifies reply
    ensures reply.currentUnits == map[] && reply.hourlyUnits == map[] && reply.hourlyTime == []
    ensures reply.current == old(reply.current) && reply.hourly == old(reply.hourly)
    ensures r.Ok? <==> HourlyMap(reply.hourly, hours).Ok?
    ensures r.Ok? ==> r.value == (CurrentSample(reply.current), HourlyMap(reply.hourly, hours).value)
    ensures r.Err? ==> r.error == IndexError
  {
    reply.currentUnits := map[];
    reply.hourlyUnits := map[];
    reply.hourlyTime := [];
    var current := Sample(WeatherIcon(reply.current.weatherCode),
                          reply.current.temperature, reply.current.windSpeed);
    var hourly := ReadHourly(reply.hourly, hours);
    if hourly.Err? {
      return Err(hourly.error);
    }
    r := Ok((current, hourly.value));
  }

  /** The loop of `parse_weather_data` over the configured hours: each
      hour's sample read from the three arrays and stored under its "H:00"
      key, stopping at the first hour outside an array. */
  method ReadHourly(data: Hourly, hours: seq<int>) returns (r: Result<map<string, Sample>>)
    ensures r.Ok? <==> HourlyMap(data, hours).Ok?
    ensures r.Ok? ==> r.value == HourlyMap(data, hours).value
    ensures r.Err? ==> r.error == IndexError
  {
    var hourly: map<string, Sample> := map[];
    var i := 0;
    while i < |hours|
      invariant 0 <= i <= |hours|
      invariant BuildHourly(data, hours[..i], HourKey, SampleAt) == Ok(hourly)
    {
      var hour := hours[i];
      BuildHourlyStep(data, hours, i, HourKey, SampleAt);
      var code := PyIndex(data.weatherCode, hour);
      if code.Err? {
        BuildHourlyPrefixError(data, hours, i + 1, HourKey, SampleAt);
        return Err(code.error);
      }
      var temp := PyIndex(data.temperature, hour);
      if temp.Err? {
        BuildHourlyPrefixError(data, hours, i + 1, HourKey, SampleAt);
        return Err(temp.error);
      }
      var wind := PyIndex(data.windSpeed, hour);
      if wind.Err? {
        BuildHourlyPrefixError(data, hours, i + 1, HourKey, SampleAt);
        return Err(wind.error);
      }
      SampleAtOk(data, hour);
      hourly := hourly[HourKey(hour) := Sample(WeatherIcon(code.value), temp.value, wind.value)];
      i := i + 1;
    }
    assert hours[..i] == hours;
    r := Ok(hourly);
  }

  /** One more hour extends the map built so far by its entry. */
  lemma BuildHourlyStep(h: Hourly, hours: seq<int>, i: nat, key: int -> string, read: Reader)
    requires i < |hours|
    ensures BuildHourly(h, hours[..i + 1], key, read) == AddHour(BuildHourly(h, hours[..i], key, read), h, hours[i], key, read)
  {
    assert hours[..i + 1][..i] == hours[..i];
  }

  /** The sample of an hour inside all three arrays. */
  lemma SampleAtOk(h: Hourly, hour: int)
    requires PyIndex(h.weatherCode, hour).Ok? && PyIndex(h.temperature, hour).Ok? && PyIndex(h.windSpeed, hour).Ok?
    ensures SampleAt(h, hour) == Ok(Sample(WeatherIcon(PyIndex(h.weatherCode, hour).value),
                                           PyIndex(h.temperature, hour).value, PyIndex(h.windSpeed, hour).value))
  {
  }

  /** Once a prefix of the hours fails, so does the whole list. */
  lemma {:induction false} BuildHourlyPrefixError(h: Hourly, hours: seq<int>, k: nat, key: int -> string, read: Reader)
    requires k <= |hours| && BuildHourly(h, hours[..k], key, read).Err?
    ensures BuildHourly(h, hours, key, read).Err?
    decreases |hours| - k
  {
    if k < |hours| {
      assert hours[..k + 1][..k] == hours[..k];
      BuildHourlyPrefixError(h, hours, k + 1, key, read);
    } else {
      assert hours[..k] == hours;
    }
  }
}
