/**
 * The main loop of the dashboard: two deadlines, one a minute apart for
 * the clock and the departures, one a quarter of an hour apart for the
 * weather, checked against the monotonic clock on every pass; the memory
 * widget is refreshed on every pass. The clock readings and the fetched
 * replies are inputs here.
 */
module Dashboard {
  import opened Builtins
  import opened Ui
  import opened Forecast
  import opened Transit
  import opened Widgets
  import opened Clock

  /** Seconds between refreshes of the clock and the departures, and
      between refreshes of the weather. */
  const ClockInterval: real := 60.0
  const WeatherInterval: real := 900.0

  // -----------------------------------------------------------------------
  // Deadlines

  /** The deadline in force at pass `k` when the deadline starts at
      `start`, is pushed to `now + interval` by every pass that finds it
      due, and pass `i` reads the clock as `times[i]`. */
  function Deadline(start: real, interval: real, times: seq<real>, k: nat): real
    requires k <= |times|
  {
    if k == 0 then start
    else
      var d := Deadline(start, interval, times, k - 1);
      if times[k - 1] >= d then times[k - 1] + interval else d
  }

  /** Whether pass `k` finds the deadline due. */
  predicate Fires(start: real, interval: real, times: seq<real>, k: nat)
    requires k < |times|
  {
    times[k] >= Deadline(start, interval, times, k)
  }

  /** The monotonic clock never goes back. */
  predicate Monotone(times: seq<real>) {
    forall i, j :: 0 <= i <= j < |times| ==> times[i] <= times[j]
  }

  /** Both deadlines start at the clock reading taken before the loop, so
      the first pass runs both blocks. */
  lemma FirstPassFires(start: real, interval: real, times: seq<real>)
    requires |times| > 0 && times[0] >= start
    ensures Fires(start, interval, times, 0)
  {
  }

  /** A deadline never moves back. */
  lemma {:induction false} DeadlineMonotone(start: real, interval: real, times: seq<real>, k: nat, m: nat)
    requires interval >= 0.0 && k <= m <= |times|
    ensures Deadline(start, interval, times, k) <= Deadline(start, interval, times, m)
    decreases m - k
  {
    if k < m {
      DeadlineMonotone(start, interval, times, k, m - 1);
    }
  }

  /** Two passes that both run a block are at least an interval apart. */
  lemma {:induction false} FiringsAreSpaced(start: real, interval: real, times: seq<real>, i: nat, j: nat)
    requires interval >= 0.0 && i < j < |times|
    requires Fires(start, interval, times, i) && Fires(start, interval, times, j)
    ensures times[j] >= times[i] + interval
  {
    DeadlineMonotone(start, interval, times, i + 1, j);
  }

  /** After the first pass, the deadline is at most an interval after the
      previous pass's clock reading. */
  lemma {:induction false} DeadlineBound(start: real, interval: real, times: seq<real>, k: nat)
    requires interval >= 0.0 && Monotone(times) && |times| > 0 && start <= times[0]
    requires 1 <= k <= |times|
    ensures Deadline(start, interval, times, k) <= times[k - 1] + interval
  {
    if k > 1 {
      DeadlineBound(start, interval, times, k - 1);
    }
  }

  /** Passes that find the deadline not due leave it where it is. */
  lemma {:induction false} DeadlineStays(start: real, interval: real, times: seq<real>, i: nat, m: nat)
    requires i < m <= |times|
    requires forall k :: i < k < m ==> !Fires(start, interval, times, k)
    ensures Deadline(start, interval, times, m) == Deadline(start, interval, times, i + 1)
    decreases m - i
  {
    if m > i + 1 {
      DeadlineStays(start, interval, times, i, m - 1);
      assert !Fires(start, interval, times, m - 1);
    }
  }

  /** No block is skipped for longer than its interval: once the clock has
      advanced an interval past pass `i`, some later pass up to that one
      runs the block. */
  lemma {:induction false} FiringsKeepUp(start: real, interval: real, times: seq<real>, i: nat, j: nat)
    requires interval >= 0.0 && Monotone(times) && |times| > 0 && start <= times[0]
    requires i < j < |times| && times[j] >= times[i] + interval
    ensures exists k :: i < k <= j && Fires(start, interval, times, k)
  {
    if !Fires(start, interval, times, j) {
      if forall k :: i < k < j ==> !Fires(start, interval, times, k) {
        DeadlineStays(start, interval, times, i, j);
        DeadlineBound(start, interval, times, i + 1);
        assert false;
      }
    } else {
      assert i < j <= j;
    }
  }

  // -----------------------------------------------------------------------
  // One pass of the loop

  /** What a pass does, in order: the clock, the train departures, the
      memory, the bus departures and the memory again when the minute
      deadline is due; the weather (current widget, then the hourly list)
      and the memory when the quarter-hour deadline is due; the memory
      always. */
  datatype Action = ShowClock | ShowTrains | ShowBuses | ShowWeather | ShowMemory

  /** The minute block and the quarter-hour block. */
  const MinuteActions: seq<Action> := [ShowClock, ShowTrains, ShowMemory, ShowBuses, ShowMemory]
  const QuarterActions: seq<Action> := [ShowWeather, ShowMemory]

  /** A departures refresh followed by the memory read, cut short when
      the refresh raises. */
  function Block(refresh: Action, failed: bool): seq<Action> {
    if failed then [refresh] else [refresh, ShowMemory]
  }

  /** The actions of a pass after the minute block: the quarter-hour
      block when due, then the memory. */
  function RestActions(weather: bool): seq<Action> {
    (if weather then QuarterActions else []) + [ShowMemory]
  }

  function PassActions(transit: bool, weather: bool): seq<Action> {
    if transit then MinuteActions + RestActions(weather) else RestActions(weather)
  }

  /** The loop's two deadlines. */
  class Scheduler {
    var next60: real
    var next900: real

    constructor (start: real)
      ensures next60 == start && next900 == start
    {
      next60, next900 := start, start;
    }

    /** The deadline checks of one pass at clock reading `now`. */
    method Step(now: real) returns (transit: bool, weather: bool)
      modifies this
      ensures transit <==> now >= old(next60)
      ensures weather <==> now >= old(next900)
      ensures next60 == if transit then now + ClockInterval else old(next60)
      ensures next900 == if weather then now + WeatherInterval else old(next900)
    {
      transit := now >= next60;
      if transit {
        next60 := now + 60.0;
      }
      weather := now >= next900;
      if weather {
        next900 := now + 900.0;
      }
    }

    /** Passes at the given clock readings: which blocks each pass runs. */
    method Run(times: seq<real>) returns (transit: seq<bool>, weather: seq<bool>)
      modifies this
      ensures |transit| == |times| && |weather| == |times|
      ensures forall k :: 0 <= k < |times| ==>
        transit[k] == Fires(old(next60), ClockInterval, times, k) &&
        weather[k] == Fires(old(next900), WeatherInterval, times, k)
      ensures next60 == Deadline(old(next60), ClockInterval, times, |times|)
      ensures next900 == Deadline(old(next900), WeatherInterval, times, |times|)
    {
      transit, weather := [], [];
      var i := 0;
      while i < |times|
        invariant 0 <= i <= |times| && |transit| == i && |weather| == i
        invariant next60 == Deadline(old(next60), ClockInterval, times, i)
        invariant next900 == Deadline(old(next900), WeatherInterval, times, i)
        invariant forall k :: 0 <= k < i ==>
          transit[k] == Fires(old(next60), ClockInterval, times, k) &&
          weather[k] == Fires(old(next900), WeatherInterval, times, k)
      {
        var t, w := Step(times[i]);
        transit, weather := transit + [t], weather + [w];
        i := i + 1;
      }
    }
  }

  // -----------------------------------------------------------------------
  // The refresh blocks

  /** The texts a departures label shows while fetching and after a
      failure. The bus text is spelt as the program spells it. */
  const TrainLoading: string := "H\U{E4}mtar avg\U{E5}ngar..."
  const BusLoading: string := "H\U{E4}mtar avr\U{E5}ngar..."
  const FailureText: string := "Fel uppstod..."

  /** One departures refresh: the label shows the loading text, then the
      parsed departures, or the failure text when the fetch failed (`None`;
      the program then re-raises). */
  method RefreshDepartures(target: Text, loading: string, fetched: Option<TransitReply>)
    returns (failed: bool)
    modifies target, if fetched.Some? then {fetched.value} else {}
    ensures failed <==> fetched.None?
    ensures target.text == Some(if fetched.Some? then TransitText(old(fetched.value.departures)) else FailureText)
    ensures target.color == old(target.color)
    ensures fetched.Some? ==> fetched.value.Keys() == {}
  {
    target.text := Some(loading);
    if fetched.None? {
      target.text := Some(FailureText);
      return true;
    }
    var text := ParseTransit(fetched.value);
    target.text := Some(text);
    return false;
  }

  /** The exception a weather refresh raises: the parser's `IndexError`
      when the hourly map cannot be built, else the list's. */
  function WeatherError(h: Hourly, hours: seq<int>): (r: Option<Error>)
    ensures HourlyMap(h, hours).Err? ==> r == Some(IndexError)
    ensures HourlyMap(h, hours).Ok? ==> r == ListError(hours, HourlyMap(h, hours).value)
  {
    match HourlyMap(h, hours)
    case Err(_) => Some(IndexError)
    case Ok(m) => ListError(hours, m)
  }

  /** One weather refresh: parse the reply, then show the current sample
      in the current-weather widget and the hourly map in the list. A
      reply the parser rejects leaves every widget as it was. */
  method RefreshWeather(reply: WeatherReply, hours: seq<int>, hour: int,
                        current: WeatherWidget, list: WeatherList)
    returns (error: Option<Error>)
    requires current.Valid() && list.Valid()
    requires list.AvoidsWidget(current)
    modifies reply, current.symbol, current.temperature, current.wind, list.Repr()
    ensures current.Valid() && list.Valid()
    ensures error == WeatherError(old(reply.hourly), hours)
    ensures HourlyMap(old(reply.hourly), hours).Err? ==>
      current.View() == old(current.View()) && Keeps(list, old(list.Texts()), old(list.Views()))
    ensures HourlyMap(old(reply.hourly), hours).Ok? ==>
      current.View() == Updated(old(current.View()), CurrentSample(old(reply.current)), hour) &&
      Shows(list, old(list.Texts()), old(list.Views()), hours, HourlyMap(old(reply.hourly), hours).value, hour)
    ensures ColorsAre(list, old(list.Colors()))
  {
    ghost var texts, views, colors, view := list.Texts(), list.Views(), list.Colors(), current.View();
    var parsed := ParseWeather(reply, hours);
    assert list.Texts() == texts && list.Views() == views && list.Colors() == colors && current.View() == view;
    if parsed.Err? {
      return Some(parsed.error);
    }
    error := DisplayWeather(parsed.value.0, parsed.value.1, hours, hour, current, list);
  }

  /** What the list shows after `update` with map `hourly`, from label
      texts `texts` and widget views `views`. */
  ghost predicate Shows(list: WeatherList, texts: seq<Option<string>>, views: seq<WeatherView>,
                        hours: seq<int>, hourly: map<string, Sample>, hour: int)
    requires |list.labels| == Cells && |list.cells| == Cells && |texts| == Cells && |views| == Cells
    reads list.labels, list.cells[0].symbol, list.cells[0].temperature, list.cells[0].wind,
          list.cells[1].symbol, list.cells[1].temperature, list.cells[1].wind,
          list.cells[2].symbol, list.cells[2].temperature, list.cells[2].wind,
          list.cells[3].symbol, list.cells[3].temperature, list.cells[3].wind
  {
    list.Texts() == WriteKeys(texts, hours, LabelsWritten(hours, hourly)) &&
    list.Views() == ShowSamples(views, hours, hourly, hour, Shown(hours, hourly))
  }

  /** The list still shows label texts `texts` and widget views `views`. */
  ghost predicate Keeps(list: WeatherList, texts: seq<Option<string>>, views: seq<WeatherView>)
    requires |list.labels| == Cells && |list.cells| == Cells
    reads list.labels, list.cells[0].symbol, list.cells[0].temperature, list.cells[0].wind,
          list.cells[1].symbol, list.cells[1].temperature, list.cells[1].wind,
          list.cells[2].symbol, list.cells[2].temperature, list.cells[2].wind,
          list.cells[3].symbol, list.cells[3].temperature, list.cells[3].wind
  {
    list.Texts() == texts && list.Views() == views
  }

  /** The hour labels have colours `colors`. */
  ghost predicate ColorsAre(list: WeatherList, colors: seq<int>)
    requires |list.labels| == Cells
    reads list.labels
  {
    list.Colors() == colors
  }

  /** The memory widget shares no object with the weather widgets. */
  lemma RamApart(ram: RamWidget, current: WeatherWidget, list: WeatherList)
    requires |list.labels| == Cells && |list.cells| == Cells
    ensures ram.bar !in list.Repr() && ram.frame.content !in list.Repr() && ram !in list.Repr()
    ensures ram.bar !in {current.symbol as object, current.temperature, current.wind}
    ensures ram.frame.content !in {current.symbol as object, current.temperature, current.wind}
    ensures ram !in {current.symbol as object, current.temperature, current.wind}
  {
  }

  /** The display half of a weather refresh. */
  method DisplayWeather(sample: Sample, hourly: map<string, Sample>, hours: seq<int>, hour: int,
                     current: WeatherWidget, list: WeatherList)
    returns (error: Option<Error>)
    requires current.Valid() && list.Valid()
    requires list.AvoidsWidget(current)
    modifies current.symbol, current.temperature, current.wind, list.Repr()
    ensures current.Valid() && list.Valid()
    ensures current.View() == Updated(old(current.View()), sample, hour)
    ensures error == ListError(hours, hourly)
    ensures Shows(list, old(list.Texts()), old(list.Views()), hours, hourly, hour)
    ensures list.Colors() == old(list.Colors())
  {
    ShowCurrent(sample, hour, current, list);
    error := ShowHourly(hourly, hours, hour, current, list);
  }

  /** `current_weather.update(c)`, which leaves the list as it was. */
  method ShowCurrent(sample: Sample, hour: int, current: WeatherWidget, list: WeatherList)
    requires current.Valid() && list.Valid() && list.AvoidsWidget(current)
    modifies current.symbol, current.temperature, current.wind
    ensures current.Valid() && list.Valid()
    ensures current.View() == Updated(old(current.View()), sample, hour)
    ensures list.Texts() == old(list.Texts()) && list.Views() == old(list.Views())
    ensures list.Colors() == old(list.Colors())
  {
    current.Update(sample, hour);
  }

  /** `hourly_weather.update(h)`, which leaves the current widget as it
      was. */
  method ShowHourly(hourly: map<string, Sample>, hours: seq<int>, hour: int, current: WeatherWidget, list: WeatherList)
    returns (error: Option<Error>)
    requires current.Valid() && list.Valid() && list.AvoidsWidget(current)
    modifies list.Repr()
    ensures current.Valid() && list.Valid()
    ensures current.View() == old(current.View())
    ensures error == ListError(hours, hourly)
    ensures Shows(list, old(list.Texts()), old(list.Views()), hours, hourly, hour)
    ensures list.Colors() == old(list.Colors())
  {
    list.AvoidsRepr(current);
    error := list.Update(hours, hourly, hour);
  }

  /** With at most four hours configured and a reply that has all of them,
      the weather refresh succeeds; from label texts `texts` and widget
      views `views`, label `i` then shows the `i`-th hour's key and widget
      `i` that hour's sample, and the labels and widgets past the hours
      keep what they showed. */
  lemma WeatherRefreshShowsHours(h: Hourly, hours: seq<int>, hour: int,
                                 texts: seq<Option<string>>, views: seq<WeatherView>)
    requires |hours| <= Cells && forall i :: 0 <= i < |hours| ==> SampleAt(h, hours[i]).Ok?
    requires |texts| == Cells && |views| == Cells
    ensures HourlyMap(h, hours).Ok? && WeatherError(h, hours).None?
    ensures LabelsWritten(hours, HourlyMap(h, hours).value) == Shown(hours, HourlyMap(h, hours).value) == |hours|
    ensures forall i :: 0 <= i < Cells ==>
      WriteKeys(texts, hours, LabelsWritten(hours, HourlyMap(h, hours).value))[i] ==
        if i < |hours| then Some(HourKey(hours[i])) else texts[i]
    ensures forall i :: 0 <= i < Cells ==>
      ShowSamples(views, hours, HourlyMap(h, hours).value, hour, Shown(hours, HourlyMap(h, hours).value))[i] ==
        if i < |hours| then Updated(views[i], SampleAt(h, hours[i]).value, hour) else views[i]
  {
    HourlyMapEntries(h, hours);
    ParsedHoursAreShown(h, hours);
    var m := HourlyMap(h, hours).value;
    forall i | 0 <= i < Cells
      ensures WriteKeys(texts, hours, |hours|)[i] == if i < |hours| then Some(HourKey(hours[i])) else texts[i]
      ensures ShowSamples(views, hours, m, hour, |hours|)[i] ==
        if i < |hours| then Updated(views[i], SampleAt(h, hours[i]).value, hour) else views[i]
    {
      WriteKeysAt(texts, hours, |hours|, i);
      ShowSamplesAt(views, hours, m, hour, |hours|, i);
    }
  }

  // -----------------------------------------------------------------------
  // One pass of the loop, performed

  /** The fields of the real-time clock's time structure the program
      reads. */
  datatype RtcTime = RtcTime(hour: nat, minute: nat, wday: int, mon: int, mday: nat)

  /** The blocks of a pass whose work raises: the clock when the date
      cannot be formatted, a departures block whose fetch failed, the
      weather when the refresh raises. The memory refresh never does. */
  function Failures(rtc: RtcTime, trains: Option<TransitReply>, buses: Option<TransitReply>, weatherFails: bool)
    : (r: set<Action>)
    ensures ShowMemory !in r
    ensures ShowClock in r <==> DateText(rtc.wday, rtc.mon, rtc.mday).Err?
    ensures ShowTrains in r <==> trains.None?
    ensures ShowBuses in r <==> buses.None?
    ensures ShowWeather in r <==> weatherFails
  {
    (if DateText(rtc.wday, rtc.mon, rtc.mday).Err? then {ShowClock} else {})
    + (if trains.None? then {ShowTrains} else {})
    + (if buses.None? then {ShowBuses} else {})
    + (if weatherFails then {ShowWeather} else {})
  }

  /** `trace` is what running `actions` in order performs when the actions
      in `failing` raise: a prefix of `actions` in which every action but
      the last succeeds; it stops short, at a failing action, exactly when
      `failed`, and otherwise is all of `actions`, the last one included,
      succeeding. */
  ghost predicate StopsAt(trace: seq<Action>, actions: seq<Action>, failing: set<Action>, failed: bool) {
    trace <= actions &&
    (forall i :: 0 <= i < |trace| - 1 ==> trace[i] !in failing) &&
    (failed ==> trace != [] && trace[|trace| - 1] in failing) &&
    (!failed ==> trace == actions && (trace == [] || trace[|trace| - 1] !in failing))
  }

  /** A run that stops is determined by the actions and the failing set:
      it ends at the first failing action, or runs them all. */
  lemma {:induction false} StopsAtUnique(t1: seq<Action>, f1: bool, t2: seq<Action>, f2: bool,
                                         actions: seq<Action>, failing: set<Action>)
    requires StopsAt(t1, actions, failing, f1) && StopsAt(t2, actions, failing, f2)
    ensures t1 == t2 && f1 == f2
  {
    if |t1| == |t2| {
      assert t1 == actions[..|t1|] == t2;
    }
  }

  /** When none of the actions fails, the run performs all of them. */
  lemma NoFailureRunsAll(trace: seq<Action>, actions: seq<Action>, failing: set<Action>, failed: bool)
    requires StopsAt(trace, actions, failing, failed)
    requires forall i :: 0 <= i < |actions| ==> actions[i] !in failing
    ensures !failed && trace == actions
  {
  }

  /** A run of `a1` that completes, followed by a run of `a2`, is a run
      of `a1 + a2`. */
  lemma {:induction false} StopsAtAppend(t1: seq<Action>, a1: seq<Action>, t2: seq<Action>, a2: seq<Action>,
                                         failing: set<Action>, failed: bool)
    requires StopsAt(t1, a1, failing, false) && StopsAt(t2, a2, failing, failed)
    ensures StopsAt(t1 + t2, a1 + a2, failing, failed)
  {
    var t := t1 + t2;
    forall i | 0 <= i < |t| - 1
      ensures t[i] !in failing
    {
      if i >= |t1| {
        assert t[i] == t2[i - |t1|];
      }
    }
    if !failed && t2 == [] && t1 != [] {
      assert t[|t| - 1] == t1[|t1| - 1];
    }
  }

  /** What running `actions` performs when the actions in `failing`
      raise: every action up to and including the first that raises, or
      all of them. */
  function Performed(actions: seq<Action>, failing: set<Action>): seq<Action> {
    if actions == [] then []
    else if actions[0] in failing then [actions[0]]
    else [actions[0]] + Performed(actions[1..], failing)
  }

  /** Whether one of `actions` raises. */
  predicate Raises(actions: seq<Action>, failing: set<Action>) {
    actions != [] && (actions[0] in failing || Raises(actions[1..], failing))
  }

  /** `Performed` is the run `StopsAt` describes, and it stops early
      exactly when one of the actions raises. */
  lemma {:induction false} PerformedStops(actions: seq<Action>, failing: set<Action>)
    ensures StopsAt(Performed(actions, failing), actions, failing, Raises(actions, failing))
    ensures Raises(actions, failing) <==> exists i :: 0 <= i < |actions| && actions[i] in failing
  {
    if actions != [] && actions[0] !in failing {
      var rest := actions[1..];
      PerformedStops(rest, failing);
      assert StopsAt([actions[0]], [actions[0]], failing, false);
      StopsAtAppend([actions[0]], [actions[0]], Performed(rest, failing), rest, failing, Raises(rest, failing));
      assert [actions[0]] + rest == actions;
      if Raises(rest, failing) {
        var i :| 0 <= i < |rest| && rest[i] in failing;
        assert actions[i + 1] == rest[i];
      }
      if exists i :: 0 <= i < |actions| && actions[i] in failing {
        var i :| 0 <= i < |actions| && actions[i] in failing;
        assert rest[i - 1] == actions[i];
      }
    }
  }

  /** Running `a1 + a2` runs `a1`, and then `a2` unless `a1` raised. */
  lemma {:induction false} PerformedAppend(a1: seq<Action>, a2: seq<Action>, failing: set<Action>)
    ensures Performed(a1 + a2, failing) ==
            if Raises(a1, failing) then Performed(a1, failing) else Performed(a1, failing) + Performed(a2, failing)
    ensures Raises(a1 + a2, failing) <==> Raises(a1, failing) || Raises(a2, failing)
  {
    if a1 == [] {
      assert a1 + a2 == a2;
    } else {
      assert (a1 + a2)[0] == a1[0];
      assert (a1 + a2)[1..] == a1[1..] + a2;
      PerformedAppend(a1[1..], a2, failing);
      if a1[0] !in failing && !Raises(a1[1..], failing) {
        assert [a1[0]] + (Performed(a1[1..], failing) + Performed(a2, failing))
            == [a1[0]] + Performed(a1[1..], failing) + Performed(a2, failing);
      }
    }
  }

  /** Running `[a] + rest` runs `a`, and then `rest` unless `a` raised. */
  lemma PerformedCons(a: Action, rest: seq<Action>, failing: set<Action>)
    ensures Performed([a] + rest, failing) == if a in failing then [a] else [a] + Performed(rest, failing)
    ensures Raises([a] + rest, failing) <==> a in failing || Raises(rest, failing)
  {
    assert ([a] + rest)[0] == a && ([a] + rest)[1..] == rest;
  }

  /** Where the minute block stops: at the clock, the trains or the
      buses, whichever raises first, or after its last action. */
  lemma MinuteStops(failing: set<Action>)
    requires ShowMemory !in failing
    ensures ShowClock in failing ==>
      Performed(MinuteActions, failing) == [ShowClock] && Raises(MinuteActions, failing)
    ensures ShowClock !in failing ==>
      Performed(MinuteActions, failing) ==
        [ShowClock] + (if ShowTrains in failing then Block(ShowTrains, true)
                       else Block(ShowTrains, false) + Block(ShowBuses, ShowBuses in failing)) &&
      (Raises(MinuteActions, failing) <==> ShowTrains in failing || ShowBuses in failing)
  {
    var last: seq<Action> := [ShowMemory];
    PerformedCons(ShowMemory, [], failing);
    assert last == [ShowMemory] + [] && Performed(last, failing) == last && !Raises(last, failing);
    var buses := [ShowBuses] + last;
    PerformedCons(ShowBuses, last, failing);
    var memory := [ShowMemory] + buses;
    PerformedCons(ShowMemory, buses, failing);
    var trains := [ShowTrains] + memory;
    PerformedCons(ShowTrains, memory, failing);
    PerformedCons(ShowClock, trains, failing);
    assert MinuteActions == [ShowClock] + trains;
    if ShowClock !in failing && ShowTrains !in failing {
      assert Performed(trains, failing) == Block(ShowTrains, false) + Block(ShowBuses, ShowBuses in failing);
    }
  }

  /** Where the rest of a pass stops: at the weather when it is due and
      raises, or after the final memory refresh. */
  lemma RestStops(weather: bool, failing: set<Action>)
    requires ShowMemory !in failing
    ensures weather ==>
      Performed(RestActions(weather), failing) == Block(ShowWeather, ShowWeather in failing) +
                                                 (if ShowWeather in failing then [] else [ShowMemory]) &&
      (Raises(RestActions(weather), failing) <==> ShowWeather in failing)
    ensures !weather ==> Performed(RestActions(weather), failing) == [ShowMemory] && !Raises(RestActions(weather), failing)
  {
    var last: seq<Action> := [ShowMemory];
    PerformedCons(ShowMemory, [], failing);
    assert last == [ShowMemory] + [] && Performed(last, failing) == last && !Raises(last, failing);
    if weather {
      var memory := [ShowMemory] + last;
      PerformedCons(ShowMemory, last, failing);
      PerformedCons(ShowWeather, memory, failing);
      assert RestActions(weather) == [ShowWeather] + memory;
    } else {
      assert RestActions(weather) == last;
    }
  }

  /** A pass with the minute block due stops where the minute block does
      when that block raises, and otherwise where the rest of the pass
      stops. */
  lemma MinuteStopsPass(weather: bool, failing: set<Action>)
    ensures Performed(PassActions(true, weather), failing) ==
            if Raises(MinuteActions, failing) then Performed(MinuteActions, failing)
            else Performed(MinuteActions, failing) + Performed(RestActions(weather), failing)
    ensures Raises(PassActions(true, weather), failing) <==>
            Raises(MinuteActions, failing) || Raises(RestActions(weather), failing)
  {
    PerformedAppend(MinuteActions, RestActions(weather), failing);
  }

  /** A pass performs every one of its actions exactly when it does not
      stop early, and that is exactly when none of its actions raises. */
  lemma PassCompletes(trace: seq<Action>, transit: bool, weather: bool,
                      failing: set<Action>, failed: bool)
    requires ShowMemory !in failing
    requires StopsAt(trace, PassActions(transit, weather), failing, failed)
    ensures !failed <==> trace == PassActions(transit, weather)
    ensures !failed <==> forall a :: a in PassActions(transit, weather) ==> a !in failing
  {
  }

  /** The order a pass keeps, whether or not it stops early: it starts
      with the clock when the minute deadline is due; the clock and the
      departures are shown only then, and the weather only when the
      quarter-hour deadline is due; the weather comes only after both
      departures refreshes succeeded; and a pass that does not stop early
      ends with the memory refresh. */
  lemma PassTraceOrder(trace: seq<Action>, transit: bool, weather: bool,
                       failing: set<Action>, failed: bool)
    requires ShowMemory !in failing
    requires StopsAt(trace, PassActions(transit, weather), failing, failed)
    ensures trace != []
    ensures transit ==> trace[0] == ShowClock
    ensures ShowClock in trace || ShowTrains in trace || ShowBuses in trace ==> transit
    ensures ShowWeather in trace ==> weather
    ensures ShowWeather in trace && transit ==>
      ShowClock !in failing && ShowTrains !in failing && ShowBuses !in failing
    ensures !failed ==> trace[|trace| - 1] == ShowMemory
    ensures failed ==> trace[|trace| - 1] != ShowMemory
  {
    if ShowWeather in trace && transit {
      var w :| 0 <= w < |trace| && trace[w] == ShowWeather;
      assert PassActions(transit, weather) == MinuteActions + QuarterActions + [ShowMemory];
      assert trace[w] == PassActions(transit, weather)[w];
      assert w == 5;
      assert trace[0] == ShowClock && trace[1] == ShowTrains && trace[3] == ShowBuses;
    }
  }

  // -----------------------------------------------------------------------
  // What the screen shows, and what each action of a pass does to it

  /** What the memory widget holds and shows: the two figures and the
      total, the text and colour of its label, and the rectangles of its
      bar. */
  datatype MemoryView = MemoryView(free: nat, progress: real, total: int,
                                   text: Option<string>, textColor: int, bar: seq<Rect>)

  /** What the labels and widgets a pass writes show: the texts and colours
      of the time, date, train and bus labels, the memory widget, the
      current-weather widget, and the hour labels and widgets of the
      list. */
  datatype ScreenView = ScreenView(
    time: Option<string>, date: Option<string>, trains: Option<string>, buses: Option<string>,
    labelColors: seq<int>, memory: MemoryView, current: WeatherView,
    hourTexts: seq<Option<string>>, hourColors: seq<int>, hourViews: seq<WeatherView>)

  /** A view of the screen: four hour labels and widgets, and a bar of two
      rectangles. */
  predicate Sized(v: ScreenView) {
    |v.hourTexts| == Cells && |v.hourViews| == Cells && |v.memory.bar| == 2
  }

  /** What a pass works from: the real-time clock's fields, the "departures"
      entries of the two departures replies (`None` for a fetch that
      failed), the current and hourly data of the forecast reply, the
      configured hours, and the two figures `free_mem` returns. */
  datatype Inputs = Inputs(rtc: RtcTime, trains: Option<Option<seq<Departure>>>,
                           buses: Option<Option<seq<Departure>>>, current: Current, hourly: Hourly,
                           hours: seq<int>, free: nat, progress: real)

  /** The "departures" entry of a fetched reply, `None` when the fetch
      failed. */
  function Fetched(reply: Option<TransitReply>): Option<Option<seq<Departure>>>
    reads if reply.Some? then {reply.value} else {}
  {
    if reply.Some? then Some(reply.value.departures) else None
  }

  /** The text a departures label ends with. */
  function DeparturesText(fetched: Option<Option<seq<Departure>>>): string {
    if fetched.Some? then TransitText(fetched.value) else FailureText
  }

  /** The memory widget after `ram_widget.free, ram_widget.progress =
      free_mem()`. */
  function MemoryShown(m: MemoryView, free: nat, progress: real): MemoryView
    requires |m.bar| == 2
  {
    m.(free := free, progress := progress, text := Some(KilobyteText(free)),
       bar := m.bar[1 := Bar(50, Trunc(progress))])
  }

  /** The screen after a weather refresh: as it was when the hourly map
      cannot be built; otherwise the current widget shows the current
      sample and the list has written the map. */
  function WeatherShown(v: ScreenView, input: Inputs): (r: ScreenView)
    requires Sized(v)
    ensures Sized(r)
  {
    match HourlyMap(input.hourly, input.hours)
    case Err(_) => v
    case Ok(m) =>
      v.(current := Updated(v.current, CurrentSample(input.current), input.rtc.hour),
         hourTexts := WriteKeys(v.hourTexts, input.hours, LabelsWritten(input.hours, m)),
         hourViews := ShowSamples(v.hourViews, input.hours, m, input.rtc.hour, Shown(input.hours, m)))
  }

  /** What action `a` does to the screen. A clock refresh whose date
      cannot be formatted writes nothing; a departures refresh whose fetch
      failed leaves the failure text. */
  function Perform(v: ScreenView, a: Action, input: Inputs): (r: ScreenView)
    requires Sized(v)
    ensures Sized(r)
  {
    match a
    case ShowClock =>
      (match DateText(input.rtc.wday, input.rtc.mon, input.rtc.mday)
       case Err(_) => v
       case Ok(date) => v.(time := Some(TimeText(input.rtc.hour, input.rtc.minute)), date := Some(date)))
    case ShowTrains => v.(trains := Some(DeparturesText(input.trains)))
    case ShowBuses => v.(buses := Some(DeparturesText(input.buses)))
    case ShowMemory => v.(memory := MemoryShown(v.memory, input.free, input.progress))
    case ShowWeather => WeatherShown(v, input)
  }

  /** The screen after the actions of `trace`, in order. */
  function After(v: ScreenView, trace: seq<Action>, input: Inputs): (r: ScreenView)
    requires Sized(v)
    ensures Sized(r)
    decreases |trace|
  {
    if trace == [] then v else Perform(After(v, trace[..|trace| - 1], input), trace[|trace| - 1], input)
  }

  /** Performing one more action. */
  lemma AfterSnoc(v: ScreenView, trace: seq<Action>, a: Action, input: Inputs)
    requires Sized(v)
    ensures After(v, trace + [a], input) == Perform(After(v, trace, input), a, input)
  {
    assert (trace + [a])[..|trace|] == trace;
  }

  /** Performing two traces one after the other. */
  lemma {:induction false} AfterAppend(v: ScreenView, t1: seq<Action>, t2: seq<Action>, input: Inputs)
    requires Sized(v)
    ensures After(v, t1 + t2, input) == After(After(v, t1, input), t2, input)
    decreases |t2|
  {
    if t2 == [] {
      assert t1 + t2 == t1;
    } else {
      var init := t2[..|t2| - 1];
      AfterAppend(v, t1, init, input);
      assert (t1 + t2)[..|t1 + t2| - 1] == t1 + init;
    }
  }

  /** What one action does to the labels, the memory widget and the
      colours: only its own refresh writes, and only what the inputs
      determine. */
  lemma PerformLabels(v: ScreenView, a: Action, input: Inputs)
    requires Sized(v)
    ensures Perform(v, a, input).trains == if a == ShowTrains then Some(DeparturesText(input.trains)) else v.trains
    ensures Perform(v, a, input).buses == if a == ShowBuses then Some(DeparturesText(input.buses)) else v.buses
    ensures Perform(v, a, input).time ==
      if a == ShowClock && DateText(input.rtc.wday, input.rtc.mon, input.rtc.mday).Ok?
      then Some(TimeText(input.rtc.hour, input.rtc.minute)) else v.time
    ensures Perform(v, a, input).date ==
      if a == ShowClock && DateText(input.rtc.wday, input.rtc.mon, input.rtc.mday).Ok?
      then Some(DateText(input.rtc.wday, input.rtc.mon, input.rtc.mday).value) else v.date
    ensures Perform(v, a, input).memory ==
      if a == ShowMemory then MemoryShown(v.memory, input.free, input.progress) else v.memory
    ensures Perform(v, a, input).labelColors == v.labelColors
    ensures Perform(v, a, input).hourColors == v.hourColors
  {
  }

  /** The departures labels after a trace: each shows what its refresh
      writes when the trace holds that refresh, and what it showed before
      otherwise. */
  lemma {:induction false} AfterDepartures(v: ScreenView, trace: seq<Action>, input: Inputs)
    requires Sized(v)
    ensures After(v, trace, input).trains == if ShowTrains in trace then Some(DeparturesText(input.trains)) else v.trains
    ensures After(v, trace, input).buses == if ShowBuses in trace then Some(DeparturesText(input.buses)) else v.buses
    decreases |trace|
  {
    if trace != [] {
      var init, a := trace[..|trace| - 1], trace[|trace| - 1];
      AfterDepartures(v, init, input);
      PerformLabels(After(v, init, input), a, input);
      assert trace == init + [a];
    }
  }

  /** The time and date labels after a trace: the clock refresh's texts
      when the trace holds it and the date can be formatted, and what they
      showed before otherwise. */
  lemma {:induction false} AfterClock(v: ScreenView, trace: seq<Action>, input: Inputs)
    requires Sized(v)
    ensures After(v, trace, input).time ==
      if ShowClock in trace && DateText(input.rtc.wday, input.rtc.mon, input.rtc.mday).Ok?
      then Some(TimeText(input.rtc.hour, input.rtc.minute)) else v.time
    ensures After(v, trace, input).date ==
      if ShowClock in trace && DateText(input.rtc.wday, input.rtc.mon, input.rtc.mday).Ok?
      then Some(DateText(input.rtc.wday, input.rtc.mon, input.rtc.mday).value) else v.date
    decreases |trace|
  {
    if trace != [] {
      var init, a := trace[..|trace| - 1], trace[|trace| - 1];
      AfterClock(v, init, input);
      PerformLabels(After(v, init, input), a, input);
      assert trace == init + [a];
    }
  }

  /** The memory widget after a trace: refreshed when the trace holds a
      memory refresh, however many, and as it was otherwise; no action
      changes a label colour. */
  lemma {:induction false} AfterMemory(v: ScreenView, trace: seq<Action>, input: Inputs)
    requires Sized(v)
    ensures After(v, trace, input).memory ==
      if ShowMemory in trace then MemoryShown(v.memory, input.free, input.progress) else v.memory
    ensures After(v, trace, input).labelColors == v.labelColors
    ensures After(v, trace, input).hourColors == v.hourColors
    decreases |trace|
  {
    if trace != [] {
      var init, a := trace[..|trace| - 1], trace[|trace| - 1];
      AfterMemory(v, init, input);
      PerformLabels(After(v, init, input), a, input);
      assert trace == init + [a];
    }
  }

  /** A trace without the weather refresh leaves the weather widgets as
      they were. */
  lemma {:induction false} AfterKeepsWeather(v: ScreenView, trace: seq<Action>, input: Inputs)
    requires Sized(v) && ShowWeather !in trace
    ensures After(v, trace, input).current == v.current
    ensures After(v, trace, input).hourTexts == v.hourTexts && After(v, trace, input).hourViews == v.hourViews
    decreases |trace|
  {
    if trace != [] {
      var init := trace[..|trace| - 1];
      assert trace == init + [trace[|trace| - 1]];
      AfterKeepsWeather(v, init, input);
    }
  }

  /** A trace that refreshes the weather once leaves the weather widgets
      as that refresh alone would. */
  lemma AfterWeatherOnce(v: ScreenView, pre: seq<Action>, post: seq<Action>, input: Inputs)
    requires Sized(v) && ShowWeather !in pre && ShowWeather !in post
    ensures After(v, pre + [ShowWeather] + post, input).current == WeatherShown(v, input).current
    ensures After(v, pre + [ShowWeather] + post, input).hourTexts == WeatherShown(v, input).hourTexts
    ensures After(v, pre + [ShowWeather] + post, input).hourViews == WeatherShown(v, input).hourViews
  {
    var before := After(v, pre, input);
    AfterKeepsWeather(v, pre, input);
    AfterSnoc(v, pre, ShowWeather, input);
    AfterAppend(v, pre + [ShowWeather], post, input);
    AfterKeepsWeather(Perform(before, ShowWeather, input), post, input);
  }

  /** What a pass leaves on the screen, whether or not it stops early:
      each label whose refresh the pass started shows what that refresh
      writes, the weather widgets show what the weather refresh writes when
      the pass started it, and everything else shows what it showed before;
      a pass that does not stop early has refreshed the memory widget. */
  lemma PassView(v: ScreenView, trace: seq<Action>, transit: bool, weather: bool, input: Inputs,
                 failing: set<Action>, failed: bool)
    requires Sized(v)
    requires ShowMemory !in failing
    requires StopsAt(trace, PassActions(transit, weather), failing, failed)
    ensures After(v, trace, input).trains == if ShowTrains in trace then Some(DeparturesText(input.trains)) else v.trains
    ensures After(v, trace, input).buses == if ShowBuses in trace then Some(DeparturesText(input.buses)) else v.buses
    ensures After(v, trace, input).time ==
      if ShowClock in trace && DateText(input.rtc.wday, input.rtc.mon, input.rtc.mday).Ok?
      then Some(TimeText(input.rtc.hour, input.rtc.minute)) else v.time
    ensures After(v, trace, input).date ==
      if ShowClock in trace && DateText(input.rtc.wday, input.rtc.mon, input.rtc.mday).Ok?
      then Some(DateText(input.rtc.wday, input.rtc.mon, input.rtc.mday).value) else v.date
    ensures !failed ==> After(v, trace, input).memory == MemoryShown(v.memory, input.free, input.progress)
    ensures After(v, trace, input).labelColors == v.labelColors
    ensures After(v, trace, input).hourColors == v.hourColors
    ensures ShowWeather in trace ==>
      After(v, trace, input).current == WeatherShown(v, input).current &&
      After(v, trace, input).hourTexts == WeatherShown(v, input).hourTexts &&
      After(v, trace, input).hourViews == WeatherShown(v, input).hourViews
    ensures ShowWeather !in trace ==>
      After(v, trace, input).current == v.current &&
      After(v, trace, input).hourTexts == v.hourTexts && After(v, trace, input).hourViews == v.hourViews
  {
    AfterDepartures(v, trace, input);
    AfterClock(v, trace, input);
    AfterMemory(v, trace, input);
    PassWeather(v, trace, transit, weather, input, failing, failed);
  }

  /** A pass refreshes the weather at most once, so the weather widgets
      show what that refresh writes, or what they showed before. */
  lemma PassWeather(v: ScreenView, trace: seq<Action>, transit: bool, weather: bool, input: Inputs,
                    failing: set<Action>, failed: bool)
    requires Sized(v)
    requires StopsAt(trace, PassActions(transit, weather), failing, failed)
    ensures ShowWeather in trace ==>
      After(v, trace, input).current == WeatherShown(v, input).current &&
      After(v, trace, input).hourTexts == WeatherShown(v, input).hourTexts &&
      After(v, trace, input).hourViews == WeatherShown(v, input).hourViews
    ensures ShowWeather !in trace ==>
      After(v, trace, input).current == v.current &&
      After(v, trace, input).hourTexts == v.hourTexts && After(v, trace, input).hourViews == v.hourViews
  {
    if ShowWeather in trace {
      var actions := PassActions(transit, weather);
      var w :| 0 <= w < |trace| && trace[w] == ShowWeather;
      assert trace[w] == actions[w];
      assert forall i :: 0 <= i < |actions| && i != w ==> actions[i] != ShowWeather;
      assert ShowWeather !in trace[..w] && ShowWeather !in trace[w + 1..];
      assert trace == trace[..w] + [ShowWeather] + trace[w + 1..];
      AfterWeatherOnce(v, trace[..w], trace[w + 1..], input);
    } else {
      AfterKeepsWeather(v, trace, input);
    }
  }

  /** The program creates each label and widget of the screen on its own:
      the time, date, train and bus labels and the memory widget's label
      are five distinct labels, and none of them is a label of the weather
      widgets. */
  predicate SeparateLabels(timeNow: Text, dateToday: Text, trainDepartures: Text, busDepartures: Text,
                           ram: RamWidget, current: WeatherWidget, list: WeatherList)
  {
    |list.labels| == Cells && |list.cells| == Cells &&
    timeNow != dateToday && timeNow != trainDepartures && timeNow != busDepartures && timeNow != ram.freeText &&
    dateToday != trainDepartures && dateToday != busDepartures && dateToday != ram.freeText &&
    trainDepartures != busDepartures && trainDepartures != ram.freeText && busDepartures != ram.freeText &&
    OffWeather(timeNow, current, list) && OffWeather(dateToday, current, list) &&
    OffWeather(trainDepartures, current, list) && OffWeather(busDepartures, current, list) &&
    OffWeather(ram.freeText, current, list)
  }

  /** Label `t` is no label of the weather widgets. */
  predicate OffWeather(t: Text, current: WeatherWidget, list: WeatherList)
    requires |list.labels| == Cells && |list.cells| == Cells
  {
    list.Avoids(t) && t != current.symbol && t != current.temperature && t != current.wind
  }

  /** What one pass reads: the clock, the two fetched departures
      replies, the weather reply, the hours of the forecast and the
      memory figures. */
  function PassInputs(rtc: RtcTime, trains: Option<TransitReply>, buses: Option<TransitReply>,
                      weatherReply: WeatherReply, hours: seq<int>, free: nat, progress: real): Inputs
    reads (if trains.Some? then {trains.value} else {}), (if buses.Some? then {buses.value} else {}), weatherReply
  {
    Inputs(rtc, Fetched(trains), Fetched(buses), weatherReply.current, weatherReply.hourly, hours, free, progress)
  }

  /** The labels and widgets the main loop writes. */
  class Screen {
    const timeNow: Text
    const dateToday: Text
    const trainDepartures: Text
    const busDepartures: Text
    const ram: RamWidget
    const currentWeather: WeatherWidget
    const hourlyWeather: WeatherList

    ghost predicate Valid()
      reads ram, ram.bar, ram.frame.content, currentWeather.frame.content, hourlyWeather.frame.content
      reads if |hourlyWeather.cells| == Cells
            then {hourlyWeather.cells[0].frame.content, hourlyWeather.cells[1].frame.content,
                  hourlyWeather.cells[2].frame.content, hourlyWeather.cells[3].frame.content}
            else {}
    {
      SeparateLabels(timeNow, dateToday, trainDepartures, busDepartures, ram, currentWeather, hourlyWeather) &&
      ram.Valid() && currentWeather.Valid() && hourlyWeather.Valid() && hourlyWeather.AvoidsWidget(currentWeather)
    }

    constructor (timeNow: Text, dateToday: Text, trainDepartures: Text, busDepartures: Text,
                 ram: RamWidget, currentWeather: WeatherWidget, hourlyWeather: WeatherList)
      requires SeparateLabels(timeNow, dateToday, trainDepartures, busDepartures, ram, currentWeather, hourlyWeather)
      requires ram.Valid() && currentWeather.Valid() && hourlyWeather.Valid()
      requires hourlyWeather.AvoidsWidget(currentWeather)
      ensures Valid()
      ensures this.timeNow == timeNow && this.dateToday == dateToday
      ensures this.trainDepartures == trainDepartures && this.busDepartures == busDepartures
      ensures this.ram == ram && this.currentWeather == currentWeather && this.hourlyWeather == hourlyWeather
    {
      this.timeNow, this.dateToday := timeNow, dateToday;
      this.trainDepartures, this.busDepartures := trainDepartures, busDepartures;
      this.ram, this.currentWeather, this.hourlyWeather := ram, currentWeather, hourlyWeather;
    }

    /** The invariant, from its parts. */
    lemma Assemble()
      requires Labelled() && ram.Valid() && currentWeather.Valid() && hourlyWeather.Valid()
      requires hourlyWeather.AvoidsWidget(currentWeather)
      ensures Valid()
    {
    }

    /** What the memory widget holds and shows. */
    function Memory(): MemoryView
      reads ram, ram.freeText, ram.bar
    {
      MemoryView(ram.free, ram.progress, ram.total, ram.freeText.text, ram.freeText.color, ram.bar.children)
    }

    /** What the screen shows. */
    function View(): (v: ScreenView)
      requires |hourlyWeather.labels| == Cells && |hourlyWeather.cells| == Cells
      reads timeNow, dateToday, trainDepartures, busDepartures, ram, ram.freeText, ram.bar
      reads currentWeather.symbol, currentWeather.temperature, currentWeather.wind, hourlyWeather.Repr()
      ensures ram.bar.Valid() ==> Sized(v)
    {
      ScreenView(timeNow.text, dateToday.text, trainDepartures.text, busDepartures.text,
                 [timeNow.color, dateToday.color, trainDepartures.color, busDepartures.color],
                 Memory(),
                 currentWeather.View(), hourlyWeather.Texts(), hourlyWeather.Colors(), hourlyWeather.Views())
    }

    /** The labels of the screen are laid out as the program creates them. */
    predicate Labelled() {
      SeparateLabels(timeNow, dateToday, trainDepartures, busDepartures, ram, currentWeather, hourlyWeather)
    }

    /** The labels the weather refresh writes are none of the screen's
        other labels. */
    lemma WeatherApart()
      requires Labelled()
      ensures timeNow !in hourlyWeather.Repr() && dateToday !in hourlyWeather.Repr()
      ensures trainDepartures !in hourlyWeather.Repr() && busDepartures !in hourlyWeather.Repr()
      ensures ram.freeText !in hourlyWeather.Repr()
      ensures {timeNow as object, dateToday, trainDepartures, busDepartures, ram.freeText}
              !! {currentWeather.symbol as object, currentWeather.temperature, currentWeather.wind}
    {
    }

    /** The objects the minute block writes. */
    ghost function MinuteWritten(trains: Option<TransitReply>, buses: Option<TransitReply>): set<object> {
      {timeNow as object, dateToday, trainDepartures, busDepartures, ram, ram.freeText, ram.bar} +
      (if trains.Some? then {trains.value} else {}) + (if buses.Some? then {buses.value} else {})
    }

    /** The objects the blocks of a pass may write. */
    ghost function Written(trains: Option<TransitReply>, buses: Option<TransitReply>,
                           weatherReply: WeatherReply): set<object>
      requires |hourlyWeather.labels| == Cells && |hourlyWeather.cells| == Cells
    {
      MinuteWritten(trains, buses) +
      {weatherReply as object, currentWeather.symbol, currentWeather.temperature, currentWeather.wind} +
      hourlyWeather.Repr()
    }

    /** The deadlines are in no object a block writes. */
    lemma ScreenFrames(sched: Scheduler, trains: Option<TransitReply>, buses: Option<TransitReply>,
                       weatherReply: WeatherReply)
      requires |hourlyWeather.labels| == Cells && |hourlyWeather.cells| == Cells
      ensures sched !in Written(trains, buses, weatherReply)
      ensures sched !in hourlyWeather.Repr()
      ensures sched !in {timeNow as object, dateToday, trainDepartures, busDepartures, ram, ram.freeText, ram.bar}
      ensures sched !in {currentWeather.symbol as object, currentWeather.temperature, currentWeather.wind}
    {
    }

    /** The weather reply and the containers of the weather widgets are
        no objects the minute block writes. */
    lemma Covered(trains: Option<TransitReply>, buses: Option<TransitReply>, weatherReply: WeatherReply)
      requires |hourlyWeather.labels| == Cells && |hourlyWeather.cells| == Cells
      ensures weatherReply !in MinuteWritten(trains, buses)
      ensures currentWeather.frame.content !in MinuteWritten(trains, buses)
      ensures hourlyWeather.frame.content !in MinuteWritten(trains, buses)
      ensures forall i :: 0 <= i < Cells ==> hourlyWeather.cells[i].frame.content !in MinuteWritten(trains, buses)
    {
    }

    /** `time_now.text, date_today.text = time_date_formatted()`: both
        strings are formatted before either label is written, so a date
        that cannot be formatted leaves both labels as they were. */
    method ShowTime(rtc: RtcTime, ghost input: Inputs) returns (failed: bool)
      requires Labelled() && ram.Valid() && input.rtc == rtc
      modifies timeNow, dateToday
      ensures failed <==> DateText(rtc.wday, rtc.mon, rtc.mday).Err?
      ensures ram.Valid()
      ensures View() == Perform(old(View()), ShowClock, input)
    {
      var date := DateText(rtc.wday, rtc.mon, rtc.mday);
      if date.Err? {
        return true;
      }
      WeatherApart();
      timeNow.text := Some(TimeText(rtc.hour, rtc.minute));
      dateToday.text := Some(date.value);
      WeatherViewStays();
      return false;
    }

    /** The weather part of the view stays as it was while no weather
        label is written. */
    twostate lemma WeatherViewStays()
      requires |hourlyWeather.labels| == Cells && |hourlyWeather.cells| == Cells
      requires unchanged(hourlyWeather.Repr())
      requires unchanged(currentWeather.symbol, currentWeather.temperature, currentWeather.wind)
      ensures currentWeather.View() == old(currentWeather.View())
      ensures hourlyWeather.Texts() == old(hourlyWeather.Texts())
      ensures hourlyWeather.Colors() == old(hourlyWeather.Colors())
      ensures hourlyWeather.Views() == old(hourlyWeather.Views())
    {
    }


    /** The train departures refresh. */
    method ShowTrainDepartures(trains: Option<TransitReply>, ghost input: Inputs) returns (failed: bool)
      requires Labelled() && ram.Valid() && input.trains == Fetched(trains)
      modifies trainDepartures, if trains.Some? then {trains.value} else {}
      ensures failed <==> trains.None?
      ensures ram.Valid()
      ensures View() == Perform(old(View()), ShowTrains, input)
    {
      WeatherApart();
      failed := RefreshDepartures(trainDepartures, TrainLoading, trains);
      WeatherViewStays();
    }

    /** The bus departures refresh. */
    method ShowBusDepartures(buses: Option<TransitReply>, ghost input: Inputs) returns (failed: bool)
      requires Labelled() && ram.Valid() && input.buses == Fetched(buses)
      modifies busDepartures, if buses.Some? then {buses.value} else {}
      ensures failed <==> buses.None?
      ensures ram.Valid()
      ensures View() == Perform(old(View()), ShowBuses, input)
    {
      WeatherApart();
      failed := RefreshDepartures(busDepartures, BusLoading, buses);
      WeatherViewStays();
    }

    /** `ram_widget.free, ram_widget.progress = free_mem()`. */
    method ShowFreeMemory(free: nat, progress: real, ghost input: Inputs)
      requires Labelled() && ram.Valid() && input.free == free && input.progress == progress
      modifies ram, ram.freeText, ram.bar
      ensures ram.Valid()
      ensures View() == Perform(old(View()), ShowMemory, input)
    {
      WeatherApart();
      RamApart(ram, currentWeather, hourlyWeather);
      ram.Refresh(free, progress);
      WeatherViewStays();
    }

    /** The weather refresh. */
    method ShowForecast(weatherReply: WeatherReply, hours: seq<int>, rtc: RtcTime, ghost input: Inputs)
      returns (error: Option<Error>)
      requires Labelled() && ram.Valid()
      requires currentWeather.Valid() && hourlyWeather.Valid() && hourlyWeather.AvoidsWidget(currentWeather)
      requires input.current == weatherReply.current && input.hourly == weatherReply.hourly
      requires input.hours == hours && input.rtc == rtc
      modifies weatherReply, currentWeather.symbol, currentWeather.temperature, currentWeather.wind
      modifies hourlyWeather.Repr()
      ensures ram.Valid() && currentWeather.Valid() && hourlyWeather.Valid()
      ensures error == WeatherError(old(weatherReply.hourly), hours)
      ensures View() == Perform(old(View()), ShowWeather, input)
    {
      ghost var v := View();
      RamApart(ram, currentWeather, hourlyWeather);
      WeatherApart();
      error := RefreshWeather(weatherReply, hours, rtc.hour, currentWeather, hourlyWeather);
      match HourlyMap(input.hourly, hours)
      case Err(_) =>
        assert WeatherShown(v, input) == v;
      case Ok(m) =>
        assert currentWeather.View() == WeatherShown(v, input).current;
        assert hourlyWeather.Texts() == WeatherShown(v, input).hourTexts;
        assert hourlyWeather.Views() == WeatherShown(v, input).hourViews;
    }

    /** The train departures and the memory read after them; the memory
        is not read when the departures raise. */
    method TrainsBlock(trains: Option<TransitReply>, free: nat, progress: real, ghost input: Inputs)
      returns (trace: seq<Action>, failed: bool)
      requires Labelled() && ram.Valid()
      requires input.trains == Fetched(trains) && input.free == free && input.progress == progress
      modifies trainDepartures, ram, ram.freeText, ram.bar, if trains.Some? then {trains.value} else {}
      ensures ram.Valid()
      ensures failed <==> trains.None?
      ensures trace == Block(ShowTrains, failed)
      ensures View() == After(old(View()), trace, input)
    {
      ghost var start := View();
      failed := ShowTrainDepartures(trains, input);
      AfterSnoc(start, [], ShowTrains, input);
      trace := [ShowTrains];
      if failed {
        return;
      }
      ShowFreeMemory(free, progress, input);
      AfterSnoc(start, trace, ShowMemory, input);
      trace := trace + [ShowMemory];
    }

    /** The bus departures and the memory read after them; the memory is
        not read when the departures raise. */
    method BusesBlock(buses: Option<TransitReply>, free: nat, progress: real, ghost input: Inputs)
      returns (trace: seq<Action>, failed: bool)
      requires Labelled() && ram.Valid()
      requires input.buses == Fetched(buses) && input.free == free && input.progress == progress
      modifies busDepartures, ram, ram.freeText, ram.bar, if buses.Some? then {buses.value} else {}
      ensures ram.Valid()
      ensures failed <==> buses.None?
      ensures trace == Block(ShowBuses, failed)
      ensures View() == After(old(View()), trace, input)
    {
      ghost var start := View();
      failed := ShowBusDepartures(buses, input);
      AfterSnoc(start, [], ShowBuses, input);
      trace := [ShowBuses];
      if failed {
        return;
      }
      ShowFreeMemory(free, progress, input);
      AfterSnoc(start, trace, ShowMemory, input);
      trace := trace + [ShowMemory];
    }

    /** The weather widgets stay valid while their containers are not
        written. */
    twostate lemma WeatherStaysValid()
      requires old(currentWeather.Valid()) && old(hourlyWeather.Valid())
      requires |hourlyWeather.labels| == Cells && |hourlyWeather.cells| == Cells
      requires unchanged(currentWeather.frame.content, hourlyWeather.frame.content)
      requires unchanged(hourlyWeather.cells[0].frame.content, hourlyWeather.cells[1].frame.content,
                         hourlyWeather.cells[2].frame.content, hourlyWeather.cells[3].frame.content)
      ensures currentWeather.Valid() && hourlyWeather.Valid()
    {
    }

    /** The two departures refreshes of the minute block, each followed by
        the memory, stopping at the first that raises. */
    method DeparturesBlocks(trains: Option<TransitReply>, buses: Option<TransitReply>,
                            free: nat, progress: real, ghost input: Inputs)
      returns (trace: seq<Action>, failed: bool)
      requires Labelled() && ram.Valid()
      requires input.trains == Fetched(trains) && input.buses == Fetched(buses)
      requires input.free == free && input.progress == progress
      requires trains.Some? && buses.Some? ==> trains.value != buses.value
      modifies trainDepartures, busDepartures, ram, ram.freeText, ram.bar
      modifies (if trains.Some? then {trains.value} else {}), (if buses.Some? then {buses.value} else {})
      ensures ram.Valid()
      ensures failed <==> trains.None? || buses.None?
      ensures trace == if trains.None? then Block(ShowTrains, true)
                       else Block(ShowTrains, false) + Block(ShowBuses, buses.None?)
      ensures View() == After(old(View()), trace, input)
    {
      ghost var start := View();
      trace, failed := TrainsBlock(trains, free, progress, input);
      if failed {
        return;
      }
      var part;
      part, failed := BusesBlock(buses, free, progress, input);
      AfterAppend(start, trace, part, input);
      trace := trace + part;
    }

    /** The containers of the weather widgets are no part of the memory
        widget. */
    lemma ContainersApart()
      requires |hourlyWeather.labels| == Cells && |hourlyWeather.cells| == Cells
      ensures currentWeather.frame.content !in {ram as object, ram.freeText, ram.bar}
      ensures hourlyWeather.frame.content !in {ram as object, ram.freeText, ram.bar}
      ensures forall i :: 0 <= i < Cells ==> hourlyWeather.cells[i].frame.content !in {ram as object, ram.freeText, ram.bar}
    {
    }

    /** The minute block: the clock, the train departures, the memory, the
        bus departures and the memory again, each recorded in `trace` as
        it starts, stopping at the first that raises. */
    method MinuteBlock(rtc: RtcTime, trains: Option<TransitReply>, buses: Option<TransitReply>,
                       free: nat, progress: real, ghost weatherFails: bool, ghost input: Inputs)
      returns (trace: seq<Action>, failed: bool)
      requires Labelled() && ram.Valid()
      requires input.rtc == rtc && input.trains == Fetched(trains) && input.buses == Fetched(buses)
      requires input.free == free && input.progress == progress
      requires trains.Some? && buses.Some? ==> trains.value != buses.value
      modifies MinuteWritten(trains, buses)
      ensures ram.Valid()
      ensures trace == Performed(MinuteActions, Failures(rtc, trains, buses, weatherFails))
      ensures failed == Raises(MinuteActions, Failures(rtc, trains, buses, weatherFails))
      ensures View() == After(old(View()), trace, input)
    {
      ghost var start := View();
      failed := ShowTime(rtc, input);
      AfterSnoc(start, [], ShowClock, input);
      trace := [ShowClock];
      if !failed {
        var part;
        part, failed := DeparturesBlocks(trains, buses, free, progress, input);
        AfterAppend(start, trace, part, input);
        trace := trace + part;
      }
      MinuteStops(Failures(rtc, trains, buses, weatherFails));
    }

    /** The quarter-hour block: the weather refresh, then the memory unless
        the refresh raised. */
    method QuarterBlock(weatherReply: WeatherReply, hours: seq<int>, rtc: RtcTime, free: nat, progress: real,
                        ghost input: Inputs)
      returns (trace: seq<Action>, failed: bool, error: Option<Error>)
      requires Labelled() && ram.Valid()
      requires currentWeather.Valid() && hourlyWeather.Valid() && hourlyWeather.AvoidsWidget(currentWeather)
      requires input.current == weatherReply.current && input.hourly == weatherReply.hourly
      requires input.hours == hours && input.rtc == rtc && input.free == free && input.progress == progress
      modifies ram, ram.freeText, ram.bar, weatherReply
      modifies currentWeather.symbol, currentWeather.temperature, currentWeather.wind, hourlyWeather.Repr()
      ensures ram.Valid() && currentWeather.Valid() && hourlyWeather.Valid()
      ensures error == WeatherError(old(weatherReply.hourly), hours)
      ensures failed <==> error.Some?
      ensures trace == Block(ShowWeather, failed)
      ensures View() == After(old(View()), trace, input)
    {
      ghost var start := View();
      error := ShowForecast(weatherReply, hours, rtc, input);
      AfterSnoc(start, [], ShowWeather, input);
      trace, failed := [ShowWeather], error.Some?;
      if failed {
        return;
      }
      RamApart(ram, currentWeather, hourlyWeather);
      ContainersApart();
      label beforeMemory:
      ShowFreeMemory(free, progress, input);
      WeatherStaysValid@beforeMemory();
      AfterSnoc(start, trace, ShowMemory, input);
      trace := trace + [ShowMemory];
    }

    /** One pass of the main loop at clock reading `now`: the deadline
        checks, then the blocks that are due, in the program's order, and
        the memory refresh. A block that raises ends the pass (and, in the
        program, the loop). `free_mem` is taken to return `free` and
        `progress` every time. */
    method Pass(sched: Scheduler, now: real, rtc: RtcTime,
                trains: Option<TransitReply>, buses: Option<TransitReply>,
                weatherReply: WeatherReply, hours: seq<int>, free: nat, progress: real)
      returns (transit: bool, weather: bool, trace: seq<Action>, failed: bool)
      requires Valid()
      requires trains.Some? && buses.Some? ==> trains.value != buses.value
      modifies sched, Written(trains, buses, weatherReply)
      ensures Valid()
      ensures transit <==> now >= old(sched.next60)
      ensures weather <==> now >= old(sched.next900)
      ensures sched.next60 == if transit then now + ClockInterval else old(sched.next60)
      ensures sched.next900 == if weather then now + WeatherInterval else old(sched.next900)
      ensures trace == Performed(PassActions(transit, weather),
                                 Failures(rtc, trains, buses, WeatherError(old(weatherReply.hourly), hours).Some?))
      ensures failed == Raises(PassActions(transit, weather),
                               Failures(rtc, trains, buses, WeatherError(old(weatherReply.hourly), hours).Some?))
      ensures View() == After(old(View()), trace, old(PassInputs(rtc, trains, buses, weatherReply, hours, free, progress)))
      ensures timeNow.text ==
        if ShowClock in trace && DateText(rtc.wday, rtc.mon, rtc.mday).Ok?
        then Some(TimeText(rtc.hour, rtc.minute)) else old(timeNow.text)
      ensures dateToday.text ==
        if ShowClock in trace && DateText(rtc.wday, rtc.mon, rtc.mday).Ok?
        then Some(DateText(rtc.wday, rtc.mon, rtc.mday).value) else old(dateToday.text)
      ensures trainDepartures.text ==
        if ShowTrains in trace then Some(DeparturesText(old(Fetched(trains)))) else old(trainDepartures.text)
      ensures busDepartures.text ==
        if ShowBuses in trace then Some(DeparturesText(old(Fetched(buses)))) else old(busDepartures.text)
      ensures !failed ==> ram.free == free && ram.progress == progress && ram.freeText.text == Some(KilobyteText(free))
      ensures ShowWeather !in trace ==>
        currentWeather.View() == old(currentWeather.View()) &&
        hourlyWeather.Texts() == old(hourlyWeather.Texts()) && hourlyWeather.Views() == old(hourlyWeather.Views())
      ensures ShowWeather in trace ==>
        currentWeather.View() == WeatherShown(old(View()), old(PassInputs(rtc, trains, buses, weatherReply, hours, free, progress))).current &&
        hourlyWeather.Texts() == WeatherShown(old(View()), old(PassInputs(rtc, trains, buses, weatherReply, hours, free, progress))).hourTexts &&
        hourlyWeather.Views() == WeatherShown(old(View()), old(PassInputs(rtc, trains, buses, weatherReply, hours, free, progress))).hourViews
      ensures hourlyWeather.Colors() == old(hourlyWeather.Colors())
    {
      ScreenFrames(sched, trains, buses, weatherReply);
      ghost var weatherFails := WeatherError(weatherReply.hourly, hours).Some?;
      ghost var input := PassInputs(rtc, trains, buses, weatherReply, hours, free, progress);
      transit, weather := sched.Step(now);
      assert View() == old(View());
      trace, failed := Blocks(transit, weather, rtc, trains, buses, weatherReply, hours, free, progress,
                              weatherFails, input);
      Assemble();
      PassShows(old(View()), trace, transit, weather, input, Failures(rtc, trains, buses, weatherFails), failed);
    }

    /** The labels and widgets after a pass, one by one: each label whose
        refresh the pass started shows what that refresh writes, a pass
        that does not stop early has refreshed the memory widget, and a
        pass that does not start the weather refresh leaves the weather
        widgets as they were. */
    lemma PassShows(v: ScreenView, trace: seq<Action>, transit: bool, weather: bool, input: Inputs,
                    failing: set<Action>, failed: bool)
      requires Sized(v) && Labelled() && ram.bar.Valid() && ShowMemory !in failing
      requires trace == Performed(PassActions(transit, weather), failing)
      requires failed == Raises(PassActions(transit, weather), failing)
      requires View() == After(v, trace, input)
      ensures timeNow.text ==
        if ShowClock in trace && DateText(input.rtc.wday, input.rtc.mon, input.rtc.mday).Ok?
        then Some(TimeText(input.rtc.hour, input.rtc.minute)) else v.time
      ensures dateToday.text ==
        if ShowClock in trace && DateText(input.rtc.wday, input.rtc.mon, input.rtc.mday).Ok?
        then Some(DateText(input.rtc.wday, input.rtc.mon, input.rtc.mday).value) else v.date
      ensures trainDepartures.text == if ShowTrains in trace then Some(DeparturesText(input.trains)) else v.trains
      ensures busDepartures.text == if ShowBuses in trace then Some(DeparturesText(input.buses)) else v.buses
      ensures !failed ==> ram.free == input.free && ram.progress == input.progress &&
                          ram.freeText.text == Some(KilobyteText(input.free))
      ensures ShowWeather !in trace ==>
        currentWeather.View() == v.current && hourlyWeather.Texts() == v.hourTexts && hourlyWeather.Views() == v.hourViews
      ensures ShowWeather in trace ==>
        currentWeather.View() == WeatherShown(v, input).current &&
        hourlyWeather.Texts() == WeatherShown(v, input).hourTexts && hourlyWeather.Views() == WeatherShown(v, input).hourViews
      ensures hourlyWeather.Colors() == v.hourColors
    {
      PerformedStops(PassActions(transit, weather), failing);
      PassView(v, trace, transit, weather, input, failing, failed);
    }

    /** The blocks of a pass once the deadline checks have chosen them. */
    method Blocks(transit: bool, weather: bool, rtc: RtcTime,
                  trains: Option<TransitReply>, buses: Option<TransitReply>,
                  weatherReply: WeatherReply, hours: seq<int>, free: nat, progress: real,
                  ghost weatherFails: bool, ghost input: Inputs)
      returns (trace: seq<Action>, failed: bool)
      requires weatherFails == WeatherError(weatherReply.hourly, hours).Some?
      requires input == PassInputs(rtc, trains, buses, weatherReply, hours, free, progress)
      requires trains.Some? && buses.Some? ==> trains.value != buses.value
      requires Labelled() && ram.Valid()
      requires currentWeather.Valid() && hourlyWeather.Valid() && hourlyWeather.AvoidsWidget(currentWeather)
      modifies Written(trains, buses, weatherReply)
      ensures ram.Valid() && currentWeather.Valid() && hourlyWeather.Valid()
      ensures trace == Performed(PassActions(transit, weather), Failures(rtc, trains, buses, weatherFails))
      ensures failed == Raises(PassActions(transit, weather), Failures(rtc, trains, buses, weatherFails))
      ensures View() == After(old(View()), trace, input)
    {
      if transit {
        trace, failed := MinuteAndRest(weather, rtc, trains, buses, weatherReply, hours, free, progress,
                                       weatherFails, input);
      } else {
        trace, failed := Rest(weather, rtc, trains, buses, weatherReply, hours, free, progress, weatherFails, input);
      }
    }

    /** A pass whose minute block is due: that block, and the rest of the
        pass unless it raises. */
    method MinuteAndRest(weather: bool, rtc: RtcTime,
                         trains: Option<TransitReply>, buses: Option<TransitReply>,
                         weatherReply: WeatherReply, hours: seq<int>, free: nat, progress: real,
                         ghost weatherFails: bool, ghost input: Inputs)
      returns (trace: seq<Action>, failed: bool)
      requires weatherFails == WeatherError(weatherReply.hourly, hours).Some?
      requires input == PassInputs(rtc, trains, buses, weatherReply, hours, free, progress)
      requires trains.Some? && buses.Some? ==> trains.value != buses.value
      requires Labelled() && ram.Valid()
      requires currentWeather.Valid() && hourlyWeather.Valid() && hourlyWeather.AvoidsWidget(currentWeather)
      modifies Written(trains, buses, weatherReply)
      ensures ram.Valid() && currentWeather.Valid() && hourlyWeather.Valid()
      ensures trace == Performed(PassActions(true, weather), Failures(rtc, trains, buses, weatherFails))
      ensures failed == Raises(PassActions(true, weather), Failures(rtc, trains, buses, weatherFails))
      ensures View() == After(old(View()), trace, input)
    {
      ghost var start := View();
      MinuteStopsPass(weather, Failures(rtc, trains, buses, weatherFails));
      Covered(trains, buses, weatherReply);
      label beforeMinute:
      var minute;
      minute, failed := MinuteBlock(rtc, trains, buses, free, progress, weatherFails, input);
      WeatherStaysValid@beforeMinute();
      if failed {
        return minute, true;
      }
      assert weatherReply.current == input.current && weatherReply.hourly == input.hourly;
      var tail;
      tail, failed := Rest(weather, rtc, trains, buses, weatherReply, hours, free, progress, weatherFails, input);
      AfterAppend(start, minute, tail, input);
      trace := minute + tail;
    }

    /** The quarter-hour block when it is due, then the memory refresh
        that ends every pass. */
    method Rest(weather: bool, rtc: RtcTime, ghost trains: Option<TransitReply>, ghost buses: Option<TransitReply>,
                weatherReply: WeatherReply, hours: seq<int>, free: nat, progress: real,
                ghost weatherFails: bool, ghost input: Inputs)
      returns (trace: seq<Action>, failed: bool)
      requires weatherFails == WeatherError(weatherReply.hourly, hours).Some?
      requires input.current == weatherReply.current && input.hourly == weatherReply.hourly
      requires input.hours == hours && input.rtc == rtc && input.free == free && input.progress == progress
      requires Labelled() && ram.Valid()
      requires currentWeather.Valid() && hourlyWeather.Valid() && hourlyWeather.AvoidsWidget(currentWeather)
      modifies ram, ram.freeText, ram.bar, weatherReply
      modifies currentWeather.symbol, currentWeather.temperature, currentWeather.wind, hourlyWeather.Repr()
      ensures ram.Valid() && currentWeather.Valid() && hourlyWeather.Valid()
      ensures trace == Performed(RestActions(weather), Failures(rtc, trains, buses, weatherFails))
      ensures failed == Raises(RestActions(weather), Failures(rtc, trains, buses, weatherFails))
      ensures View() == After(old(View()), trace, input)
    {
      ghost var start := View();
      trace, failed := [], false;
      if weather {
        var error;
        trace, failed, error := QuarterBlock(weatherReply, hours, rtc, free, progress, input);
      }
      if !failed {
        RamApart(ram, currentWeather, hourlyWeather);
        ContainersApart();
        label beforeMemory:
        ShowFreeMemory(free, progress, input);
        WeatherStaysValid@beforeMemory();
        AfterSnoc(start, trace, ShowMemory, input);
        trace := trace + [ShowMemory];
      }
      RestStops(weather, Failures(rtc, trains, buses, weatherFails));
    }
  }
}
