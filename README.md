# Kiosk dashboard: a verified model

The dashboard runs on a small board with a DVI display. It shows:

- the time and the date, with Swedish weekday names;
- the next train and bus departures, from a transit service;
- the current weather and the weather at four configured hours, from a forecast service;
- the free memory, as a number of kilobytes and a progress bar.

A main loop refreshes the clock and the departures every minute and the weather every quarter of an hour. It refreshes the memory widget on every pass.

This project models the logic of that program in Dafny:

- `Builtins`: the part of Python's behaviour the program relies on. This covers list indexing with negative indices, `list.index`, `round` with ties to even, `int()` truncation, `str()` of integers, `"{:02}"` and `str.join`.
- `Ui`: the widget library. This covers the eight-colour palette, text labels with `color_code` and `value` properties, the two-rectangle progress bar, and the container widget's child layout.
- `Forecast`: the weather-code icon table, the compass label of a wind direction, and the parser that turns a forecast reply into the current sample and an "H:00"-keyed map of hourly samples.
- `Transit`: the departures parser. It keeps displays of vehicles at the stop or expected, drops repeats, keeps the first three in first-seen order, and joins them with ", " or shows "Inga avgångar".
- `Clock`: the "HH:MM" and "weekday × month DD" strings, with parsers that read them back.
- `Widgets`:
  - the weather widget, with night icons and two-tone colouring;
  - the list of four hourly weather widgets;
  - the memory widget's setters.
- `Dashboard`: the two deadlines of the main loop; the departures and weather refreshes; and one pass of the loop, performed on the screen's labels and widgets. A pass is recorded as a trace of the actions it starts, and it stops at the first action that raises.

The clock readings, the hour of the real-time clock, the configured hours, the decoded JSON replies and the free-memory figures are all parameters.

Some state changes in place in the program:

- label texts and colours;
- the progress bar's second rectangle;
- the reply dictionaries the parsers empty;
- the loop's deadlines.

These are fields of Dafny classes, and the methods that change them carry `modifies` clauses. The postconditions of the label, widget and refresh methods tie the new state to a specification function, and the lemmas state what the program promises about that function.

A whole pass is specified the same way. `Performed` gives the actions a pass runs: those of `PassActions`, up to and including the first that raises. `After` gives what the screen shows once those actions have run, one `Perform` at a time. `Screen.Pass` and every block it calls ensure that the trace they return is `Performed` of their actions, and that the screen's `View` is `After` of the old view over that trace. `Screen.Pass` also states the outcome label by label:
- each label whose refresh the pass ran shows what that refresh writes;
- every other label shows what it showed before;
- a pass that does not stop early has refreshed the memory widget.

## Model

| member | source | states |
|---|---|---|
| Builtins.PyIndex | code.py:154-156 | indexing a list succeeds exactly for `-len <= i < len`, a negative index counting from the end; otherwise `IndexError` |
| Builtins.PyIndexModulo | code.py:92 | an in-range index selects the element at the index modulo the length, so month 0 reads the last month |
| Builtins.IndexOf | lib/dashboard/ui.py:30 | `list.index` finds the first occurrence, and fails exactly when the value is absent |
| Builtins.RoundHalfEven | code.py:107 | `round` gives an integer within one half of its argument, and an even one on a tie |
| Builtins.RoundShiftEven | code.py:107 | rounding commutes with adding an even integer |
| Builtins.Trunc | code.py:271 | `int()` truncates toward zero |
| Builtins.Join | code.py:185 | the joined text has the parts' lengths plus one separator between each two parts, and starts with the first part |
| Builtins.Pad2 | code.py:91 | `"{:02}"` prints a number below 100 as exactly two digits that read back as the number |
| Builtins.NatStringRoundTrip | code.py:158 | `str()` of a natural number reads back as that number |
| Builtins.IntStringInjective | code.py:158 | different integers print differently |
| Ui.PaletteDistinct | lib/dashboard/ui.py:11-19 | the palette has eight distinct entries, and the label default colour is not among them |
| Ui.ColorCodeRoundTrip | lib/dashboard/ui.py:29-34 | looking up the colour of palette index `c` gives back `c` |
| Ui.Text.constructor | lib/dashboard/ui.py:24-26 | a label starts with the given text and colour |
| Ui.Text.ColorCode | lib/dashboard/ui.py:28-30 | the getter returns the palette index of the label colour, and fails exactly when the colour is not a palette entry |
| Ui.Text.SetColorCode | lib/dashboard/ui.py:32-34 | the setter sets the colour to palette entry `code` and leaves the text unchanged; reading the code back gives `code` |
| Ui.Text.Value | lib/dashboard/ui.py:36-38 | the `value` getter always returns `None` |
| Ui.Text.SetValue | lib/dashboard/ui.py:40-42 | the `value` setter sets the text and leaves the colour unchanged |
| Ui.TierColor | lib/dashboard/ui.py:62-67 | bar colour tiers are green (2) iff the percentage is above 50, yellow (6) iff it is in 26..50, and red (4) iff it is 25 or less |
| Ui.BarWidthBounds | lib/dashboard/ui.py:61 | for 0..100 per cent `BarWidth`, the bar width, lies in `0..width-2`; it is 0 at 0 per cent and `width-2` at 100 per cent |
| Ui.BarWidthMonotone | lib/dashboard/ui.py:61 | a larger percentage never gives a narrower bar |
| Ui.Progress.constructor | lib/dashboard/ui.py:47-53 | the bar is made of exactly two rectangles: the outline at full width in the given palette colour, then a bar `width-2` wide; the getter reads 100 |
| Ui.Progress.SetValue | lib/dashboard/ui.py:59-68 | the setter replaces only child 1, by the bar of the percentage's width and tier colour; child 0, the child count and the getter's 100 are unchanged |
| Ui.Layout | lib/dashboard/ui.py:75-81 | children are a frame iff both sizes and the padding are positive, then a title iff both sizes are positive and the title is not empty, then the content group at twice the padding, always last; the child count is one plus one for each of the frame and the title that is present |
| Ui.Widget.constructor | lib/dashboard/ui.py:73-82 | the widget's children follow `Layout`, and its content group holds the given items in order |
| Ui.Widget.AppendContent | lib/dashboard/ui.py:84-86 | the items are appended to the content group in order |
| Forecast.WeatherIcon | code.py:111-121 | code 0 gives "9", codes 1 and 2 give "8", code 3 gives "7", the 13 rain codes give "6", the 6 snow codes give "5", and every other code gives `None`; each iff |
| Forecast.Direction | code.py:98-107 | the result is one of the 16 compass labels |
| Forecast.DirectionSector | code.py:107 | every direction strictly within 11.25° of compass point `k` gets point `k`'s label |
| Forecast.DirectionPeriodic | code.py:107 | adding a full turn does not change the label |
| Forecast.DirectionCardinalExamples | code.py:102-107 | 0° and 360° give "N", 180° gives "S", and 359° gives "N" |
| Forecast.DirectionBoundaryExamples | code.py:102-107 | 22° gives "NNE"; the midpoints 11.25° and 33.75° round to the even point, N and NE |
| Forecast.DirectionTie | code.py:107 | a direction exactly between compass points `k` and `k+1` gets the label of whichever of the two is even |
| Forecast.CurrentSample | code.py:143-147 | the current sample is the icon of the current weather code, with the current temperature and wind speed as given |
| Forecast.CurrentSampleLikeHourly | code.py:143-159 | the current sample follows the hourly rule: an hour whose three array entries are the current fields reads as the current sample |
| Forecast.HourKeyInjective | code.py:158 | `HourKey` gives different hours different "H:00" keys |
| Forecast.SampleAt | code.py:154-159 | an hour's sample can be read iff the hour indexes all three hourly arrays; otherwise the read raises `IndexError` |
| Forecast.BuildHourlyDefined | code.py:153-162 | the map is built iff every configured hour can be read |
| Forecast.BuildHourlyKeys | code.py:153-162 | the built map's keys are exactly the configured hours' keys |
| Forecast.BuildHourlyEntries | code.py:153-162 | with an injective key, every configured hour can be read and its key holds that hour's sample |
| Forecast.HourlyMapEntries | code.py:151-162 | `HourlyMap`, the hourly map, exists iff every configured hour can be read; its keys are then exactly `f"{h}:00"` for the configured hours, and each key holds the icon, temperature and wind read at that hour |
| Forecast.ReadHourly | code.py:151-162 | the loop over the configured hours returns exactly the hourly map, or `IndexError` exactly when the map cannot be built |
| Forecast.ParseWeather | code.py:129-164 | the parser empties the unit tables and the time array, and returns the current sample with the hourly map, or `IndexError` exactly when the map cannot be built |
| Transit.Displays | code.py:175-176 | the displays considered are exactly those of departures that are at the stop or expected |
| Transit.DedupFromProperties | code.py:176-177 | dropping repeats keeps every new display once, in first-seen order |
| Transit.SelectedProperties | code.py:172-179 | at most three displays are kept, all from qualifying departures, no two equal, in first-seen order; fewer than three only when every display was kept; none exactly when no departure qualifies |
| Transit.CollectSelects | code.py:175-179 | the loop with its early `break` computes the first three of the de-duplicated displays |
| Transit.TransitTextCases | code.py:172-185 | `TransitText` is "Inga avgångar" when the entry is missing or no departure qualifies; otherwise it is the ", "-join of one to three kept displays, the first qualifying display first |
| Transit.ParseTransit | code.py:168-185 | the parser returns `TransitText` of the reply's old departures and leaves the reply dictionary empty |
| Clock.NameTables | code.py:88-89 | there are seven distinct weekday names and twelve distinct three-letter month names |
| Clock.TimeTextRoundTrip | code.py:91 | `TimeText` is five characters long and reads back as the hour and minute |
| Clock.DateTextOf | code.py:92 | a weekday in 0..6 and a month in 1..12 index the tables directly, with no error |
| Clock.DateTextRoundTrip | code.py:92 | a weekday in 0..6 and a month in 1..12 give a `DateText` that reads back as that weekday, month and day |
| Clock.DateTextCases | code.py:92 | `DateText` fails (`IndexError`) unless -7 <= weekday < 7 and -11 <= month <= 12; month 0 reads "Dec" |
| Widgets.TemperatureColorCode | code.py:216 | the temperature colour is 3 iff the temperature is below zero, and 6 iff it is not |
| Widgets.ShownIconCases | code.py:205-211 | after 19 o'clock and before 5 o'clock, "9" becomes "2" and "8" becomes "1"; every other symbol, and every symbol by day, is shown as given; 19 is day |
| Widgets.NightKeepsColor | code.py:205-215 | a night icon gets the colour of the day icon it replaces |
| Widgets.WeatherCodeColor | code.py:212-215 | the icon of codes 0, 1 and 2 is coloured 6, the icon of rain and snow codes is coloured 3, and any other icon keeps its colour; each iff |
| Widgets.UpdatedIdempotent | code.py:203-218 | `Updated`: showing the same sample twice looks the same as showing it once |
| Widgets.UpdatedForgets | code.py:211-218 | `Updated` keeps the wind label's colour, which it never sets; the icon colour survives only when the new icon has no colour of its own; nothing else is kept from before |
| Widgets.WeatherWidget.constructor | code.py:190-201 | the content is the icon label showing "9", then the temperature label, then the wind label; the scale is 1 for a small widget and 2 otherwise |
| Widgets.WeatherWidget.PaintIcon | code.py:211-215 | the icon label shows the icon; its colour becomes palette entry 6 for icons "9", "2", "8" and "1" (sun and partly cloudy, by day or night), 3 for rain or snow ("6" and "5"), and stays as it was for any other icon, the cloud "7" included |
| Widgets.WeatherWidget.Update | code.py:203-218 | the widget shows `Updated` of the previous view: the icon after the night swap, its colour, the temperature text with its colour, the wind text, and the wind colour unchanged |
| Widgets.ShownFrom | code.py:238-241 | the list stops at the end of the hours, at the fifth hour, or at the first hour whose key is missing, and every earlier key is present |
| Widgets.ShownStops | code.py:238-241 | `Shown`, the number of hours the list shows, is the first index that is the end of the hours, the fifth hour or an hour whose key is missing |
| Widgets.WeatherList.constructor | code.py:223-233 | the content alternates four hour labels with four small weather widgets, placed at x 66, 182, 66, 182 and y 16, 16, 150, 150 |
| Widgets.WeatherList.WriteLabel | code.py:240 | writing content item `2i` sets the text of label `i` to the key; every other label text, every colour and every widget view is unchanged |
| Widgets.WeatherList.UpdateCell | code.py:241 | updating content item `2i+1` replaces only the view of widget `i`, by `Updated` of its old view, which keeps its wind colour; label texts and colours are unchanged |
| Widgets.WeatherList.ShowHour | code.py:239-241 | one pass of the list loop writes label `i`, then raises `KeyError` of the key when the map lacks it and otherwise shows the key's sample in widget `i` as `Updated` of its view, wind colour kept |
| Widgets.WeatherList.Update | code.py:235-241 | the error is `ListError` (a fifth hour raises `IndexError`, a missing key `KeyError` after its label is written); the label texts are `WriteKeys` of the old texts over the labels written, the widget views `ShowSamples` of the old views over the hours shown (each by `Updated`, so every wind colour is kept), and the label colours are unchanged |
| Widgets.WriteKeysAt | code.py:238-240 | after writing `n` labels, label `i` shows the `i`-th hour's key when `i < n` and its old text otherwise |
| Widgets.ShowSamplesAt | code.py:238-241 | after showing `n` hours, widget `i` shows `Updated` of its old view with the `i`-th hour's sample when `i < n`, and its old view otherwise |
| Widgets.ParsedHoursAreShown | code.py:238-241 | for at most four hours, the parsed map holds every key the list looks up, so every hour is shown with its own sample |
| Widgets.FifthHourFails | code.py:238-241 | with more than four hours, four are shown and `ListError` is `IndexError`, for the fifth hour, whose label is not written |
| Widgets.Hundredths | code.py:262 | `round(free / 1024, 2)` is within half a hundredth of the free kilobytes |
| Widgets.DecimalTextRoundTrip | code.py:262 | a whole part and two decimals print as text that reads back as the number of hundredths |
| Widgets.HundredthsTextRoundTrip | code.py:262 | the printed two-decimal value reads back as the value |
| Widgets.KilobyteTextReadsBack | code.py:262 | `KilobyteText`, the memory text, ends in "KB", and what comes before reads back as the free kilobytes to within half a hundredth |
| Widgets.RamWidget.constructor | code.py:246-253 | the content is the free-memory label, then a 50-wide progress bar 2 down with the grey outline; free and progress start at 0 |
| Widgets.RamWidget.SetFree | code.py:259-262 | the `free` setter stores the value and shows it as kilobytes, changing nothing else |
| Widgets.RamWidget.SetProgress | code.py:268-271 | the `progress` setter stores the value and sets the bar to its integer part, changing nothing else |
| Widgets.RamWidget.Refresh | code.py:391 | `ram_widget.free, ram_widget.progress = free_mem()` stores both figures, shows the free kilobytes and sets the bar to the integer part of the percentage; the label colour, the outline and the total are unchanged |
| Widgets.RamWidget.SetTotal | code.py:273-274 | `set_total` stores the value, changing nothing else |
| Widgets.MemoryBarFits | code.py:271 | a percentage in 0..100 gives a bar within the 48-pixel inner width, and a larger percentage never a shorter bar |
| Dashboard.FirstPassFires | code.py:375-381 | the deadlines start at the first clock reading, so the first pass runs both blocks |
| Dashboard.DeadlineMonotone | code.py:380-381 | `Deadline` never moves back as passes go by |
| Dashboard.FiringsAreSpaced | code.py:380-381 | two passes that run a block are at least its interval apart |
| Dashboard.DeadlineBound | code.py:380-381 | the deadline is at most one interval after the previous pass's clock reading |
| Dashboard.DeadlineStays | code.py:380-381 | passes that find the deadline not yet due leave it where it is |
| Dashboard.FiringsKeepUp | code.py:377-403 | once the clock has advanced one interval past a pass, some later pass up to that point runs the block |
| Dashboard.Scheduler.constructor | code.py:375 | both deadlines start at the initial clock reading |
| Dashboard.Scheduler.Step | code.py:379-403 | the minute block runs iff now >= the minute deadline, which then moves to now + 60; the same holds for the weather block with 900 |
| Dashboard.Scheduler.Run | code.py:377-410 | over any sequence of clock readings, pass `k` runs each block exactly when `Fires`, and the deadlines end at `Deadline` |
| Dashboard.RefreshDepartures | code.py:384-399 | the label ends with the parsed departures, or with "Fel uppstod..." when the fetch failed, and the reply is emptied |
| Dashboard.RefreshWeather | code.py:402-406 | the error is `WeatherError`: `IndexError` when the hourly map cannot be built, and then every widget shows what it showed; otherwise the current widget shows `Updated` of its view with the current sample, and the list's labels and widgets are `WriteKeys` and `ShowSamples` of what they showed, over the map; the hour labels keep their colours |
| Dashboard.WeatherError | code.py:404-406 | the refresh raises `IndexError` when the map cannot be built, and otherwise the list's `ListError` |
| Dashboard.DisplayWeather | code.py:405-406 | the current widget shows `Updated` of its old view with the current sample; the list's labels and widgets are `WriteKeys` and `ShowSamples` of what they showed; the label colours are unchanged; the error is `ListError` of the hours and map |
| Dashboard.ShowCurrent | code.py:405 | `current_weather.update(c)` shows `Updated` of the widget's view and leaves the list as it was |
| Dashboard.ShowHourly | code.py:406 | `hourly_weather.update(h)` gives the list's texts and views by `WriteKeys` and `ShowSamples`, keeps the label colours, and leaves the current widget as it was |
| Dashboard.WeatherRefreshShowsHours | code.py:404-406 | with at most four hours, all readable, the refresh raises nothing; label `i` below the number of hours then shows the `i`-th hour's key and widget `i` `Updated` of its view with that hour's sample, and every later label and widget keeps what it showed |
| Dashboard.Failures | code.py:382-407 | the actions that raise: the clock iff the date cannot be formatted, a departures refresh iff its fetch failed, the weather iff its refresh raises; the memory refresh never |
| Dashboard.StopsAtUnique | code.py:377-410 | a run that stops at the first raising action is determined by the actions and the set of raising ones |
| Dashboard.NoFailureRunsAll | code.py:377-410 | when no action raises, the run performs every action and does not stop early |
| Dashboard.StopsAtAppend | code.py:377-410 | a run of one block that completes, followed by a run of the next, is a run of the two in sequence |
| Dashboard.PerformedStops | code.py:377-410 | `Performed` of a list of actions is a run that stops at the first action that raises: every action before the last succeeds, it stops short exactly when one raises, and otherwise it is the whole list; `Raises` holds iff some action of the list raises |
| Dashboard.PerformedAppend | code.py:377-410 | running two lists of actions in sequence runs the first, and the second only when the first did not raise; the sequence raises iff either list does |
| Dashboard.MinuteStops | code.py:380-400 | when the date cannot be formatted the minute block runs the clock alone and raises; otherwise it runs the clock, the trains and, unless the trains raised, the memory, the buses and, unless the buses raised, the memory; it raises iff the trains or the buses do |
| Dashboard.RestStops | code.py:402-409 | with the quarter-hour block due, the rest of a pass runs the weather and, unless it raised, the memory, and it raises iff the weather does; otherwise it runs the memory alone and does not raise |
| Dashboard.MinuteStopsPass | code.py:380-409 | with the minute block due, a pass runs that block and, unless it raised, the rest of the pass; it raises iff either part does |
| Dashboard.PassCompletes | code.py:377-410 | a pass performs exactly `PassActions` iff it does not stop early, iff none of those actions raises |
| Dashboard.PassTraceOrder | code.py:377-410 | a pass starts with the clock when the minute deadline is due; clock and departures appear only then, the weather only when the quarter-hour deadline is due, and only after the clock and both departures refreshes succeeded; a pass that does not stop early ends with the memory refresh, and one that stops ends elsewhere |
| Dashboard.PerformLabels | code.py:382-409 | one action writes only its own label: the clock writes the time and date texts when the date can be formatted, a departures refresh its label's text, the memory refresh the memory widget; no action changes a label colour |
| Dashboard.AfterAppend | code.py:377-410 | the screen after two traces run in sequence is the screen after the first, then the second |
| Dashboard.AfterDepartures | code.py:384-399 | after a trace, each departures label shows the parsed text, or "Fel uppstod..." for a failed fetch, iff the trace holds its refresh, and what it showed before otherwise |
| Dashboard.AfterClock | code.py:382 | after a trace, the time and date labels show the formatted texts iff the trace holds the clock and the date can be formatted, and what they showed before otherwise |
| Dashboard.AfterMemory | code.py:391-409 | after a trace, the memory widget holds and shows the two figures iff the trace holds a memory refresh, however many, and is as it was otherwise; no label colour changes |
| Dashboard.AfterKeepsWeather | code.py:380-400 | a trace without the weather refresh leaves the weather widgets as they were |
| Dashboard.AfterWeatherOnce | code.py:402-406 | a trace that holds the weather refresh once leaves the weather widgets as that refresh alone would |
| Dashboard.PassView | code.py:377-410 | after a pass, each label whose refresh the pass ran shows what that refresh writes and every other label what it showed; the weather widgets show what the weather refresh writes iff the pass ran it; a pass that does not stop early has refreshed the memory widget; no colour changes |
| Dashboard.PassWeather | code.py:402-406 | a pass runs the weather refresh at most once, so the weather widgets show what that refresh writes, or what they showed before |
| Dashboard.Screen.constructor | code.py:294-300 | the screen holds the time, date, train and bus labels, the memory widget, the current-weather widget and the hourly list, each created on its own, so that no two of the labels written are the same label |
| Dashboard.Screen.ShowTime | code.py:382 | both strings are formatted before either label is written: a date that cannot be formatted raises and leaves the screen as it was; otherwise the time and date labels show the two texts |
| Dashboard.Screen.ShowTrainDepartures | code.py:384-390 | the train refresh raises iff the fetch failed, and the screen changes only by the train label's new text |
| Dashboard.Screen.ShowBusDepartures | code.py:393-399 | the bus refresh raises iff the fetch failed, and the screen changes only by the bus label's new text |
| Dashboard.Screen.ShowFreeMemory | code.py:391 | `ram_widget.free, ram_widget.progress = free_mem()` changes the screen only by the memory widget's new figures, text and bar |
| Dashboard.Screen.ShowForecast | code.py:402-406 | the weather refresh raises `WeatherError`; the weather widgets then show `WeatherShown`, and no other label changes; all widgets stay valid |
| Dashboard.Screen.TrainsBlock | code.py:384-391 | the train refresh then, unless it raised, the memory refresh; the screen is the old one after those actions |
| Dashboard.Screen.BusesBlock | code.py:393-400 | the bus refresh then, unless it raised, the memory refresh; the screen is the old one after those actions |
| Dashboard.Screen.DeparturesBlocks | code.py:384-400 | the train block, then the bus block unless the trains raised; it raises iff either fetch failed, and the screen is the old one after the actions run |
| Dashboard.Screen.MinuteBlock | code.py:380-400 | the minute block runs `Performed` of clock, trains, memory, buses, memory, raising iff one of them raises, and the screen is the old one after exactly those actions |
| Dashboard.Screen.QuarterBlock | code.py:402-407 | the quarter-hour block runs the weather refresh and, unless it raised `WeatherError`, the memory; the screen is the old one after those actions, and all widgets stay valid |
| Dashboard.Screen.Rest | code.py:402-409 | the quarter-hour block when due, then the memory refresh that ends every pass unless the weather raised: `Performed` of the rest of the pass, with the screen after those actions |
| Dashboard.Screen.MinuteAndRest | code.py:380-409 | with the minute block due, the pass runs it and then, unless it raised, the rest of the pass: `Performed` of the whole pass, with the screen after those actions |
| Dashboard.Screen.Blocks | code.py:380-409 | the blocks chosen by the deadline checks run as `Performed` of `PassActions`, and the screen is the old one after exactly those actions |
| Dashboard.Screen.Pass | code.py:377-410 | a pass fires each block iff its deadline is due, moving that deadline to now plus the interval; it runs `Performed` of `PassActions` and raises iff one of them raises; each label whose refresh ran shows what that refresh writes and every other label what it showed; a pass that does not stop early has shown the free memory; the weather widgets change only when the weather refresh ran; all widgets stay valid |
| Dashboard.Screen.PassShows | code.py:377-410 | from the screen's view after a pass, label by label: the time, date, train and bus texts, the memory widget and the weather widgets as `Screen.Pass` states them |

## Left out

- Hardware and networking are left out: display bootstrap, pins, WiFi connection and retries, `get_json`, NTP and time-API synchronisation of the real-time clock, `time.sleep`, `gc.collect`, `gc.mem_free` and `print`. The replies, the clock readings, the real-time clock's fields and the free-memory figures are parameters.
- `free_mem` is left out; `RamWidget.SetFree` and `RamWidget.SetProgress` take its two results as inputs.
- Fonts, anchor points, anchored positions and label scales are not modelled. Neither are the rendering internals of the label, rectangle and group library; a rectangle is a record and a group a small class.
- The decoded JSON is typed: a reply is a record with the fields the code reads. Malformed replies are not modelled, such as a missing "current" or "hourly" entry, or a departure without "state". In the program those raise `KeyError` or `TypeError`. The errors that come from the data's contents are modelled: an hour outside the hourly arrays, a missing "departures" entry, and a missing key or fifth hour in the weather list.
- Ui.BarWidth: `(width - 2) / 100 * percent` is computed on exact reals, not floats. For the memory bar (width 50) and whole percentages the two agree: the exact value 12p/25 is never closer than 0.02 to a half-integer, far more than the float error, so rounding gives the same integer.
- Forecast.Direction: degrees are exact reals, not binary floats, so `degrees / 22.5` is computed without rounding error.
- Widgets.Hundredths: the division and rounding are exact. The program works on floats, which agree for free-memory figures of realistic size. Exponent notation for huge values is not modelled.
- Numbers in a reply carry the text Python prints for them (`Forecast.Number.text`); how floats are printed is not modelled.
- Widgets.WeatherWidget.Update: the night swap reads the real-time clock's hour once, as the `hour` parameter; the program reads it twice.
- A label's text is an `Option`, because the weather widget assigns `None` for a code without an icon; how the label library draws `None` is not modelled.
- Dashboard.RefreshDepartures: a failed fetch is `None`. The program then shows "Fel uppstod..." and re-raises, which ends the loop; here it is a returned flag.
- Dashboard: the loop runs forever in the program. `Scheduler.Run` covers any finite sequence of passes, and `Screen.Pass` one pass on the screen.
- Dashboard.Screen.Pass: `free_mem` is taken to return the same two figures at every call of one pass, given as parameters. The pass also takes the fetched replies as parameters, so a weather fetch that fails is not modelled; a departures fetch that fails is `None`.
- Dashboard.Screen.Pass: the two departures replies are taken to be two distinct dictionaries, as two calls of `get_json` return.
- Dashboard.Screen.Pass: both deadlines are updated by `Scheduler.Step` before the blocks run, whereas the program sets the quarter-hour deadline only after the minute block. The two differ only when the minute block raises, which ends the program.
- The WiFi status line and the NTP fallback in the clock function are not modelled.

## Notes on the code

- Hour 19 counts as day, because the night test is `tm_hour > 19 or tm_hour < 5`; only 20:00 to 04:59 is night.
- `degrees_to_direction(22)` is "NNE", because 22° is nearer 22.5° than 0°.
- The bus loading text is spelt "Hämtar avrångar..." in the program and is kept as written.
- The `Progress` getter always returns 100: the setter never updates `_value`.
