/**
 * The dashboard's own widgets: the weather widget (icon, temperature and
 * wind speed, with the night variants of the sun icons and the two-tone
 * colouring), the list of four hourly weather widgets under their "H:00"
 * labels, and the memory widget (free kilobytes and a progress bar).
 */
module Widgets {
  import opened Builtins
  import opened Ui
  import opened Forecast

  // -----------------------------------------------------------------------
  // Weather widget: the rules

  /** The icon font's night variants are shown after 19 o'clock and before
      5 o'clock; 19:xx itself is still day. */
  predicate IsNight(hour: int) {
    hour > 19 || hour < 5
  }

  /** The icon shown for a sample's icon at an hour of the clock. */
  function ShownIcon(icon: Option<string>, hour: int): Option<string> {
    if IsNight(hour) && icon == Some(Clear) then Some(ClearNight)
    else if IsNight(hour) && icon == Some(PartlyCloudy) then Some(PartlyCloudyNight)
    else icon
  }

  /** The palette index the icon is coloured with, `None` where its colour
      is left as it was. */
  function IconColorCode(icon: Option<string>): (r: Option<nat>)
    ensures r.Some? ==> r.value < |Palette|
  {
    if icon == Some(Clear) || icon == Some(ClearNight) || icon == Some(PartlyCloudy) || icon == Some(PartlyCloudyNight)
    then Some(6)
    else if icon == Some(Snow) || icon == Some(Rain) then Some(3)
    else None
  }

  /** The palette index of the temperature: 3 below zero, 6 otherwise. */
  function TemperatureColorCode(temperature: real): (r: nat)
    ensures r < |Palette|
    ensures r == 3 <==> temperature < 0.0
    ensures r == 6 <==> temperature >= 0.0
  {
    if temperature < 0.0 then 3 else 6
  }

  /** The temperature followed by the font's degree glyph (code 8). */
  function TemperatureText(t: Number): string {
    t.text + "\U{8}"
  }

  /** The wind speed between the font's wind glyph (code 0) and its unit
      glyph (code 6). */
  function WindText(w: Number): string {
    "\U{0} " + w.text + " \U{6}"
  }

  /** What a weather widget shows: its three labels' texts and colours. */
  datatype WeatherView = WeatherView(
    icon: Option<string>, iconColor: int,
    temperature: Option<string>, temperatureColor: int,
    wind: Option<string>, windColor: int)

  /** The view after showing sample `s` at `hour`, from view `v`. */
  function Updated(v: WeatherView, s: Sample, hour: int): WeatherView {
    var icon := ShownIcon(s.icon, hour);
    WeatherView(
      icon,
      match IconColorCode(icon) case Some(c) => Palette[c] case None => v.iconColor,
      Some(TemperatureText(s.temperature)),
      Palette[TemperatureColorCode(s.temperature.value)],
      Some(WindText(s.windSpeed)),
      v.windColor)
  }

  // -----------------------------------------------------------------------
  // Weather widget: properties of the rules

  /** At night the clear and partly cloudy icons become their night
      variants; every other icon, and every icon by day, is shown as
      given. Hour 19 is day, hours 20 and 4 are night, hour 5 is day. */
  lemma ShownIconCases(icon: Option<string>, hour: int)
    ensures IsNight(hour) && icon == Some(Clear) ==> ShownIcon(icon, hour) == Some(ClearNight)
    ensures IsNight(hour) && icon == Some(PartlyCloudy) ==> ShownIcon(icon, hour) == Some(PartlyCloudyNight)
    ensures !IsNight(hour) || icon !in {Some(Clear), Some(PartlyCloudy)} ==> ShownIcon(icon, hour) == icon
    ensures !IsNight(19) && IsNight(20) && IsNight(4) && !IsNight(5)
  {
  }

  /** The night variant is coloured like the day icon it replaces. */
  lemma NightKeepsColor(icon: Option<string>, hour: int)
    ensures IconColorCode(ShownIcon(icon, hour)) == IconColorCode(icon)
  {
  }

  /** For the icon of a weather code: clear sky and (partly) cloudy-with-sun
      codes 0, 1, 2 are coloured 6, rain and snow codes 3, and overcast (3)
      and codes without an icon keep the colour they had. */
  lemma {:induction false} WeatherCodeColor(code: int, hour: int)
    ensures IconColorCode(ShownIcon(WeatherIcon(code), hour)) == Some(6) <==> code in {0, 1, 2}
    ensures IconColorCode(ShownIcon(WeatherIcon(code), hour)) == Some(3) <==> code in RainCodes + SnowCodes
    ensures IconColorCode(ShownIcon(WeatherIcon(code), hour)).None? <==> code !in {0, 1, 2} + RainCodes + SnowCodes
  {
    NightKeepsColor(WeatherIcon(code), hour);
    var icon := WeatherIcon(code);
    assert IconColorCode(icon) == Some(6) <==> icon in {Some(Clear), Some(PartlyCloudy)};
    assert IconColorCode(icon) == Some(3) <==> icon in {Some(Snow), Some(Rain)};
  }

  /** Showing the same sample twice is the same as showing it once. */
  lemma UpdatedIdempotent(v: WeatherView, s: Sample, hour: int)
    ensures Updated(Updated(v, s, hour), s, hour) == Updated(v, s, hour)
  {
  }

  /** Only the colours can survive an update: the wind label's, which is
      never set, and the icon's, only when the new icon has no colour of
      its own. */
  lemma UpdatedForgets(v: WeatherView, w: WeatherView, s: Sample, hour: int)
    ensures Updated(v, s, hour).windColor == v.windColor
    ensures Updated(v, s, hour).iconColor != Updated(w, s, hour).iconColor ==>
      IconColorCode(ShownIcon(s.icon, hour)).None? && v.iconColor != w.iconColor
    ensures v.iconColor == w.iconColor && v.windColor == w.windColor ==> Updated(v, s, hour) == Updated(w, s, hour)
  {
  }

  // -----------------------------------------------------------------------
  // Weather widget: the class

  class WeatherWidget {
    /** The container the three labels are the content of. */
    const frame: Widget
    /** Label scale: 1 for the small widget, 2 otherwise. */
    const scale: int
    const symbol: Text
    const temperature: Text
    const wind: Text

    ghost predicate Valid()
      reads frame.content
    {
      symbol != temperature && symbol != wind && temperature != wind &&
      frame.content.items == [symbol, temperature, wind]
    }

    function View(): WeatherView
      reads symbol, temperature, wind
    {
      WeatherView(symbol.text, symbol.color, temperature.text, temperature.color, wind.text, wind.color)
    }

    /** A widget at (x, y) without frame or title, whose content is the
        icon label (showing the sun), the temperature label and the wind
        label. */
    constructor (x: int, y: int, small: bool)
      ensures Valid()
      ensures fresh(frame) && fresh(frame.content) && fresh(symbol) && fresh(temperature) && fresh(wind)
      ensures frame.x == x && frame.y == y && frame.Shape() == Layout(0, 0, 0, "")
      ensures scale == if small then 1 else 2
      ensures View() == WeatherView(Some(Clear), LabelDefaultColor, Some("..."), LabelDefaultColor,
                                    Some("..."), LabelDefaultColor)
    {
      scale := if small then 1 else 2;
      var icon := new Text("9", LabelDefaultColor);
      var temp := new Text("...", LabelDefaultColor);
      var speed := new Text("...", LabelDefaultColor);
      symbol, temperature, wind := icon, temp, speed;
      frame := new Widget(0, 0, x, y, 0, 1, "", [icon, temp, speed]);
    }

    /** Shows an icon: the symbol label gets its text, and its palette
        colour when the icon has one. */
    method PaintIcon(icon: Option<string>)
      requires Valid()
      modifies symbol
      ensures Valid()
      ensures symbol.text == icon
      ensures symbol.color == match IconColorCode(icon) case Some(c) => Palette[c] case None => old(symbol.color)
    {
      symbol.text := icon;
      if icon == Some("9") || icon == Some("2") || icon == Some("8") || icon == Some("1") {
        symbol.SetColorCode(6);
      }
      if icon == Some("5") || icon == Some("6") {
        symbol.SetColorCode(3);
      }
    }

    /** `update`: shows a sample at the given hour of the clock. */
    method Update(s: Sample, hour: int)
      requires Valid()
      modifies symbol, temperature, wind
      ensures Valid()
      ensures View() == Updated(old(View()), s, hour)
    {
      var icon := s.icon;
      if hour > 19 || hour < 5 {
        if icon == Some("9") {
          icon := Some("2");
        }
        if icon == Some("8") {
          icon := Some("1");
        }
      }
      assert icon == ShownIcon(s.icon, hour);
      PaintIcon(icon);
      temperature.SetColorCode(if s.temperature.value < 0.0 then 3 else 6);
      temperature.text := Some(s.temperature.text + "\U{8}");
      wind.text := Some("\U{0} " + s.windSpeed.text + " \U{6}");
    }
  }

  // -----------------------------------------------------------------------
  // Weather list

  /** How many hourly widgets the list has. */
  const Cells: nat := 4

  /** How many configured hours, from index `i` on, the list shows before
      it stops: at the end of the hours, at the fifth hour (there is no
      fifth widget), or at an hour whose key is missing from the map. */
  function ShownFrom(hours: seq<int>, hourly: map<string, Sample>, i: nat): (n: nat)
    requires i <= |hours| && i <= Cells
    ensures i <= n <= |hours| && n <= Cells
    ensures forall k :: i <= k < n ==> HourKey(hours[k]) in hourly
    ensures n == |hours| || n == Cells || HourKey(hours[n]) !in hourly
    decreases |hours| - i
  {
    if i == |hours| || i == Cells || HourKey(hours[i]) !in hourly then i
    else ShownFrom(hours, hourly, i + 1)
  }

  function Shown(hours: seq<int>, hourly: map<string, Sample>): nat {
    ShownFrom(hours, hourly, 0)
  }

  /** The exception `update` raises: none when every hour is shown,
      `IndexError` for a fifth hour, `KeyError` for a missing key. */
  function ListError(hours: seq<int>, hourly: map<string, Sample>): Option<Error> {
    var n := Shown(hours, hourly);
    if n == |hours| then None
    else if n == Cells then Some(IndexError)
    else Some(KeyError(HourKey(hours[n])))
  }

  /** Where the list stops: at an index up to `Shown` that is the end of
      the hours, the fifth hour, or an hour whose key is missing. */
  lemma ShownStops(hours: seq<int>, hourly: map<string, Sample>, index: nat)
    requires index <= Shown(hours, hourly)
    ensures index == |hours| || index == Cells ==> Shown(hours, hourly) == index
    ensures index < |hours| && index < Cells ==>
      (HourKey(hours[index]) in hourly <==> index < Shown(hours, hourly))
  {
  }

  /** How many labels `update` writes: one per shown hour, and the label
      of a missing key, which is written before the lookup fails. */
  function LabelsWritten(hours: seq<int>, hourly: map<string, Sample>): nat {
    var n := Shown(hours, hourly);
    if n < |hours| && n < Cells then n + 1 else n
  }

  /** A small weather widget at (x, y). */
  method NewSmallCell(x: int, y: int) returns (c: WeatherWidget)
    ensures c.Valid() && c.frame.x == x && c.frame.y == y && c.scale == 1
    ensures fresh(c.symbol) && fresh(c.temperature) && fresh(c.wind)
  {
    c := new WeatherWidget(x, y, true);
  }

  /** The four hour labels and the four small weather widgets of the
      list, in two rows of two. */
  method NewGrid() returns (labels: seq<Text>, cells: seq<WeatherWidget>)
    ensures Separated(labels, cells)
    ensures forall i :: 0 <= i < Cells ==> cells[i].Valid() && cells[i].scale == 1
    ensures [cells[0].frame.x, cells[1].frame.x, cells[2].frame.x, cells[3].frame.x] == [66, 182, 66, 182]
    ensures [cells[0].frame.y, cells[1].frame.y, cells[2].frame.y, cells[3].frame.y] == [16, 16, 150, 150]
  {
    var l0 := new Text("...", LabelDefaultColor);
    var c0 := NewSmallCell(66, 16);
    var l1 := new Text("...", LabelDefaultColor);
    var c1 := NewSmallCell(182, 16);
    var l2 := new Text("...", LabelDefaultColor);
    var c2 := NewSmallCell(66, 150);
    var l3 := new Text("...", LabelDefaultColor);
    var c3 := NewSmallCell(182, 150);
    labels := [l0, l1, l2, l3];
    cells := [c0, c1, c2, c3];
    SeparatedPairs(labels, cells);
  }

  /** No label of one weather widget is a label of the other. */
  predicate Apart(c: WeatherWidget, d: WeatherWidget) {
    Outside(c.symbol, d) && Outside(c.temperature, d) && Outside(c.wind, d)
  }

  predicate Outside(t: Text, c: WeatherWidget) {
    t != c.symbol && t != c.temperature && t != c.wind
  }

  /** No label is written through two names: the hour labels and the
      widgets' labels are all different objects. */
  ghost predicate Separated(labels: seq<Text>, cells: seq<WeatherWidget>) {
    |labels| == Cells && |cells| == Cells &&
    forall i, j :: 0 <= i < Cells && 0 <= j < Cells ==>
      (i != j ==> labels[i] != labels[j] && Apart(cells[i], cells[j])) &&
      Outside(labels[i], cells[j])
  }

  predicate OutsideAll(t: Text, cs: seq<WeatherWidget>)
    requires |cs| == Cells
  {
    Outside(t, cs[0]) && Outside(t, cs[1]) && Outside(t, cs[2]) && Outside(t, cs[3])
  }

  /** `Separated`, from the pairs one by one. */
  lemma SeparatedPairs(labels: seq<Text>, cells: seq<WeatherWidget>)
    requires |labels| == Cells && |cells| == Cells
    requires labels[0] != labels[1] && labels[0] != labels[2] && labels[0] != labels[3]
    requires labels[1] != labels[2] && labels[1] != labels[3] && labels[2] != labels[3]
    requires OutsideAll(labels[0], cells) && OutsideAll(labels[1], cells)
    requires OutsideAll(labels[2], cells) && OutsideAll(labels[3], cells)
    requires Apart(cells[0], cells[1]) && Apart(cells[0], cells[2]) && Apart(cells[0], cells[3])
    requires Apart(cells[1], cells[2]) && Apart(cells[1], cells[3]) && Apart(cells[2], cells[3])
    ensures Separated(labels, cells)
  {
  }

  class WeatherList {
    const frame: Widget
    const labels: seq<Text>
    const cells: seq<WeatherWidget>

    /** The labels the list writes: the hour labels and every widget's
        three labels. */
    ghost function Repr(): set<object>
      requires |labels| == Cells && |cells| == Cells
    {
      {labels[0], labels[1], labels[2], labels[3],
       cells[0].symbol, cells[0].temperature, cells[0].wind,
       cells[1].symbol, cells[1].temperature, cells[1].wind,
       cells[2].symbol, cells[2].temperature, cells[2].wind,
       cells[3].symbol, cells[3].temperature, cells[3].wind}
    }

    /** The labels of hour `index` are among those the list writes. */
    lemma InRepr(index: nat)
      requires |labels| == Cells && |cells| == Cells && index < Cells
      ensures labels[index] in Repr()
      ensures cells[index].symbol in Repr() && cells[index].temperature in Repr() && cells[index].wind in Repr()
    {
      if index == 0 {
      } else if index == 1 {
      } else if index == 2 {
      } else {
      }
    }

    ghost predicate Separate()
    {
      Separated(labels, cells)
    }

    ghost predicate Valid()
      reads frame.content
      reads if |cells| == Cells
            then {cells[0].frame.content, cells[1].frame.content, cells[2].frame.content, cells[3].frame.content}
            else {}
    {
      Separate() &&
      frame.content.items == [labels[0], cells[0], labels[1], cells[1], labels[2], cells[2], labels[3], cells[3]] &&
      forall i :: 0 <= i < Cells ==> cells[i].Valid()
    }

    /** Label `t` is none of the labels the list writes. */
    predicate Avoids(t: Text)
      requires |labels| == Cells && |cells| == Cells
    {
      t != labels[0] && t != labels[1] && t != labels[2] && t != labels[3] && OutsideAll(t, cells)
    }

    /** No label of widget `c` is one the list writes. */
    predicate AvoidsWidget(c: WeatherWidget)
      requires |labels| == Cells && |cells| == Cells
    {
      Avoids(c.symbol) && Avoids(c.temperature) && Avoids(c.wind)
    }

    lemma AvoidsRepr(c: WeatherWidget)
      requires |labels| == Cells && |cells| == Cells && AvoidsWidget(c)
      ensures {c.symbol, c.temperature, c.wind} !! Repr()
    {
    }

    /** The texts of the four hour labels. */
    function Texts(): (r: seq<Option<string>>)
      requires |labels| == Cells
      reads labels
      ensures |r| == Cells
    {
      [labels[0].text, labels[1].text, labels[2].text, labels[3].text]
    }

    /** The colours of the four hour labels. */
    function Colors(): (r: seq<int>)
      requires |labels| == Cells
      reads labels
      ensures |r| == Cells
    {
      [labels[0].color, labels[1].color, labels[2].color, labels[3].color]
    }

    /** What the four weather widgets show. */
    function Views(): (r: seq<WeatherView>)
      requires |cells| == Cells
      reads cells[0].symbol, cells[0].temperature, cells[0].wind,
            cells[1].symbol, cells[1].temperature, cells[1].wind,
            cells[2].symbol, cells[2].temperature, cells[2].wind,
            cells[3].symbol, cells[3].temperature, cells[3].wind
      ensures |r| == Cells
    {
      [cells[0].View(), cells[1].View(), cells[2].View(), cells[3].View()]
    }

    /** The list at (x, y): four labels and four small weather widgets, in
        two rows of two. */
    constructor (x: int, y: int)
      ensures Valid()
      ensures frame.x == x && frame.y == y && frame.Shape() == Layout(0, 0, 0, "")
      ensures [cells[0].frame.x, cells[1].frame.x, cells[2].frame.x, cells[3].frame.x] == [66, 182, 66, 182]
      ensures [cells[0].frame.y, cells[1].frame.y, cells[2].frame.y, cells[3].frame.y] == [16, 16, 150, 150]
      ensures forall i :: 0 <= i < Cells ==> cells[i].scale == 1
    {
      var ls, cs := NewGrid();
      labels, cells := ls, cs;
      frame := new Widget(0, 0, x, y, 0, 1, "", [ls[0], cs[0], ls[1], cs[1], ls[2], cs[2], ls[3], cs[3]]);
    }

    /** Sets the text of label `index` (content item `2 * index`). */
    method WriteLabel(index: nat, key: string)
      requires Valid() && index < Cells
      modifies labels[index]
      ensures Valid()
      ensures Texts() == old(Texts())[index := Some(key)]
      ensures Colors() == old(Colors()) && Views() == old(Views())
    {
      labels[index].text := Some(key);
    }

    /** Shows a sample in widget `index` (content item `2 * index + 1`). */
    method UpdateCell(index: nat, s: Sample, hour: int)
      requires Valid() && index < Cells
      modifies cells[index].symbol, cells[index].temperature, cells[index].wind
      ensures Valid()
      ensures Texts() == old(Texts()) && Colors() == old(Colors())
      ensures Views() == old(Views())[index := Updated(old(Views())[index], s, hour)]
    {
      cells[index].Update(s, hour);
    }

    /** One round of `update`: writes the key of hour `index` into its
        label, then shows the map's sample for that key in its widget, or
        raises `KeyError` when the key is missing. */
    method ShowHour(hours: seq<int>, hourly: map<string, Sample>, hour: int, index: nat) returns (error: Option<Error>)
      requires Valid() && index < |hours| && index < Cells
      modifies labels[index], cells[index].symbol, cells[index].temperature, cells[index].wind
      ensures Valid()
      ensures error == if HourKey(hours[index]) in hourly then None else Some(KeyError(HourKey(hours[index])))
      ensures Texts() == old(Texts())[index := Some(HourKey(hours[index]))]
      ensures Colors() == old(Colors())
      ensures Views() == if error.Some? then old(Views())
        else old(Views())[index := Updated(old(Views())[index], hourly[HourKey(hours[index])], hour)]
    {
      var key := HourKey(hours[index]);
      WriteLabel(index, key);
      if key !in hourly {
        return Some(KeyError(key));
      }
      UpdateCell(index, hourly[key], hour);
      return None;
    }

    /** `update`: for the `i`-th configured hour, writes the key into label
        `i` and shows the map's sample for that key in widget `i`, stopping
        at the first hour it cannot show. */
    method Update(hours: seq<int>, hourly: map<string, Sample>, hour: int) returns (error: Option<Error>)
      requires Valid()
      modifies Repr()
      ensures Valid()
      ensures error == ListError(hours, hourly)
      ensures Texts() == WriteKeys(old(Texts()), hours, LabelsWritten(hours, hourly))
      ensures Colors() == old(Colors())
      ensures Views() == ShowSamples(old(Views()), hours, hourly, hour, Shown(hours, hourly))
    {
      var index := 0;
      while index < |hours|
        invariant 0 <= index <= Shown(hours, hourly)
        invariant Valid()
        invariant Texts() == WriteKeys(old(Texts()), hours, index)
        invariant Colors() == old(Colors())
        invariant Views() == ShowSamples(old(Views()), hours, hourly, hour, index)
      {
        if index * 2 >= |frame.content.items| {
          ShownStops(hours, hourly, index);
          return Some(IndexError);
        }
        ShownStops(hours, hourly, index);
        InRepr(index);
        error := ShowHour(hours, hourly, hour, index);
        if error.Some? {
          return;
        }
        index := index + 1;
      }
      ShownStops(hours, hourly, index);
      return None;
    }
  }

  /** The label texts after `update` writes the keys of the first `n`
      hours. */
  function WriteKeys(before: seq<Option<string>>, hours: seq<int>, n: nat): (r: seq<Option<string>>)
    requires n <= |hours| && n <= |before|
    ensures |r| == |before|
  {
    WriteKeysWith(before, hours, HourKey, n)
  }

  /** `WriteKeys` for any choice of key. */
  function WriteKeysWith(before: seq<Option<string>>, hours: seq<int>, key: int -> string, n: nat)
    : (r: seq<Option<string>>)
    requires n <= |hours| && n <= |before|
    ensures |r| == |before|
  {
    if n == 0 then before
    else WriteKeysWith(before, hours, key, n - 1)[n - 1 := Some(key(hours[n - 1]))]
  }

  /** A function showing a sample in a widget view. */
  type Painter = (WeatherView, Sample) -> WeatherView

  /** The widget views after `update` shows the samples of the first `n`
      hours. */
  function ShowSamples(before: seq<WeatherView>, hours: seq<int>, hourly: map<string, Sample>, hour: int, n: nat)
    : (r: seq<WeatherView>)
    requires n <= |hours| && n <= |before|
    requires forall k :: 0 <= k < n ==> HourKey(hours[k]) in hourly
    ensures |r| == |before|
  {
    ShowSamplesWith(before, hours, hourly, HourKey, (v, s) => Updated(v, s, hour), n)
  }

  /** `ShowSamples` for any choice of key and of drawing. */
  function ShowSamplesWith(before: seq<WeatherView>, hours: seq<int>, hourly: map<string, Sample>,
                           key: int -> string, paint: Painter, n: nat): (r: seq<WeatherView>)
    requires n <= |hours| && n <= |before|
    requires forall k :: 0 <= k < n ==> key(hours[k]) in hourly
    ensures |r| == |before|
  {
    if n == 0 then before
    else
      var v := ShowSamplesWith(before, hours, hourly, key, paint, n - 1);
      v[n - 1 := paint(v[n - 1], hourly[key(hours[n - 1])])]
  }

  lemma {:induction false} WriteKeysWithAt(before: seq<Option<string>>, hours: seq<int>, key: int -> string,
                                           n: nat, i: nat)
    requires n <= |hours| && n <= |before| && i < |before|
    ensures WriteKeysWith(before, hours, key, n)[i] == if i < n then Some(key(hours[i])) else before[i]
  {
    if n > 0 && i != n - 1 {
      WriteKeysWithAt(before, hours, key, n - 1, i);
    }
  }

  lemma {:induction false} ShowSamplesWithAt(before: seq<WeatherView>, hours: seq<int>, hourly: map<string, Sample>,
                                             key: int -> string, paint: Painter, n: nat, i: nat)
    requires n <= |hours| && n <= |before| && i < |before|
    requires forall k :: 0 <= k < n ==> key(hours[k]) in hourly
    ensures ShowSamplesWith(before, hours, hourly, key, paint, n)[i] ==
      if i < n then paint(before[i], hourly[key(hours[i])]) else before[i]
  {
    if n > 0 {
      ShowSamplesWithAt(before, hours, hourly, key, paint, n - 1, i);
    }
  }

  /** Label `i` shows the key of the `i`-th hour when it was written, and
      its old text otherwise. */
  lemma WriteKeysAt(before: seq<Option<string>>, hours: seq<int>, n: nat, i: nat)
    requires n <= |hours| && n <= |before| && i < |before|
    ensures WriteKeys(before, hours, n)[i] == if i < n then Some(HourKey(hours[i])) else before[i]
  {
    WriteKeysWithAt(before, hours, HourKey, n, i);
  }

  /** Widget `i` shows the sample under the `i`-th hour's key, coloured
      from its old view, when it was updated, and its old view otherwise. */
  lemma ShowSamplesAt(before: seq<WeatherView>, hours: seq<int>, hourly: map<string, Sample>,
                      hour: int, n: nat, i: nat)
    requires n <= |hours| && n <= |before| && i < |before|
    requires forall k :: 0 <= k < n ==> HourKey(hours[k]) in hourly
    ensures i < n ==> HourKey(hours[i]) in hourly
    ensures ShowSamples(before, hours, hourly, hour, n)[i] ==
      if i < n then Updated(before[i], hourly[HourKey(hours[i])], hour) else before[i]
  {
    ShowSamplesWithAt(before, hours, hourly, HourKey, (v, s) => Updated(v, s, hour), n, i);
  }

  /** The map the parser builds for at most four hours is exactly what the
      list needs: every hour is shown, under its own key, with the sample
      read for that hour. */
  lemma ParsedHoursAreShown(h: Hourly, hours: seq<int>)
    requires |hours| <= Cells && HourlyMap(h, hours).Ok?
    ensures Shown(hours, HourlyMap(h, hours).value) == |hours|
    ensures ListError(hours, HourlyMap(h, hours).value).None?
    ensures forall i :: 0 <= i < |hours| ==>
      SampleAt(h, hours[i]).Ok? &&
      HourlyMap(h, hours).value[HourKey(hours[i])] == SampleAt(h, hours[i]).value
  {
    HourlyMapEntries(h, hours);
  }

  /** With more than four hours configured, the first four are shown and
      the fifth raises `IndexError` before its label is written. */
  lemma FifthHourFails(h: Hourly, hours: seq<int>)
    requires |hours| > Cells && HourlyMap(h, hours).Ok?
    ensures Shown(hours, HourlyMap(h, hours).value) == Cells
    ensures LabelsWritten(hours, HourlyMap(h, hours).value) == Cells
    ensures ListError(hours, HourlyMap(h, hours).value) == Some(IndexError)
  {
    HourlyMapEntries(h, hours);
  }

  // -----------------------------------------------------------------------
  // Memory widget

  /** `round(free / 1024, 2)` in hundredths: the free kilobytes rounded to
      two decimals, a tie going to the even neighbour. */
  function Hundredths(free: nat): (r: int)
    ensures -0.005 <= r as real / 100.0 - free as real / 1024.0 <= 0.005
  {
    RoundHalfEven(free as real * 100.0 / 1024.0)
  }

  /** How Python prints a float of `h` hundredths: the integer part, a
      point, and the decimals without trailing zeros but at least one. */
  function HundredthsText(h: nat): string {
    DecimalText(h / 100, h % 100)
  }

  /** The text of `q` units and `frac` hundredths. */
  function DecimalText(q: nat, frac: nat): string
    requires frac < 100
  {
    NatString(q) + "." +
    (if frac == 0 then "0" else if frac % 10 == 0 then [DigitChar(frac / 10)] else Pad2(frac))
  }

  /** The text of the memory label: the free kilobytes and "KB". */
  function KilobyteText(free: nat): string {
    var h := Hundredths(free);
    assert h >= 0 by {
      RoundMonotone(0.0, free as real * 100.0 / 1024.0);
      RoundNearest(0.0, 0);
    }
    HundredthsText(h) + "KB"
  }

  /** The hundredths a printed value stands for. */
  function ParseHundredths(s: string): Option<nat> {
    if |s| >= 3 && s[|s| - 2] == '.' && IsDigit(s[|s| - 1])
       && forall i :: 0 <= i < |s| - 2 ==> IsDigit(s[i])
    then Some(100 * DigitsValue(s[..|s| - 2]) + 10 * (s[|s| - 1] as int - '0' as int))
    else if |s| >= 4 && s[|s| - 3] == '.' && IsDigit(s[|s| - 2]) && IsDigit(s[|s| - 1])
       && forall i :: 0 <= i < |s| - 3 ==> IsDigit(s[i])
    then Some(100 * DigitsValue(s[..|s| - 3]) + DigitsValue(s[|s| - 2..]))
    else None
  }

  /** A string of digits, a point and one or two digits reads as that
      many hundredths. */
  lemma {:induction false} ParseHundredthsOf(whole: string, frac: string)
    requires |whole| >= 1 && (forall i :: 0 <= i < |whole| ==> IsDigit(whole[i]))
    requires 1 <= |frac| <= 2 && forall i :: 0 <= i < |frac| ==> IsDigit(frac[i])
    ensures ParseHundredths(whole + "." + frac) ==
      Some(100 * DigitsValue(whole) + if |frac| == 1 then 10 * DigitsValue(frac) else DigitsValue(frac))
  {
    var s := whole + "." + frac;
    if |frac| == 1 {
      assert s[..|s| - 2] == whole;
      assert DigitsValue(frac) == s[|s| - 1] as int - '0' as int by {
        assert frac[..0] == [];
      }
    } else {
      assert s[|s| - 2] == frac[0];
      assert s[..|s| - 3] == whole;
      assert s[|s| - 2..] == frac;
    }
  }

  lemma DigitValue(d: nat)
    requires d < 10
    ensures DigitsValue([DigitChar(d)]) == d
  {
    assert [DigitChar(d)][..0] == [];
  }

  /** One decimal after the point reads as that many tenths. */
  lemma {:induction false} OneDecimalReadsBack(q: nat, d: nat)
    requires d < 10
    ensures ParseHundredths(NatString(q) + "." + [DigitChar(d)]) == Some(100 * q + 10 * d)
  {
    NatStringRoundTrip(q);
    DigitValue(d);
    ParseHundredthsOf(NatString(q), [DigitChar(d)]);
  }

  /** Two decimals after the point read as that many hundredths. */
  lemma {:induction false} TwoDecimalsReadBack(q: nat, f: nat)
    requires f < 100
    ensures ParseHundredths(NatString(q) + "." + Pad2(f)) == Some(100 * q + f)
  {
    NatStringRoundTrip(q);
    ParseHundredthsOf(NatString(q), Pad2(f));
  }

  lemma {:induction false} DecimalTextRoundTrip(q: nat, frac: nat)
    requires frac < 100
    ensures ParseHundredths(DecimalText(q, frac)) == Some(100 * q + frac)
  {
    if frac == 0 {
      assert "0" == [DigitChar(0)];
      OneDecimalReadsBack(q, 0);
    } else if frac % 10 == 0 {
      assert frac == 10 * (frac / 10);
      OneDecimalReadsBack(q, frac / 10);
    } else {
      TwoDecimalsReadBack(q, frac);
    }
  }

  /** The printed value reads back as the hundredths it was printed from. */
  lemma {:induction false} HundredthsTextRoundTrip(h: nat)
    ensures ParseHundredths(HundredthsText(h)) == Some(h)
  {
    DecimalTextRoundTrip(h / 100, h % 100);
  }

  /** The memory label reads back as the free memory in kilobytes, to
      within half a hundredth, followed by "KB". */
  lemma KilobyteTextReadsBack(free: nat)
    ensures |KilobyteText(free)| >= 2
    ensures KilobyteText(free)[|KilobyteText(free)| - 2..] == "KB"
    ensures var t := KilobyteText(free);
      ParseHundredths(t[..|t| - 2]) == Some(Hundredths(free) as nat) &&
      -0.005 <= Hundredths(free) as real / 100.0 - free as real / 1024.0 <= 0.005
  {
    var t := KilobyteText(free);
    var h := Hundredths(free);
    assert h >= 0 by {
      RoundMonotone(0.0, free as real * 100.0 / 1024.0);
      RoundNearest(0.0, 0);
    }
    HundredthsTextRoundTrip(h);
    assert t[..|t| - 2] == HundredthsText(h);
  }

  class RamWidget {
    const frame: Widget
    const freeText: Text
    const bar: Progress
    var free: nat
    var progress: real
    var total: int

    ghost predicate Valid()
      reads this, bar, frame.content
    {
      bar.Valid() && bar.width == 50 && frame.content.items == [freeText, bar]
    }

    /** A memory widget at (x, y): the free-memory label, then a progress
        bar 50 wide, 2 down, with the grey outline. */
    constructor (total: int, x: int, y: int)
      ensures Valid() && fresh(freeText) && fresh(bar)
      ensures this.total == total && free == 0 && progress == 0.0
      ensures frame.x == x && frame.y == y && frame.Shape() == Layout(0, 0, 0, "")
      ensures bar.x == 0 && bar.y == 2 && bar.Value() == 100
      ensures bar.children == [Rect(0, 0, 50, 5, Some(Palette[Grey]), None), Rect(1, 1, 48, 3, None, None)]
      ensures freeText.text == Some("...") && freeText.color == LabelDefaultColor
    {
      this.free, this.progress, this.total := 0, 0.0, total;
      var text := new Text("...", LabelDefaultColor);
      var progressBar := new Progress(0, 2, Grey, 50);
      freeText, bar := text, progressBar;
      frame := new Widget(0, 0, x, y, 0, 1, "", [text, progressBar]);
    }

    /** The `free` setter: stores the value and shows it in kilobytes. */
    method SetFree(free: nat)
      modifies this, freeText
      ensures this.free == free && freeText.text == Some(KilobyteText(free))
      ensures freeText.color == old(freeText.color)
      ensures progress == old(progress) && total == old(total)
    {
      this.free := free;
      freeText.text := Some(KilobyteText(free));
    }

    /** The `progress` setter: stores the value and sets the bar to its
        integer part. */
    method SetProgress(progress: real)
      requires Valid()
      modifies this, bar
      ensures Valid()
      ensures this.progress == progress && free == old(free) && total == old(total)
      ensures bar.children == old(bar.children)[1 := Bar(50, Trunc(progress))]
      ensures bar.Value() == old(bar.Value())
    {
      this.progress := progress;
      bar.SetValue(Trunc(progress));
    }

    /** `ram_widget.free, ram_widget.progress = free_mem()`, with the two
        figures `free_mem` returns given: the `free` setter, then the
        `progress` setter. */
    method Refresh(free: nat, progress: real)
      requires Valid()
      modifies this, freeText, bar
      ensures Valid()
      ensures this.free == free && this.progress == progress && total == old(total)
      ensures freeText.text == Some(KilobyteText(free)) && freeText.color == old(freeText.color)
      ensures bar.children == old(bar.children)[1 := Bar(50, Trunc(progress))]
    {
      SetFree(free);
      SetProgress(progress);
    }

    /** `set_total`. */
    method SetTotal(value: int)
      modifies this
      ensures total == value && free == old(free) && progress == old(progress)
    {
      total := value;
    }
  }

  /** A memory percentage in 0..100 gives a bar inside the 48-pixel inner
      width, and a larger percentage never a shorter bar. */
  lemma {:induction false} MemoryBarFits(p: real, q: real)
    requires 0.0 <= p <= q <= 100.0
    ensures 0 <= BarWidth(50, Trunc(p)) <= BarWidth(50, Trunc(q)) <= 48
  {
    BarWidthBounds(50, Trunc(p));
    BarWidthBounds(50, Trunc(q));
    BarWidthMonotone(50, Trunc(p), Trunc(q));
  }
}
