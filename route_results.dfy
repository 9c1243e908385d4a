/** The results panel: one card per route with its label, colour, visibility, duration and
    distance texts, and the "fastest" badge. */
module RouteResults {
  import opened Wrappers
  import opened Strings
  import opened RouteTypes
  import opened TransportModes

  /** `Math.floor`. */
  function Floor(x: real): int
  {
    x.Floor
  }

  /** JavaScript's `%`: the remainder takes the sign of the dividend. */
  function JsRem(x: real, d: real): (r: real)
    requires d > 0.0
    ensures 0.0 <= x ==> 0.0 <= r < d
  {
    var q := (if x >= 0.0 then (x / d).Floor else -((-x / d).Floor)) as real;
    var r := x - d * q;
    if 0.0 <= x then
      var f := x / d - q;
      ScaledFraction(d, f);
      assert r == d * f;
      r
    else r
  }

  /** A fraction of a positive amount is less than that amount. */
  lemma ScaledFraction(d: real, f: real)
    requires d > 0.0 && 0.0 <= f < 1.0
    ensures 0.0 <= d * f < d
  {
    assert d - d * f == d * (1.0 - f);
  }

  /** `Math.round`: halves go up. */
  function JsRound(x: real): (n: int)
    ensures n as real - 0.5 <= x < n as real + 0.5
  {
    (x + 0.5).Floor
  }

  /** The whole hours of a duration in seconds. */
  function Hours(seconds: real): int
  {
    Floor(seconds / 3600.0)
  }

  /** The whole minutes left once the whole hours are taken away. */
  function Minutes(seconds: real): int
  {
    Floor(JsRem(seconds, 3600.0) / 60.0)
  }

  /** `formatDuration`: the minutes always, in the form `<m>min`, after `<h>h ` when there is at
      least a whole hour. */
  function FormatDuration(seconds: real): (text: string)
    ensures EndsWith(text, IntToString(Minutes(seconds)) + "min")
    ensures Hours(seconds) > 0 ==> StartsWith(text, IntToString(Hours(seconds)) + "h ")
    ensures Hours(seconds) > 0 ==>
      |text| == |IntToString(Hours(seconds))| + 2 + |IntToString(Minutes(seconds))| + 3
    ensures Hours(seconds) <= 0 ==> text == IntToString(Minutes(seconds)) + "min"
  {
    var hours := Hours(seconds);
    var minutes := Minutes(seconds);
    if hours > 0 then
      var text := IntToString(hours) + "h " + IntToString(minutes) + "min";
      assert text[..|IntToString(hours) + "h "|] == IntToString(hours) + "h ";
      assert text[|text| - |IntToString(minutes) + "min"|..] == IntToString(minutes) + "min";
      text
    else IntToString(minutes) + "min"
  }

  /** For a duration that is not negative, the hours and minutes are the whole hours and the whole
      minutes of what is left: the seconds lie in the minute they name. */
  lemma DurationSplit(seconds: real)
    requires seconds >= 0.0
    ensures Hours(seconds) >= 0 && 0 <= Minutes(seconds) < 60
    ensures var m := 3600 * Hours(seconds) + 60 * Minutes(seconds);
      m as real <= seconds < (m + 60) as real
  {
    var h := Hours(seconds);
    var r := JsRem(seconds, 3600.0);
    assert r == seconds - 3600.0 * h as real;
    var m := Minutes(seconds);
    assert m as real <= r / 60.0 < m as real + 1.0;
  }

  /** A duration that is not negative shows an hour part exactly when it lasts an hour or more. */
  lemma DurationShowsHours(seconds: real)
    requires seconds >= 0.0
    ensures 'h' in FormatDuration(seconds) <==> seconds >= 3600.0
  {
    DurationSplit(seconds);
    var minutes := IntToString(Minutes(seconds));
    assert forall i :: 0 <= i < |minutes| ==> IsDigit(minutes[i]);
    if Hours(seconds) > 0 {
      var s := FormatDuration(seconds);
      assert s[|IntToString(Hours(seconds))|] == 'h';
    } else {
      assert FormatDuration(seconds) == minutes + "min";
      assert 'h' !in minutes;
    }
  }

  /** `formatDistance`; the `toFixed(1)` text of the kilometres is the parameter `fixed1`. From
      1000 metres on, the kilometres followed by " km"; below, digits that read back as the rounded
      metres, followed by " m". */
  function FormatDistance(meters: real, fixed1: real -> string): (text: string)
    ensures meters >= 1000.0 ==>
      && StartsWith(text, fixed1(meters / 1000.0)) && EndsWith(text, " km")
      && |text| == |fixed1(meters / 1000.0)| + 3
    ensures 0.0 <= meters < 1000.0 ==>
      && EndsWith(text, " m")
      && text[..|text| - 2] == NatToString(JsRound(meters))
      && ReadsAs(text[..|text| - 2], JsRound(meters))
  {
    if meters >= 1000.0 then
      var text := fixed1(meters / 1000.0) + " km";
      assert text[..|fixed1(meters / 1000.0)|] == fixed1(meters / 1000.0);
      text
    else
      var text := IntToString(JsRound(meters)) + " m";
      if 0.0 <= meters then
        NatToStringValue(JsRound(meters));
        assert text[..|text| - 2] == NatToString(JsRound(meters));
        text
      else text
  }

  /** `digits` is a string of decimal digits whose value is `n`. */
  predicate ReadsAs(digits: string, n: int)
  {
    (forall i :: 0 <= i < |digits| ==> IsDigit(digits[i])) && DigitsValue(digits) == n
  }

  /** The kilometre unit is used exactly from 1000 metres on. */
  lemma DistanceUnit(meters: real, fixed1: real -> string)
    ensures EndsWith(FormatDistance(meters, fixed1), " km") <==> meters >= 1000.0
  {
    var s := FormatDistance(meters, fixed1);
    if meters < 1000.0 {
      assert s[|s| - 2] == ' ';
    }
  }

  /** Below 1000 metres the rounded metres are at most 1000: from 999.5 on, the text reads "1000 m"
      rather than "1.0 km". */
  lemma MetresBelowThousand(meters: real, fixed1: real -> string)
    requires 0.0 <= meters < 1000.0
    ensures 0 <= JsRound(meters) <= 1000
    ensures meters >= 999.5 ==> FormatDistance(meters, fixed1) == "1000 m"
  {
    if meters >= 999.5 {
      assert JsRound(meters) == 1000;
      assert NatToString(1000) == "1000";
    }
  }

  /** `Math.min(...routes.map(r => r.duration))` for a non-empty list. */
  function MinDuration(routes: seq<RouteResult>): (d: real)
    requires |routes| > 0
    ensures exists i :: 0 <= i < |routes| && routes[i].duration == d
    ensures forall i :: 0 <= i < |routes| ==> d <= routes[i].duration
  {
    if |routes| == 1 then routes[0].duration
    else
      var rest := MinDuration(routes[1..]);
      assert forall i :: 1 <= i < |routes| ==> routes[i] == routes[1..][i - 1];
      if routes[0].duration <= rest then routes[0].duration else rest
  }

  /** What one card shows. */
  datatype RouteCard = RouteCard(
    mode: string,
    labelText: string,
    color: string,
    visible: bool,
    durationText: string,
    distanceText: string,
    fastest: bool)

  /** The panel: nothing for no routes, otherwise one card per route, in order. */
  function Render(routes: seq<RouteResult>, visibleRoutes: seq<string>, fixed1: real -> string): (cards: Option<seq<RouteCard>>)
    ensures cards.None? <==> |routes| == 0
    ensures cards.Some? ==> |cards.value| == |routes|
  {
    if |routes| == 0 then None
    else
      var fastest := MinDuration(routes);
      Some(seq(|routes|, i requires 0 <= i < |routes| =>
        RouteCard(routes[i].mode, GetModeLabel(routes[i].mode), routes[i].color,
                  routes[i].mode in visibleRoutes,
                  FormatDuration(routes[i].duration), FormatDistance(routes[i].distance, fixed1),
                  routes[i].duration == fastest)))
  }

  /** Each card belongs to its route: the mode, the colour and the texts are the route's, the card
      is shown as visible exactly when its mode is among the visible ones, and the badge marks
      exactly the routes whose duration is the least. */
  lemma RenderCards(routes: seq<RouteResult>, visibleRoutes: seq<string>, fixed1: real -> string, i: nat)
    requires i < |routes|
    ensures var card := Render(routes, visibleRoutes, fixed1).value[i];
      && card.mode == routes[i].mode
      && card.color == routes[i].color
      && card.labelText == GetModeLabel(routes[i].mode)
      && (card.visible <==> routes[i].mode in visibleRoutes)
      && card.durationText == FormatDuration(routes[i].duration)
      && card.distanceText == FormatDistance(routes[i].distance, fixed1)
      && (card.fastest <==> forall j :: 0 <= j < |routes| ==> routes[i].duration <= routes[j].duration)
  {
    var d := MinDuration(routes);
    var k :| 0 <= k < |routes| && routes[k].duration == d;
    assert routes[i].duration <= routes[k].duration ==> routes[i].duration == d;
  }

  /** A non-empty panel badges at least one route, and two routes with the same duration are
      badged alike. */
  lemma FastestBadge(routes: seq<RouteResult>, visibleRoutes: seq<string>, fixed1: real -> string, i: nat, j: nat)
    requires |routes| > 0 && i < |routes| && j < |routes|
    ensures exists k :: 0 <= k < |routes| && Render(routes, visibleRoutes, fixed1).value[k].fastest
    ensures routes[i].duration == routes[j].duration ==>
      (Render(routes, visibleRoutes, fixed1).value[i].fastest <==> Render(routes, visibleRoutes, fixed1).value[j].fastest)
  {
    var d := MinDuration(routes);
    var k :| 0 <= k < |routes| && routes[k].duration == d;
    assert Render(routes, visibleRoutes, fixed1).value[k].fastest;
  }
}
