# Voyage calculator: lookup and map state

A model of the decision logic inside the ENE 430 voyage-calculator dashboard
(`app.py`). The user picks a navigation method (Great Circle "GC" or Rhumb
Line "RL"), a passage (Panama Canal or Cape Horn), a destination port and a
bunker port. The dashboard then does two things:

- **Statistics boxes** (`updaterow`). It looks the four choices up in a fixed
  ten-row voyage table. It shows the first matching row's speed, miles,
  consumption and price, or "NA" in all four boxes when no row matches.
  Miles and consumption are written with comma thousands separators. The
  price is written as `$N/MT`.
- **Map** (`trip_map`, `update_map`). It draws one of four figure shapes,
  chosen by whether a row matched and whether the "Atm. Pressure" checklist
  is ticked.

The model has four modules:

- `Wrappers` holds `Option`, used for dropdowns that may be unset.
- `Format` holds Python's `str(n)`, `format(n, ",")` and the price string.
  It also holds `s.split(",")` and comma deletion, which the properties of
  the separator are stated with.
- `Voyages` holds the table (`Values`), the row filter, an ordered
  first-match scan and `UpdateRow`.
- `RouteMap` holds waypoints, traces and figures. It models the groupby loop
  and the `add_trace` loop as methods with loop invariants. `TripMap` and
  `UpdateMap` are methods proved equal to one decision-table function,
  `MapFigure`, and the map's properties are lemmas about `MapFigure`.

Inputs the dashboard reads from files are parameters. The waypoint table is
a `seq<Waypoint<C>>`, whose coordinates have an opaque type `C`. The voyage
table is a parameter of `UpdateRow`, `TripMap` and `UpdateMap`, so that the
first-match property says something about tables with repeated keys. The
fixed table is the constant `Values`. The one-decimal speed text is a
parameter `speedText: real -> string`.

Three facts about the code shape the model:

- Miles, bunker price and consumption are integers in the table
  (app.py:31-40), so `format(x, ",")` is modelled on `int`.
- In the match, overlay-off branch, app.py:298 always puts the fallback
  marker first, and the route traces follow it (`MatchNoOverlay`).
- The no-match, overlay-off branch (app.py:317-321) is the page as first
  shown, with no port chosen and the checklist empty (`InitialPageMap`).

A match whose route has no waypoints draws no route trace: with the overlay
on the figure is the overlay alone, with no scatter trace (`MatchWithOverlayNoWaypoints`), and with
it off the fallback marker alone (`MatchWithoutWaypoints`).

## Model

| member | source | states |
|---|---|---|
| `Voyages.Filter` | app.py:341-342 | the boolean mask keeps exactly the rows whose bunker, discharge, navigation and passage equal the selectors (an unset selector matches nothing); every kept row matches |
| `Voyages.FirstMatch` | app.py:341-344 | the ordered scan returns the index of a matching row with no matching row before it, and returns None exactly when no row matches |
| `Voyages.FilterHeadIsFirstMatch` | app.py:343-344 | the filtered table is empty exactly when the scan finds nothing; otherwise its row `iloc[0]` is the row the scan finds first |
| `Voyages.UpdateRow` | app.py:338-347 | on a match, the four strings are those of the first matching row in table order; otherwise they are ("NA","NA","NA","NA"); the result is "NA" four times if and only if no row matches |
| `Voyages.Display` | app.py:344 | the four boxes in order: the speed text of the row's speed, `format(miles, ",")`, `format(consumption, ",")` (each reading as `str` of that column once its commas are deleted, never "NA", and split at its commas into digit groups of one to three digits first and exactly three after, behind a leading '-' when the column is negative), then "$", `str(price)`, "/MT" |
| `Voyages.AtMostOneMatch` | app.py:341-342 | when no two rows share the four-field key, at most one row passes the filter |
| `Voyages.ValuesRouteIdsUnique` | app.py:31-40 | in the fixed table, no two rows share a route id |
| `Voyages.ValuesKeysDistinct` | app.py:31-40 | in the fixed table, no two rows share (bunker, discharge, navigation, passage) |
| `Voyages.ValuesAtMostOneMatch` | app.py:31-43 | any selection matches at most one row of the fixed table |
| `Voyages.CristobalToKashimaByGreatCircle` | app.py:31 | Cristobal to Kashima, GC, Panama Canal shows the speed text of 6.12, "8,531", "638", "$425/MT" |
| `Voyages.BusanToQingdaoViaCapeHorn` | app.py:40 | Busan to Qingdao, RL, Cape Horn shows the speed text of 10.05, "18,088", "1,800", "$390/MT" |
| `Voyages.UnknownPortsShowNA` | app.py:346-347 | unknown ports, or an unset destination or bunker dropdown, show "NA" four times |
| `Format.Decimal` | app.py:344 | `str(n)` is a non-empty string of digits without commas, a single digit exactly when n < 10, and with no leading zero unless n is 0 |
| `Format.DecimalRoundTrip` | app.py:344 | reading the digits of `str(n)` back gives n |
| `Format.IntText` | app.py:344 | `str(x)`: digits that read back as x when x is not negative, and '-' followed by digits that read back as -x otherwise |
| `Format.Grouped` | app.py:344 | `format(n, ",")` is non-empty and begins with a digit |
| `Format.Thousands` | app.py:344 | `format(x, ",")` begins with '-' exactly when x is negative, and with a digit otherwise |
| `Format.GroupedDigits` | app.py:344 | deleting the commas from `format(n, ",")` gives `str(n)` |
| `Format.GroupedGroups` | app.py:344 | `CommaGroups` holds of `format(n, ",")`: splitting `format(n, ",")` at commas gives digit groups; the first has one to three digits and every later one exactly three |
| `Format.ThousandsDigits` | app.py:344 | for every integer, negative ones included, deleting the commas from `format(x, ",")` gives `str(x)` |
| `Format.ThousandsGroups` | app.py:344 | for every integer, `format(x, ",")` splits at its commas into digit groups of one to three digits first and exactly three after, behind a leading '-' when x is negative |
| `Format.PriceTextRoundTrip` | app.py:344 | the price text is "$", then digits that read back as the price, then "/MT" |
| `Format.ThousandsExamples` | app.py:344 | 8531 becomes "8,531", 1800 becomes "1,800" and 638 becomes "638" |
| `Format.ThousandsLargeExamples` | app.py:344 | 18088 becomes "18,088" |
| `Format.PriceTextExamples` | app.py:344 | 425 becomes "$425/MT" and 390 becomes "$390/MT" |
| `RouteMap.OnRoute` | app.py:269 | the route filter keeps only waypoints of the given route id, and keeps every one of them |
| `RouteMap.OnRouteConcat` | app.py:269 | the route filter keeps stored order: filtering a concatenation concatenates the filtered parts |
| `RouteMap.RouteTraces` | app.py:269-280 | the route traces for a route id: at most one, none exactly when no waypoint carries that id, and each one listing the id's waypoints' longitudes and latitudes in stored order |
| `RouteMap.MapFigure` | app.py:249-321 | the decision table: the overlay exactly when requested, the fallback marker only as the first trace and only with the overlay off, and nothing but the marker when no row matches |
| `RouteMap.GroupByNumber` | app.py:273-275 | the groupby loop yields distinct keys, one group for every route id present, each holding that route's longitudes and latitudes in stored order |
| `RouteMap.RouteGroups` | app.py:269-275 | the matched route's waypoints become no group when it has none and one group of its coordinates in stored order otherwise |
| `RouteMap.AddRouteTraces` | app.py:277-280 | the `add_trace` loop appends one route trace per group, in order, after the traces already present, and leaves the overlay as it was |
| `RouteMap.TripMap` | app.py:249-321 | the four branches produce exactly the decision-table figure `MapFigure` |
| `RouteMap.UpdateMap` | app.py:360-369 | the map is `trip_map` with the overlay requested exactly when the checklist value is non-empty; the overlay is present if and only if the checklist is non-empty |
| `RouteMap.OverlayIffRequested` | app.py:257-296 | the pressure overlay is present if and only if it was requested |
| `RouteMap.RouteTracesAreRoutes` | app.py:278-280 | route traces are never the fallback marker |
| `RouteMap.FallbackIffNoOverlay` | app.py:298 | the fallback marker appears if and only if the overlay is off, and then it is the first trace |
| `RouteMap.NoMatchNoOverlay` | app.py:317-321 | with no matching row and the overlay off, the figure is the fallback marker alone |
| `RouteMap.MatchNoOverlay` | app.py:297-314 | with a first match at row i and the overlay off, the figure is the fallback marker followed by row i's route traces |
| `RouteMap.RoutesOnlyOnMatch` | app.py:269-280 | a route trace in the figure implies that a row matched, and the trace belongs to the first matching row's route |
| `RouteMap.MatchWithOverlayDrawsRoute` | app.py:257-282 | a match whose route has waypoints, with the overlay on, gives the overlay and at least one route trace |
| `RouteMap.MatchWithoutWaypoints` | app.py:297-314 | a match whose route has no waypoints, with the overlay off, gives the fallback marker alone and never an empty trace list |
| `RouteMap.MatchWithOverlayNoWaypoints` | app.py:257-282 | a match whose route has no waypoints, with the overlay on, gives the overlay and no scatter trace at all |
| `RouteMap.OneTracePerRouteId` | app.py:273-280 | the number of route traces equals the number of distinct route ids among the matched route's waypoints |
| `RouteMap.RouteTraceInStoredOrder` | app.py:273-280 | each route trace lists the route's longitudes and latitudes, one per waypoint, in stored order |
| `RouteMap.UnknownPortsFallbackMap` | app.py:317-321 | unknown ports with the overlay off give the fallback marker alone, with no overlay |
| `RouteMap.InitialPageMap` | app.py:317-321 | the initial page (no ports chosen, RL and Panama Canal, checklist empty) gives the fallback marker alone |

## Left out

- The Dash layout, the component tree, the callback wiring and `run_server` (app.py:49-55, 115-246, 324-336, 349-358, 372-373) are framework plumbing.
- Plotly and Mapbox figure details are not modelled: colour scales, `range_color`, opacity, `layout_map`, the "Pa" colorbar title, camera and the Mapbox token from the environment. A figure is only its overlay flag and its scatter traces. The contour overlay's own choropleth trace is the `overlay` flag.
- Loading `contour.geojson` and the routes parquet file, and `geometry.buffer(0.1)`, are file I/O and floating-point geometry in libraries. The waypoint table is a parameter.
- Speed formatting `"{:.1f}"` rounds a binary float, so it cannot be stated on Dafny's exact reals. It is the parameter `speedText`.
- `update_layout` inside the overlay-off, match loop (app.py:311-312) is styling and does not change the overlay or the traces.
- `GroupByNumber` builds groups in the order their route ids first appear, but pandas sorts group keys. The two orders are the same for the frame `trip_map` groups, because the route filter leaves one route id in it.
- `add_trace` changes a Plotly figure in place. The model passes the figure along as a value.
- `trip_map` tests `trigger is True`, which is false for truthy values that are not the boolean `True`. `update_map` only passes booleans, so `trigger` is a `bool`.
- The checklist value is a list of strings. A `None` value, which the checklist never produces, is not modelled.
