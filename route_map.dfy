/**
 * The map figure (`trip_map`, `update_map`), reduced to what decides its
 * shape: whether the pressure overlay is drawn and which scatter traces it
 * carries. Waypoint coordinates are opaque values of type C.
 */
module RouteMap {
  import opened Wrappers
  import opened Voyages

  /** One row of the route table: route id (`number`), longitude, latitude. */
  datatype Waypoint<C> = Waypoint(number: int, lon: C, lat: C)

  /** A scatter trace: the fixed marker at lat "45.1", lon "-80.0", or a route line. */
  datatype Trace<C> = FallbackMarker | Route(lons: seq<C>, lats: seq<C>)

  /** A figure: the pressure contour overlay (on or off) and its scatter traces in order. */
  datatype Figure<C> = Figure(overlay: bool, traces: seq<Trace<C>>)

  /** `routes[routes.number == id]`: the waypoints of one route, in stored order. */
  function OnRoute<C>(routes: seq<Waypoint<C>>, id: int): (r: seq<Waypoint<C>>)
    ensures |r| <= |routes|
    ensures forall k :: 0 <= k < |r| ==> r[k].number == id
    ensures forall k :: 0 <= k < |routes| && routes[k].number == id ==> routes[k] in r
    ensures forall k :: 0 <= k < |r| ==> r[k] in routes
  {
    if routes == [] then []
    else (if routes[0].number == id then [routes[0]] else []) + OnRoute(routes[1..], id)
  }

  function Lons<C>(ws: seq<Waypoint<C>>): (r: seq<C>)
    ensures |r| == |ws| && forall k :: 0 <= k < |ws| ==> r[k] == ws[k].lon
  {
    seq(|ws|, k requires 0 <= k < |ws| => ws[k].lon)
  }

  function Lats<C>(ws: seq<Waypoint<C>>): (r: seq<C>)
    ensures |r| == |ws| && forall k :: 0 <= k < |ws| ==> r[k] == ws[k].lat
  {
    seq(|ws|, k requires 0 <= k < |ws| => ws[k].lat)
  }

  /** The route ids present in a waypoint table. */
  function Numbers<C>(ws: seq<Waypoint<C>>): (r: set<int>) {
    set k | 0 <= k < |ws| :: ws[k].number
  }

  /**
   * The route traces drawn for route `id`: one per route id among its
   * waypoints, listing their coordinates in stored order.
   */
  function RouteTraces<C>(routes: seq<Waypoint<C>>, id: int): (r: seq<Trace<C>>)
    ensures |r| <= 1
    ensures r == [] <==> forall k :: 0 <= k < |routes| ==> routes[k].number != id
    ensures forall t :: t in r ==> t.Route? && t.lons == Lons(OnRoute(routes, id)) && t.lats == Lats(OnRoute(routes, id))
  {
    var onRoute := OnRoute(routes, id);
    if onRoute == [] then
      []
    else
      assert onRoute[0] in routes && onRoute[0].number == id;
      [Route(Lons(onRoute), Lats(onRoute))]
  }

  /** The traces a list of coordinate groups becomes, one `Scattermapbox` per group. */
  function Zip<C>(lons: seq<seq<C>>, lats: seq<seq<C>>): (r: seq<Trace<C>>)
    requires |lons| == |lats|
    ensures |r| == |lons| && forall i :: 0 <= i < |lons| ==> r[i] == Route(lons[i], lats[i])
  {
    seq(|lons|, i requires 0 <= i < |lons| => Route(lons[i], lats[i]))
  }

  /**
   * The figure `trip_map` draws, as one decision table: the overlay exactly
   * when requested, the fallback marker exactly when it is not, and the
   * matched route's traces after it exactly when a row matches.
   */
  function MapFigure<C>(values: seq<Voyage>, routes: seq<Waypoint<C>>, sel: Selection, trigger: bool): (r: Figure<C>)
    ensures r.overlay == trigger
    ensures forall i :: 0 <= i < |r.traces| && r.traces[i] == FallbackMarker ==> i == 0 && !trigger
    ensures FirstMatch(values, sel).None? ==> forall t :: t in r.traces ==> t == FallbackMarker
  {
    var marker := if trigger then [] else [FallbackMarker];
    match FirstMatch(values, sel)
    case None => Figure(trigger, marker)
    case Some(i) => Figure(trigger, marker + RouteTraces(routes, values[i].route))
  }

  // ---------------------------------------------------------------------
  // The route filter

  /** Filtering keeps stored order: it distributes over concatenation. */
  lemma {:induction false} OnRouteConcat<C>(a: seq<Waypoint<C>>, b: seq<Waypoint<C>>, id: int)
    ensures OnRoute(a + b, id) == OnRoute(a, id) + OnRoute(b, id)
  {
    if a == [] {
      assert a + b == b;
    } else {
      assert (a + b)[1..] == a[1..] + b;
      OnRouteConcat(a[1..], b, id);
    }
  }

  lemma OnRouteOne<C>(w: Waypoint<C>, id: int)
    ensures OnRoute([w], id) == if w.number == id then [w] else []
  {
    assert [w][1..] == [];
  }

  lemma {:induction false} OnRouteNone<C>(ws: seq<Waypoint<C>>, id: int)
    requires forall k :: 0 <= k < |ws| ==> ws[k].number != id
    ensures OnRoute(ws, id) == []
  {
    if ws != [] {
      OnRouteNone(ws[1..], id);
    }
  }

  lemma {:induction false} OnRouteAll<C>(ws: seq<Waypoint<C>>, id: int)
    requires forall k :: 0 <= k < |ws| ==> ws[k].number == id
    ensures OnRoute(ws, id) == ws
  {
    if ws != [] {
      OnRouteAll(ws[1..], id);
      assert [ws[0]] + ws[1..] == ws;
    }
  }

  /** Appending a waypoint extends exactly the filter of its own route id. */
  lemma OnRouteSnoc<C>(ws: seq<Waypoint<C>>, w: Waypoint<C>, id: int)
    ensures OnRoute(ws + [w], id) == OnRoute(ws, id) + (if w.number == id then [w] else [])
  {
    OnRouteConcat(ws, [w], id);
    OnRouteOne(w, id);
  }

  // ---------------------------------------------------------------------
  // Building the traces (app.py:269-280)

  /**
   * `keys`, `lons` and `lats` are the groups of `rows` by route id: distinct
   * keys, every route id of `rows` among them, and each group holding that
   * route's longitudes and latitudes in stored order.
   */
  ghost predicate Grouping<C>(rows: seq<Waypoint<C>>, keys: seq<int>, lons: seq<seq<C>>, lats: seq<seq<C>>) {
    && |keys| == |lons| == |lats| <= |rows|
    && (forall a, b :: 0 <= a < b < |keys| ==> keys[a] != keys[b])
    && (forall k :: 0 <= k < |rows| ==> rows[k].number in keys)
    && (forall j :: 0 <= j < |keys| ==> OnRoute(rows, keys[j]) != [])
    && (forall j :: 0 <= j < |keys| ==>
          lons[j] == Lons(OnRoute(rows, keys[j])) && lats[j] == Lats(OnRoute(rows, keys[j])))
  }

  /** A row whose route id already has a group joins the end of that group. */
  lemma GroupingJoin<C>(rows: seq<Waypoint<C>>, w: Waypoint<C>, keys: seq<int>, lons: seq<seq<C>>, lats: seq<seq<C>>, j: nat)
    requires Grouping(rows, keys, lons, lats)
    requires j < |keys| && keys[j] == w.number
    ensures Grouping(rows + [w], keys, lons[j := lons[j] + [w.lon]], lats[j := lats[j] + [w.lat]])
  {
    var rows', lons', lats' := rows + [w], lons[j := lons[j] + [w.lon]], lats[j := lats[j] + [w.lat]];
    forall k | 0 <= k < |rows'| ensures rows'[k].number in keys {
      if k < |rows| {
        assert rows'[k] == rows[k];
      }
    }
    forall g | 0 <= g < |keys|
      ensures OnRoute(rows', keys[g]) != []
      ensures lons'[g] == Lons(OnRoute(rows', keys[g])) && lats'[g] == Lats(OnRoute(rows', keys[g]))
    {
      OnRouteSnoc(rows, w, keys[g]);
      if g == j {
        assert OnRoute(rows', w.number) == OnRoute(rows, w.number) + [w];
      } else {
        assert keys[g] != w.number;
        assert OnRoute(rows', keys[g]) == OnRoute(rows, keys[g]);
      }
    }
  }

  /** A row with a new route id opens a new group at the end. */
  lemma GroupingOpen<C>(rows: seq<Waypoint<C>>, w: Waypoint<C>, keys: seq<int>, lons: seq<seq<C>>, lats: seq<seq<C>>)
    requires Grouping(rows, keys, lons, lats)
    requires w.number !in keys
    ensures Grouping(rows + [w], keys + [w.number], lons + [[w.lon]], lats + [[w.lat]])
  {
    var rows', keys', lons', lats' := rows + [w], keys + [w.number], lons + [[w.lon]], lats + [[w.lat]];
    assert forall a, b :: 0 <= a < b < |keys'| ==> keys'[a] != keys'[b];
    forall k | 0 <= k < |rows'| ensures rows'[k].number in keys' {
      if k < |rows| {
        assert rows'[k] == rows[k];
      }
    }
    forall j | 0 <= j < |keys'|
      ensures OnRoute(rows', keys'[j]) != []
      ensures lons'[j] == Lons(OnRoute(rows', keys'[j])) && lats'[j] == Lats(OnRoute(rows', keys'[j]))
    {
      OnRouteSnoc(rows, w, keys'[j]);
      if j == |keys| {
        assert forall k :: 0 <= k < |rows| ==> rows[k].number != w.number;
        OnRouteNone(rows, w.number);
        assert OnRoute(rows', w.number) == [w];
      } else {
        assert keys'[j] == keys[j] != w.number;
        assert OnRoute(rows', keys[j]) == OnRoute(rows, keys[j]);
      }
    }
  }

  /**
   * `for index, row in frame.groupby("number")`: one group per route id of
   * the frame, each group's longitudes and latitudes in stored order.
   */
  method GroupByNumber<C>(rows: seq<Waypoint<C>>) returns (keys: seq<int>, lons: seq<seq<C>>, lats: seq<seq<C>>)
    ensures Grouping(rows, keys, lons, lats)
  {
    keys, lons, lats := [], [], [];
    for i := 0 to |rows|
      invariant Grouping(rows[..i], keys, lons, lats)
    {
      var w := rows[i];
      assert rows[..i + 1] == rows[..i] + [w];
      var found := IndexOf(keys, w.number);
      match found
      case Some(j) =>
        GroupingJoin(rows[..i], w, keys, lons, lats, j);
        lons := lons[j := lons[j] + [w.lon]];
        lats := lats[j := lats[j] + [w.lat]];
      case None =>
        GroupingOpen(rows[..i], w, keys, lons, lats);
        keys := keys + [w.number];
        lons := lons + [[w.lon]];
        lats := lats + [[w.lat]];
    }
    assert rows[..|rows|] == rows;
  }

  /** The position of `x` in `keys`, if it is there (the lookup of a row's group). */
  function IndexOf(keys: seq<int>, x: int): (r: Option<nat>)
    ensures r.Some? ==> r.value < |keys| && keys[r.value] == x
    ensures r.None? ==> x !in keys
  {
    if keys == [] then None
    else if keys[0] == x then Some(0)
    else match IndexOf(keys[1..], x)
      case None => None
      case Some(j) => Some(j + 1)
  }

  /** A sequence without repeated elements has as many elements as its set. */
  lemma {:induction false} DistinctCard(s: seq<int>)
    requires forall a, b :: 0 <= a < b < |s| ==> s[a] != s[b]
    ensures |set x | x in s| == |s|
  {
    if s != [] {
      var rest := s[1..];
      DistinctCard(rest);
      assert (set x | x in s) == {s[0]} + (set x | x in rest);
      assert s[0] !in rest by {
        forall b | 0 <= b < |rest| ensures rest[b] != s[0] {
          assert rest[b] == s[b + 1];
        }
      }
    }
  }

  /** Lines 269-275: the matched route's waypoints grouped by route id. */
  method RouteGroups<C>(routes: seq<Waypoint<C>>, id: int) returns (lons: seq<seq<C>>, lats: seq<seq<C>>)
    ensures |lons| == |lats| && Zip(lons, lats) == RouteTraces(routes, id)
  {
    var onRoute := OnRoute(routes, id);
    var keys;
    keys, lons, lats := GroupByNumber(onRoute);
    OnRouteAll(onRoute, id);
    if onRoute == [] {
      assert Zip(lons, lats) == [];
    } else {
      assert onRoute[0].number in keys;
      forall j | 0 <= j < |keys| ensures keys[j] == id {
        if keys[j] != id {
          OnRouteNone(onRoute, keys[j]);
        }
      }
      assert (set x | x in keys) == {id};
      DistinctCard(keys);
      assert Zip(lons, lats) == [Route(Lons(onRoute), Lats(onRoute))];
    }
  }

  /** `for i in range(len(lons)): fig.add_trace(...)`: one route trace per group, appended in order. */
  method AddRouteTraces<C>(fig: Figure<C>, lons: seq<seq<C>>, lats: seq<seq<C>>) returns (out: Figure<C>)
    requires |lons| == |lats|
    ensures out.overlay == fig.overlay
    ensures out.traces == fig.traces + Zip(lons, lats)
  {
    out := fig;
    for i := 0 to |lons|
      invariant out.overlay == fig.overlay
      invariant out.traces == fig.traces + Zip(lons[..i], lats[..i])
    {
      assert Zip(lons[..i + 1], lats[..i + 1]) == Zip(lons[..i], lats[..i]) + [Route(lons[i], lats[i])];
      out := Figure(out.overlay, out.traces + [Route(lons[i], lats[i])]);
    }
    assert lons[..|lons|] == lons && lats[..|lats|] == lats;
  }

  /** `trip_map`: the four branches on (a row matches) x (overlay requested). */
  method TripMap<C>(values: seq<Voyage>, routes: seq<Waypoint<C>>, sel: Selection, trigger: bool)
    returns (fig: Figure<C>)
    ensures fig == MapFigure(values, routes, sel, trigger)
  {
    var matched := Filter(values, sel);
    FilterHeadIsFirstMatch(values, sel);
    if |matched| != 0 && trigger {
      fig := Figure(true, []);
      var lons, lats := RouteGroups(routes, matched[0].route);
      fig := AddRouteTraces(fig, lons, lats);
    } else if |matched| == 0 && trigger {
      fig := Figure(true, []);
    } else if |matched| != 0 && !trigger {
      fig := Figure(false, [FallbackMarker]);
      var lons, lats := RouteGroups(routes, matched[0].route);
      fig := AddRouteTraces(fig, lons, lats);
    } else {
      fig := Figure(false, [FallbackMarker]);
    }
  }

  /** `update_map`: the overlay is requested exactly when the checklist value is non-empty. */
  method UpdateMap<C>(
    values: seq<Voyage>, routes: seq<Waypoint<C>>,
    gc: Option<string>, pc: Option<string>, dest: Option<string>, bunker: Option<string>,
    triggerVal: seq<string>)
    returns (fig: Figure<C>)
    ensures fig == MapFigure(values, routes, Selection(bunker, dest, gc, pc), triggerVal != [])
    ensures fig.overlay <==> triggerVal != []
  {
    if triggerVal == [] {
      fig := TripMap(values, routes, Selection(bunker, dest, gc, pc), false);
    } else {
      fig := TripMap(values, routes, Selection(bunker, dest, gc, pc), true);
    }
  }

  // ---------------------------------------------------------------------
  // Properties of the decision table

  /** The pressure overlay is drawn if and only if it was requested. */
  lemma OverlayIffRequested<C>(values: seq<Voyage>, routes: seq<Waypoint<C>>, sel: Selection, trigger: bool)
    ensures MapFigure(values, routes, sel, trigger).overlay <==> trigger
  {
  }

  /** Route traces are never the fallback marker. */
  lemma RouteTracesAreRoutes<C>(routes: seq<Waypoint<C>>, id: int)
    ensures forall t :: t in RouteTraces(routes, id) ==> t.Route?
  {
  }

  /** The fallback marker appears if and only if the overlay is off, and then as the first trace. */
  lemma FallbackIffNoOverlay<C>(values: seq<Voyage>, routes: seq<Waypoint<C>>, sel: Selection, trigger: bool)
    ensures var fig := MapFigure(values, routes, sel, trigger);
      && (FallbackMarker in fig.traces <==> !trigger)
      && (!trigger ==> fig.traces[0] == FallbackMarker)
  {
  }

  /** With the overlay off and no matching row, the figure is the fallback marker alone. */
  lemma NoMatchNoOverlay<C>(values: seq<Voyage>, routes: seq<Waypoint<C>>, sel: Selection)
    requires forall j :: 0 <= j < |values| ==> !Matches(values[j], sel)
    ensures MapFigure(values, routes, sel, false) == Figure(false, [FallbackMarker])
  {
  }

  /** With the overlay off and a match, the fallback marker comes first, then the route traces. */
  lemma MatchNoOverlay<C>(values: seq<Voyage>, routes: seq<Waypoint<C>>, sel: Selection, i: nat)
    requires i < |values| && Matches(values[i], sel)
    requires forall j :: 0 <= j < i ==> !Matches(values[j], sel)
    ensures MapFigure(values, routes, sel, false)
      == Figure(false, [FallbackMarker] + RouteTraces(routes, values[i].route))
  {
  }

  /** Any route trace in the figure belongs to the first matching row's route. */
  lemma RoutesOnlyOnMatch<C>(values: seq<Voyage>, routes: seq<Waypoint<C>>, sel: Selection, trigger: bool, t: Trace<C>)
    requires t in MapFigure(values, routes, sel, trigger).traces && t.Route?
    ensures FirstMatch(values, sel).Some?
    ensures t in RouteTraces(routes, values[FirstMatch(values, sel).value].route)
  {
  }

  /** A matched route with waypoints and the overlay on: the overlay and at least one route trace. */
  lemma MatchWithOverlayDrawsRoute<C>(values: seq<Voyage>, routes: seq<Waypoint<C>>, sel: Selection, i: nat)
    requires FirstMatch(values, sel) == Some(i)
    requires exists k :: 0 <= k < |routes| && routes[k].number == values[i].route
    ensures var fig := MapFigure(values, routes, sel, true);
      fig.overlay && exists t :: t in fig.traces && t.Route?
  {
    var k :| 0 <= k < |routes| && routes[k].number == values[i].route;
    assert routes[k] in OnRoute(routes, values[i].route);
    assert MapFigure(values, routes, sel, true).traces[0].Route?;
  }

  /** A matched route with no waypoints and the overlay off still shows the fallback marker. */
  lemma MatchWithoutWaypoints<C>(values: seq<Voyage>, routes: seq<Waypoint<C>>, sel: Selection, i: nat)
    requires FirstMatch(values, sel) == Some(i)
    requires forall k :: 0 <= k < |routes| ==> routes[k].number != values[i].route
    ensures MapFigure(values, routes, sel, false) == Figure(false, [FallbackMarker])
  {
    OnRouteNone(routes, values[i].route);
  }

  /** A matched route with no waypoints and the overlay on: the overlay and no route trace. */
  lemma MatchWithOverlayNoWaypoints<C>(values: seq<Voyage>, routes: seq<Waypoint<C>>, sel: Selection, i: nat)
    requires FirstMatch(values, sel) == Some(i)
    requires forall k :: 0 <= k < |routes| ==> routes[k].number != values[i].route
    ensures MapFigure(values, routes, sel, true) == Figure(true, [])
  {
    OnRouteNone(routes, values[i].route);
  }

  /** There is one route trace per distinct route id among the matched route's waypoints. */
  lemma OneTracePerRouteId<C>(routes: seq<Waypoint<C>>, id: int)
    ensures |RouteTraces(routes, id)| == |Numbers(OnRoute(routes, id))|
  {
    var onRoute := OnRoute(routes, id);
    if onRoute != [] {
      assert Numbers(onRoute) == {id} by {
        assert onRoute[0].number in Numbers(onRoute);
      }
    }
  }

  /** Each route trace lists exactly the route's waypoints, in stored order. */
  lemma RouteTraceInStoredOrder<C>(routes: seq<Waypoint<C>>, id: int, t: Trace<C>)
    requires t in RouteTraces(routes, id)
    ensures t.Route? && |t.lons| == |t.lats| == |OnRoute(routes, id)|
    ensures forall k :: 0 <= k < |t.lons| ==> t.lons[k] == OnRoute(routes, id)[k].lon && t.lats[k] == OnRoute(routes, id)[k].lat
  {
  }

  // ---------------------------------------------------------------------
  // Scenarios

  /** Unknown ports with the overlay off: only the fallback marker, no overlay. */
  lemma UnknownPortsFallbackMap<C>(routes: seq<Waypoint<C>>)
    ensures MapFigure(Values, routes, Selection(Some("Unknown"), Some("Nowhere"), Some("GC"), Some("Cape Horn")), false)
      == Figure(false, [FallbackMarker])
  {
    var sel := Selection(Some("Unknown"), Some("Nowhere"), Some("GC"), Some("Cape Horn"));
    assert forall j :: 0 <= j < |Values| ==> !Matches(Values[j], sel);
    NoMatchNoOverlay(Values, routes, sel);
  }

  /** The page as first shown (no port chosen, overlay off) takes the no-match, overlay-off branch. */
  lemma InitialPageMap<C>(routes: seq<Waypoint<C>>)
    ensures MapFigure(Values, routes, Selection(None, None, Some("RL"), Some("Panama Canal")), false)
      == Figure(false, [FallbackMarker])
  {
  }
}
