/** The location/route store of Geo-Historian/server/storage.ts as an
    in-memory database: the `history`, `routes` and `route_waypoints` tables
    are sequences of rows in scan order, `serial` ids come from counters that
    start at 1, and `defaultNow()` is the parameter `now`. The distance used
    by the proximity lookup (haversine in the source) is a parameter. */
module Store {
  import opened Collections
  import opened Schema

  /** Distance in metres between (lat1, lon1) and (lat2, lon2). */
  type Distance = (real, real, real, real) -> real

  const DefaultHistoryLimit: nat := 50
  const MsPerDay := 24 * 60 * 60 * 1000

  /** A route with its waypoints, as `getRouteWithWaypoints` returns it. */
  datatype RouteDetail = RouteDetail(route: Route, waypoints: seq<RouteWaypoint>)

  // ---------------------------------------------------------------------
  // Row predicates and keys used in WHERE and ORDER BY clauses
  // ---------------------------------------------------------------------

  predicate Within(row: HistoryItem, lat: real, lng: real, radius: real, dist: Distance) {
    dist(lat, lng, row.latitude, row.longitude) <= radius
  }

  /** `desc(history.createdAt)` as an ascending key. */
  function NewestFirstKey(row: HistoryItem): int { -row.createdAt }

  /** `desc(routes.createdAt)` as an ascending key. */
  function RouteNewestFirstKey(route: Route): int { -route.createdAt }

  function OrderKey(w: RouteWaypoint): int { w.orderIndex }

  function HistoryIdIsNot(id: int): HistoryItem -> bool { (row: HistoryItem) => row.id != id }

  function RouteIdIs(id: int): Route -> bool { (r: Route) => r.id == id }

  function RouteIdIsNot(id: int): Route -> bool { (r: Route) => r.id != id }

  function OfRoute(id: int): RouteWaypoint -> bool { (w: RouteWaypoint) => w.routeId == id }

  function NotOfRoute(id: int): RouteWaypoint -> bool { (w: RouteWaypoint) => w.routeId != id }

  function CreatedBefore(cutoff: int): HistoryItem -> bool { (row: HistoryItem) => row.createdAt < cutoff }

  function NotCreatedBefore(cutoff: int): HistoryItem -> bool { (row: HistoryItem) => !(row.createdAt < cutoff) }

  function RouteIds(routes: seq<Route>): set<int> {
    set r | r in routes :: r.id
  }

  // ---------------------------------------------------------------------
  // The queries as functions of the tables
  // ---------------------------------------------------------------------

  /** Index of the first row in scan order within `radius` of (lat, lng). */
  function FirstWithin(rows: seq<HistoryItem>, lat: real, lng: real, radius: real, dist: Distance): (r: Option<nat>)
    ensures r.Some? ==> r.value < |rows| && Within(rows[r.value], lat, lng, radius, dist)
    ensures r.Some? ==> forall j :: 0 <= j < r.value ==> !Within(rows[j], lat, lng, radius, dist)
    ensures r.None? <==> forall j :: 0 <= j < |rows| ==> !Within(rows[j], lat, lng, radius, dist)
  {
    if rows == [] then None
    else if Within(rows[0], lat, lng, radius, dist) then Some(0)
    else match FirstWithin(rows[1..], lat, lng, radius, dist)
      case None => None
      case Some(i) => Some(i + 1)
  }

  /** `findNearbyLocation(lat, lng, radius)` over the rows `rows`. */
  function NearbyRow(rows: seq<HistoryItem>, lat: real, lng: real, radius: real, dist: Distance): Option<HistoryItem> {
    match FirstWithin(rows, lat, lng, radius, dist)
    case None => None
    case Some(i) => Some(rows[i])
  }

  /** `getHistory(limit)`: newest first, at most `limit` rows. */
  function LatestHistory(rows: seq<HistoryItem>, limit: nat): (r: seq<HistoryItem>)
    ensures |r| == if limit < |rows| then limit else |rows|
  {
    SortBy(rows, NewestFirstKey)[..if limit < |rows| then limit else |rows|]
  }

  /** A prefix of rows sorted newest first is newest first and leaves out
      no row newer than one it keeps. */
  lemma NewestPrefix(sorted: seq<HistoryItem>, n: nat)
    requires SortedBy(sorted, NewestFirstKey) && n <= |sorted|
    ensures multiset(sorted[..n]) <= multiset(sorted)
    ensures forall i, j :: 0 <= i < j < n ==> sorted[..n][i].createdAt >= sorted[..n][j].createdAt
    ensures forall x, y :: (x in multiset(sorted) - multiset(sorted[..n]) && y in sorted[..n]) ==>
      x.createdAt <= y.createdAt
  {
    var r := sorted[..n];
    assert sorted == r + sorted[n..];
    assert multiset(sorted) == multiset(r) + multiset(sorted[n..]);
    forall i, j | 0 <= i < j < n ensures r[i].createdAt >= r[j].createdAt {
      assert NewestFirstKey(sorted[i]) <= NewestFirstKey(sorted[j]);
    }
    forall x, y | x in multiset(sorted) - multiset(r) && y in r ensures x.createdAt <= y.createdAt {
      PrefixKeepsSmallest(sorted, NewestFirstKey, n);
      assert NewestFirstKey(y) <= NewestFirstKey(x);
    }
  }

  /** `getHistory(limit)` returns rows of the table, newest first, and leaves
      out no row newer than one it returns. */
  lemma LatestHistoryIsNewest(rows: seq<HistoryItem>, limit: nat)
    ensures multiset(LatestHistory(rows, limit)) <= multiset(rows)
    ensures forall i, j :: 0 <= i < j < |LatestHistory(rows, limit)| ==>
      LatestHistory(rows, limit)[i].createdAt >= LatestHistory(rows, limit)[j].createdAt
    ensures forall x, y ::
      (x in multiset(rows) - multiset(LatestHistory(rows, limit)) && y in LatestHistory(rows, limit))
      ==> x.createdAt <= y.createdAt
  {
    var sorted := SortBy(rows, NewestFirstKey);
    var n := if limit < |rows| then limit else |rows|;
    assert LatestHistory(rows, limit) == sorted[..n];
    NewestPrefix(sorted, n);
  }

  /** `getRouteWithWaypoints(id)` over the tables `routes` and `waypoints`. */
  function RouteDetailOf(routes: seq<Route>, waypoints: seq<RouteWaypoint>, id: int): (r: Option<RouteDetail>)
    ensures r.Some? ==> r.value.route.id == id
  {
    var matches := Filter(routes, RouteIdIs(id));
    if matches == [] then None
    else
      assert matches[0] in matches;
      Some(RouteDetail(matches[0], SortBy(Filter(waypoints, OfRoute(id)), OrderKey)))
  }

  /** No route with the id reads back as none; otherwise the result is a row
      of the table with that id, with exactly that route's waypoints, in
      ascending order index. */
  lemma RouteDetailOfSpec(routes: seq<Route>, waypoints: seq<RouteWaypoint>, id: int)
    ensures RouteDetailOf(routes, waypoints, id).None? <==> forall r :: r in routes ==> r.id != id
    ensures RouteDetailOf(routes, waypoints, id).Some? ==> RouteDetailOf(routes, waypoints, id).value.route in routes
    ensures RouteDetailOf(routes, waypoints, id).Some? ==>
      multiset(RouteDetailOf(routes, waypoints, id).value.waypoints) == multiset(Filter(waypoints, OfRoute(id)))
    ensures RouteDetailOf(routes, waypoints, id).Some? ==>
      forall w :: w in RouteDetailOf(routes, waypoints, id).value.waypoints <==> w in waypoints && w.routeId == id
    ensures RouteDetailOf(routes, waypoints, id).Some? ==>
      forall i, j :: 0 <= i < j < |RouteDetailOf(routes, waypoints, id).value.waypoints| ==>
        RouteDetailOf(routes, waypoints, id).value.waypoints[i].orderIndex <=
        RouteDetailOf(routes, waypoints, id).value.waypoints[j].orderIndex
  {
    var matches := Filter(routes, RouteIdIs(id));
    if matches != [] {
      assert matches[0] in matches;
      var own := SortBy(Filter(waypoints, OfRoute(id)), OrderKey);
      forall i, j | 0 <= i < j < |own| ensures own[i].orderIndex <= own[j].orderIndex {
        assert OrderKey(own[i]) <= OrderKey(own[j]);
      }
      forall w ensures w in own <==> w in waypoints && w.routeId == id {
        assert w in own <==> w in multiset(own);
        assert w in Filter(waypoints, OfRoute(id)) <==> w in multiset(Filter(waypoints, OfRoute(id)));
      }
    }
  }

  /** The waypoint rows `createRoute` inserts: the k-th input gets order index k. */
  function WaypointRows(routeId: int, firstId: int, wps: seq<WaypointInput>): (rows: seq<RouteWaypoint>)
    ensures |rows| == |wps|
    ensures forall k :: 0 <= k < |rows| ==>
      rows[k].id == firstId + k && rows[k].routeId == routeId && rows[k].orderIndex == k
    ensures forall k :: 0 <= k < |rows| ==>
      rows[k].locationName == wps[k].locationName && rows[k].content == wps[k].content &&
      rows[k].latitude == wps[k].latitude && rows[k].longitude == wps[k].longitude &&
      rows[k].audio == wps[k].audio
  {
    seq(|wps|, k requires 0 <= k < |wps| =>
      RouteWaypoint(firstId + k, routeId, wps[k].locationName, wps[k].latitude,
                    wps[k].longitude, wps[k].content, wps[k].audio, k))
  }

  /** The rows after `updateHistoryAudio(id, audio)`. */
  function WithAudio(rows: seq<HistoryItem>, id: int, audio: string): (r: seq<HistoryItem>)
    ensures |r| == |rows|
    ensures forall i :: 0 <= i < |rows| && rows[i].id == id ==> r[i] == rows[i].(audio := Some(audio))
    ensures forall i :: 0 <= i < |rows| && rows[i].id != id ==> r[i] == rows[i]
  {
    seq(|rows|, i requires 0 <= i < |rows| =>
      if rows[i].id == id then rows[i].(audio := Some(audio)) else rows[i])
  }

  // ---------------------------------------------------------------------
  // Properties of the queries
  // ---------------------------------------------------------------------

  /** Filters whose predicates agree on every element agree. */
  lemma {:induction false} FilterCongruent<T(!new)>(s: seq<T>, p: T -> bool, q: T -> bool)
    requires forall i :: 0 <= i < |s| ==> p(s[i]) == q(s[i])
    ensures Filter(s, p) == Filter(s, q)
  {
    if s != [] {
      FilterCongruent(s[1..], p, q);
    }
  }

  /** A proximity hit exists exactly when some row lies within the radius; an
      empty table never hits. */
  lemma NearbyRowIffSomeWithin(rows: seq<HistoryItem>, lat: real, lng: real, radius: real, dist: Distance)
    ensures NearbyRow(rows, lat, lng, radius, dist).Some? <==>
      exists i :: 0 <= i < |rows| && Within(rows[i], lat, lng, radius, dist)
    ensures NearbyRow(rows, lat, lng, radius, dist).Some? ==>
      NearbyRow(rows, lat, lng, radius, dist).value in rows &&
      Within(NearbyRow(rows, lat, lng, radius, dist).value, lat, lng, radius, dist)
    ensures rows == [] ==> NearbyRow(rows, lat, lng, radius, dist).None?
  {
  }

  /** The route lookup of a table to which a route with a new id was appended finds that route. */
  lemma {:induction false} RoutesReadBack(routes: seq<Route>, route: Route)
    requires forall i :: 0 <= i < |routes| ==> routes[i].id != route.id
    ensures Filter(routes + [route], RouteIdIs(route.id)) == [route]
  {
    FilterAppend(routes, [route], RouteIdIs(route.id));
    FilterNone(routes, RouteIdIs(route.id));
    assert [route][1..] == [];
    assert Filter([route], RouteIdIs(route.id)) == [route] + Filter([route][1..], RouteIdIs(route.id));
  }

  /** The waypoint lookup of a new route finds exactly the rows inserted with it, in order. */
  lemma {:induction false} WaypointsReadBack(waypoints: seq<RouteWaypoint>, routeId: int,
                                             firstId: int, wps: seq<WaypointInput>)
    requires forall i :: 0 <= i < |waypoints| ==> waypoints[i].routeId != routeId
    ensures SortBy(Filter(waypoints + WaypointRows(routeId, firstId, wps), OfRoute(routeId)), OrderKey)
            == WaypointRows(routeId, firstId, wps)
  {
    var rows := WaypointRows(routeId, firstId, wps);
    FilterAppend(waypoints, rows, OfRoute(routeId));
    FilterNone(waypoints, OfRoute(routeId));
    FilterAll(rows, OfRoute(routeId));
    assert Filter(waypoints + rows, OfRoute(routeId)) == rows;
    assert SortedBy(rows, OrderKey) by {
      forall i, j | 0 <= i < j < |rows| ensures OrderKey(rows[i]) <= OrderKey(rows[j]) {
      }
    }
    SortBySorted(rows, OrderKey);
  }

  /** Reading back a route just created gives that route and its waypoints in
      the order they were submitted, with order indexes 0, 1, 2, ... */
  lemma ReadBackCreatedRoute(routes: seq<Route>, waypoints: seq<RouteWaypoint>, route: Route,
                             firstId: int, wps: seq<WaypointInput>)
    requires forall i :: 0 <= i < |routes| ==> routes[i].id != route.id
    requires forall i :: 0 <= i < |waypoints| ==> waypoints[i].routeId != route.id
    ensures RouteDetailOf(routes + [route], waypoints + WaypointRows(route.id, firstId, wps), route.id)
            == Some(RouteDetail(route, WaypointRows(route.id, firstId, wps)))
  {
    RoutesReadBack(routes, route);
    WaypointsReadBack(waypoints, route.id, firstId, wps);
  }

  /** Deleting the routes with id `id` leaves the lookup of any other id unchanged. */
  lemma {:induction false} RoutesDeleteIsolated(routes: seq<Route>, id: int, other: int)
    requires other != id
    ensures Filter(Filter(routes, RouteIdIsNot(id)), RouteIdIs(other)) == Filter(routes, RouteIdIs(other))
    decreases |routes|
  {
    if routes != [] {
      RoutesDeleteIsolated(routes[1..], id, other);
    }
  }

  /** Deleting the waypoints of route `id` leaves the waypoints of any other route unchanged. */
  lemma {:induction false} WaypointsDeleteIsolated(waypoints: seq<RouteWaypoint>, id: int, other: int)
    requires other != id
    ensures Filter(Filter(waypoints, NotOfRoute(id)), OfRoute(other)) == Filter(waypoints, OfRoute(other))
    decreases |waypoints|
  {
    if waypoints != [] {
      WaypointsDeleteIsolated(waypoints[1..], id, other);
    }
  }

  /** After a route is deleted with its waypoints, it is not found, and every
      other route reads back exactly as before. */
  lemma CascadeDeleteIsolated(routes: seq<Route>, waypoints: seq<RouteWaypoint>, id: int, other: int)
    ensures RouteDetailOf(Filter(routes, RouteIdIsNot(id)), Filter(waypoints, NotOfRoute(id)), id).None?
    ensures other != id ==>
      RouteDetailOf(Filter(routes, RouteIdIsNot(id)), Filter(waypoints, NotOfRoute(id)), other)
      == RouteDetailOf(routes, waypoints, other)
  {
    var kept := Filter(routes, RouteIdIsNot(id));
    FilterNone(kept, RouteIdIs(id));
    if other != id {
      RoutesDeleteIsolated(routes, id, other);
      WaypointsDeleteIsolated(waypoints, id, other);
    }
  }

  /** The retention sweep deletes exactly the rows created before the cutoff:
      the count it reports is their number, and what remains is every other row. */
  lemma CleanupPartition(rows: seq<HistoryItem>, cutoff: int)
    ensures |rows| - |Filter(rows, NotCreatedBefore(cutoff))| == Count(rows, CreatedBefore(cutoff))
    ensures forall x :: x in Filter(rows, NotCreatedBefore(cutoff)) <==> x in rows && x.createdAt >= cutoff
  {
    FilterCount(rows, CreatedBefore(cutoff));
    FilterCongruent(rows, x => !CreatedBefore(cutoff)(x), NotCreatedBefore(cutoff));
  }

  /** Every waypoint references an existing route: the foreign key of
      `route_waypoints.route_id`. */
  ghost predicate RouteKeysHold(routes: seq<Route>, waypoints: seq<RouteWaypoint>) {
    forall i :: 0 <= i < |waypoints| ==> waypoints[i].routeId in RouteIds(routes)
  }

  /** Inserting a route, then waypoints that reference it, keeps the foreign key. */
  lemma AppendRouteKeepsKeys(routes: seq<Route>, waypoints: seq<RouteWaypoint>, route: Route,
                             rows: seq<RouteWaypoint>)
    requires RouteKeysHold(routes, waypoints)
    requires forall k :: 0 <= k < |rows| ==> rows[k].routeId == route.id
    ensures RouteKeysHold(routes + [route], waypoints + rows)
  {
    var all := waypoints + rows;
    forall i | 0 <= i < |all| ensures all[i].routeId in RouteIds(routes + [route]) {
      if i < |waypoints| {
        assert all[i] == waypoints[i];
        var r :| r in routes && r.id == waypoints[i].routeId;
        assert r in routes + [route];
      } else {
        assert all[i] == rows[i - |waypoints|];
        assert route in routes + [route];
      }
    }
  }

  /** A route id that is not below the id counter references no waypoint. */
  lemma FreshRouteHasNoWaypoints(routes: seq<Route>, waypoints: seq<RouteWaypoint>, id: int)
    requires RouteKeysHold(routes, waypoints)
    requires forall i :: 0 <= i < |routes| ==> routes[i].id < id
    ensures forall i :: 0 <= i < |waypoints| ==> waypoints[i].routeId != id
  {
    forall i | 0 <= i < |waypoints| ensures waypoints[i].routeId != id {
      assert waypoints[i].routeId in RouteIds(routes);
      var r :| r in routes && r.id == waypoints[i].routeId;
      var k :| 0 <= k < |routes| && routes[k] == r;
    }
  }

  /** Deleting a route and the waypoints that reference it keeps the foreign key. */
  lemma DeleteRouteKeepsKeys(routes: seq<Route>, waypoints: seq<RouteWaypoint>, id: int)
    requires RouteKeysHold(routes, waypoints)
    ensures RouteKeysHold(Filter(routes, RouteIdIsNot(id)), Filter(waypoints, NotOfRoute(id)))
  {
    var kept := Filter(routes, RouteIdIsNot(id));
    var left := Filter(waypoints, NotOfRoute(id));
    forall i | 0 <= i < |left| ensures left[i].routeId in RouteIds(kept) {
      var w := left[i];
      assert w in waypoints && w.routeId != id;
      var k :| 0 <= k < |waypoints| && waypoints[k] == w;
      assert w.routeId in RouteIds(routes);
      var r :| r in routes && r.id == w.routeId;
      assert r in kept;
    }
  }

  /** The invariant of the tables: serial ids lie in [1, counter) and every
      waypoint references an existing route. */
  ghost predicate TablesValid(history: seq<HistoryItem>, routes: seq<Route>, waypoints: seq<RouteWaypoint>,
                              nextHistoryId: int, nextRouteId: int, nextWaypointId: int)
  {
    1 <= nextHistoryId && 1 <= nextRouteId && 1 <= nextWaypointId &&
    (forall i :: 0 <= i < |history| ==> 1 <= history[i].id < nextHistoryId) &&
    (forall i :: 0 <= i < |routes| ==> 1 <= routes[i].id < nextRouteId) &&
    (forall i :: 0 <= i < |waypoints| ==> 1 <= waypoints[i].id < nextWaypointId) &&
    RouteKeysHold(routes, waypoints)
  }

  /** Dropping the history rows older than the cutoff keeps every table's
      invariant and removes as many rows as are older than the cutoff. */
  lemma CleanupKeepsValid(history: seq<HistoryItem>, routes: seq<Route>, waypoints: seq<RouteWaypoint>,
                          nextHistoryId: int, nextRouteId: int, nextWaypointId: int, cutoff: int)
    requires TablesValid(history, routes, waypoints, nextHistoryId, nextRouteId, nextWaypointId)
    ensures TablesValid(Filter(history, NotCreatedBefore(cutoff)), routes, waypoints,
                        nextHistoryId, nextRouteId, nextWaypointId)
    ensures |history| - |Filter(history, NotCreatedBefore(cutoff))| == Count(history, CreatedBefore(cutoff))
  {
    var kept := Filter(history, NotCreatedBefore(cutoff));
    CleanupPartition(history, cutoff);
    forall i | 0 <= i < |kept| ensures 1 <= kept[i].id < nextHistoryId {
      assert kept[i] in history;
    }
  }

  lemma CreateRouteKeepsValid(history: seq<HistoryItem>, routes: seq<Route>, waypoints: seq<RouteWaypoint>,
                              nextHistoryId: int, nextRouteId: int, nextWaypointId: int,
                              route: Route, wps: seq<WaypointInput>)
    requires TablesValid(history, routes, waypoints, nextHistoryId, nextRouteId, nextWaypointId)
    requires route.id == nextRouteId
    ensures TablesValid(history, routes + [route], waypoints + WaypointRows(route.id, nextWaypointId, wps),
                        nextHistoryId, nextRouteId + 1, nextWaypointId + |wps|)
  {
    var rows := WaypointRows(route.id, nextWaypointId, wps);
    AppendRouteKeepsKeys(routes, waypoints, route, rows);
    var rs := routes + [route];
    forall i | 0 <= i < |rs| ensures 1 <= rs[i].id < nextRouteId + 1 {
      if i < |routes| { assert rs[i] == routes[i]; }
    }
    var ws := waypoints + rows;
    forall i | 0 <= i < |ws| ensures 1 <= ws[i].id < nextWaypointId + |wps| {
      if i < |waypoints| { assert ws[i] == waypoints[i]; } else { assert ws[i] == rows[i - |waypoints|]; }
    }
  }

  /** What route creation establishes: the tables stay valid and the new
      route reads back with exactly the waypoints inserted with it. */
  lemma CreateRouteEffect(history: seq<HistoryItem>, routes: seq<Route>, waypoints: seq<RouteWaypoint>,
                          nextHistoryId: int, nextRouteId: int, nextWaypointId: int,
                          route: Route, wps: seq<WaypointInput>,
                          routes': seq<Route>, waypoints': seq<RouteWaypoint>, nextRouteId': int, nextWaypointId': int)
    requires TablesValid(history, routes, waypoints, nextHistoryId, nextRouteId, nextWaypointId)
    requires route.id == nextRouteId
    requires routes' == routes + [route] && nextRouteId' == nextRouteId + 1
    requires waypoints' == waypoints + WaypointRows(route.id, nextWaypointId, wps)
    requires nextWaypointId' == nextWaypointId + |wps|
    ensures TablesValid(history, routes', waypoints', nextHistoryId, nextRouteId', nextWaypointId')
    ensures RouteDetailOf(routes', waypoints', route.id)
            == Some(RouteDetail(route, WaypointRows(route.id, nextWaypointId, wps)))
  {
    assert forall i :: 0 <= i < |routes| ==> routes[i].id < route.id;
    FreshRouteHasNoWaypoints(routes, waypoints, route.id);
    ReadBackCreatedRoute(routes, waypoints, route, nextWaypointId, wps);
    CreateRouteKeepsValid(history, routes, waypoints, nextHistoryId, nextRouteId, nextWaypointId, route, wps);
  }

  lemma DeleteRouteKeepsValid(history: seq<HistoryItem>, routes: seq<Route>, waypoints: seq<RouteWaypoint>,
                              nextHistoryId: int, nextRouteId: int, nextWaypointId: int, id: int)
    requires TablesValid(history, routes, waypoints, nextHistoryId, nextRouteId, nextWaypointId)
    ensures TablesValid(history, Filter(routes, RouteIdIsNot(id)), Filter(waypoints, NotOfRoute(id)),
                        nextHistoryId, nextRouteId, nextWaypointId)
  {
    DeleteRouteKeepsKeys(routes, waypoints, id);
    var rs := Filter(routes, RouteIdIsNot(id));
    var ws := Filter(waypoints, NotOfRoute(id));
    forall i | 0 <= i < |rs| ensures 1 <= rs[i].id < nextRouteId {
      assert rs[i] in routes;
      var k :| 0 <= k < |routes| && routes[k] == rs[i];
    }
    forall i | 0 <= i < |ws| ensures 1 <= ws[i].id < nextWaypointId {
      assert ws[i] in waypoints;
      var k :| 0 <= k < |waypoints| && waypoints[k] == ws[i];
    }
  }

  // ---------------------------------------------------------------------
  // The store
  // ---------------------------------------------------------------------

  class Storage {
    var history: seq<HistoryItem>
    var routes: seq<Route>
    var waypoints: seq<RouteWaypoint>
    var nextHistoryId: int
    var nextRouteId: int
    var nextWaypointId: int

    ghost predicate Valid()
      reads this
    {
      TablesValid(history, routes, waypoints, nextHistoryId, nextRouteId, nextWaypointId)
    }

    constructor ()
      ensures Valid()
      ensures history == [] && routes == [] && waypoints == []
    {
      history, routes, waypoints := [], [], [];
      nextHistoryId, nextRouteId, nextWaypointId := 1, 1, 1;
    }

    /** `getHistory(limit)`. */
    method GetHistory(limit: nat) returns (rows: seq<HistoryItem>)
      ensures rows == LatestHistory(history, limit)
      ensures |rows| <= limit && |rows| <= |history|
      ensures forall i, j :: 0 <= i < j < |rows| ==> rows[i].createdAt >= rows[j].createdAt
    {
      rows := LatestHistory(history, limit);
      forall i, j | 0 <= i < j < |rows| ensures rows[i].createdAt >= rows[j].createdAt {
        assert NewestFirstKey(rows[i]) <= NewestFirstKey(rows[j]);
      }
    }

    /** `createHistory(item)`: inserts a row with the next id, stamped `now`. */
    method CreateHistory(item: InsertHistory, now: int) returns (row: HistoryItem)
      requires Valid()
      modifies this
      ensures Valid()
      ensures row == ToRow(old(nextHistoryId), item, now)
      ensures history == old(history) + [row] && nextHistoryId == old(nextHistoryId) + 1
      ensures routes == old(routes) && waypoints == old(waypoints)
      ensures nextRouteId == old(nextRouteId) && nextWaypointId == old(nextWaypointId)
    {
      row := ToRow(nextHistoryId, item, now);
      history := history + [row];
      nextHistoryId := nextHistoryId + 1;
    }

    /** `deleteHistory(id)`: removes the rows with that id and nothing else. */
    method DeleteHistory(id: int)
      requires Valid()
      modifies this
      ensures Valid()
      ensures history == Filter(old(history), HistoryIdIsNot(id))
      ensures routes == old(routes) && waypoints == old(waypoints)
      ensures nextHistoryId == old(nextHistoryId) && nextRouteId == old(nextRouteId)
      ensures nextWaypointId == old(nextWaypointId)
    {
      history := Filter(history, HistoryIdIsNot(id));
      assert forall i :: 0 <= i < |history| ==> history[i] in old(history);
    }

    /** `findNearbyLocation(lat, lng, radius)`: the first row in scan order
        within `radius` metres, or none. */
    method FindNearbyLocation(lat: real, lng: real, radius: real, dist: Distance)
      returns (found: Option<HistoryItem>)
      ensures found == NearbyRow(history, lat, lng, radius, dist)
      ensures found.Some? ==> found.value in history && Within(found.value, lat, lng, radius, dist)
      ensures found.None? <==> forall row :: row in history ==> !Within(row, lat, lng, radius, dist)
    {
      for i := 0 to |history|
        invariant forall j :: 0 <= j < i ==> !Within(history[j], lat, lng, radius, dist)
      {
        var item := history[i];
        if dist(lat, lng, item.latitude, item.longitude) <= radius {
          return Some(item);
        }
      }
      return None;
    }

    /** `updateHistoryAudio(id, audio)`: sets the audio of the rows with that
        id; no other field and no other row changes. */
    method UpdateHistoryAudio(id: int, audio: string)
      requires Valid()
      modifies this
      ensures Valid()
      ensures history == WithAudio(old(history), id, audio)
      ensures routes == old(routes) && waypoints == old(waypoints)
      ensures nextHistoryId == old(nextHistoryId) && nextRouteId == old(nextRouteId)
      ensures nextWaypointId == old(nextWaypointId)
    {
      history := WithAudio(history, id, audio);
    }

    /** `cleanupOldHistory(daysOld)` at time `now`: deletes the rows created
        more than `daysOld` days before `now` and returns how many it deleted. */
    method CleanupOldHistory(daysOld: int, now: int) returns (deleted: nat)
      requires Valid()
      modifies this
      ensures Valid()
      ensures history == Filter(old(history), NotCreatedBefore(now - daysOld * MsPerDay))
      ensures deleted == Count(old(history), CreatedBefore(now - daysOld * MsPerDay))
      ensures deleted == |old(history)| - |history|
      ensures routes == old(routes) && waypoints == old(waypoints)
      ensures nextHistoryId == old(nextHistoryId) && nextRouteId == old(nextRouteId)
      ensures nextWaypointId == old(nextWaypointId)
    {
      var cutoff := now - daysOld * MsPerDay;
      var before := history;
      history := Filter(history, NotCreatedBefore(cutoff));
      CleanupKeepsValid(before, routes, waypoints, nextHistoryId, nextRouteId, nextWaypointId, cutoff);
      deleted := |before| - |history|;
    }

    /** `getRoutes()`: every route, newest first. */
    method GetRoutes() returns (rows: seq<Route>)
      ensures multiset(rows) == multiset(routes)
      ensures forall i, j :: 0 <= i < j < |rows| ==> rows[i].createdAt >= rows[j].createdAt
    {
      rows := SortBy(routes, RouteNewestFirstKey);
      forall i, j | 0 <= i < j < |rows| ensures rows[i].createdAt >= rows[j].createdAt {
        assert RouteNewestFirstKey(rows[i]) <= RouteNewestFirstKey(rows[j]);
      }
    }

    /** `getRouteWithWaypoints(id)`: none when no route has that id; otherwise
        the route and its own waypoints in ascending order index. */
    method GetRouteWithWaypoints(id: int) returns (result: Option<RouteDetail>)
      ensures result == RouteDetailOf(routes, waypoints, id)
      ensures result.None? <==> forall r :: r in routes ==> r.id != id
      ensures result.Some? ==> result.value.route in routes && result.value.route.id == id
      ensures result.Some? ==> forall w :: w in result.value.waypoints <==> w in waypoints && w.routeId == id
      ensures result.Some? ==> forall i, j :: 0 <= i < j < |result.value.waypoints| ==>
        result.value.waypoints[i].orderIndex <= result.value.waypoints[j].orderIndex
    {
      result := RouteDetailOf(routes, waypoints, id);
      RouteDetailOfSpec(routes, waypoints, id);
    }

    /** `createRoute(input)`: inserts the route, then one waypoint row per
        input waypoint with `orderIndex` its position; returns the route row. */
    method CreateRoute(input: CreateRouteInput, now: int) returns (route: Route)
      requires Valid()
      modifies this
      ensures Valid()
      ensures route == Route(old(nextRouteId), input.name, input.startLat, input.startLng,
                             input.endLat, input.endLng, input.transportMode, now)
      ensures routes == old(routes) + [route] && nextRouteId == old(nextRouteId) + 1
      ensures waypoints == old(waypoints) + WaypointRows(route.id, old(nextWaypointId), input.waypoints)
      ensures nextWaypointId == old(nextWaypointId) + |input.waypoints|
      ensures history == old(history) && nextHistoryId == old(nextHistoryId)
      ensures RouteDetailOf(routes, waypoints, route.id)
              == Some(RouteDetail(route, WaypointRows(route.id, old(nextWaypointId), input.waypoints)))
    {
      route := Route(nextRouteId, input.name, input.startLat, input.startLng,
                     input.endLat, input.endLng, input.transportMode, now);
      var rows := WaypointRows(route.id, nextWaypointId, input.waypoints);
      // The source skips the insert for an empty list; appending no rows has the same effect.
      routes, nextRouteId, waypoints, nextWaypointId := routes + [route], nextRouteId + 1, waypoints + rows,
                                                          nextWaypointId + |rows|;
      CreateRouteEffect(history, old(routes), old(waypoints), nextHistoryId, old(nextRouteId), old(nextWaypointId),
                        route, input.waypoints, routes, waypoints, nextRouteId, nextWaypointId);
    }

    /** `deleteRoute(id)`: removes the route; its waypoints go with it
        (`ON DELETE CASCADE`). */
    method DeleteRoute(id: int)
      requires Valid()
      modifies this
      ensures Valid()
      ensures routes == Filter(old(routes), RouteIdIsNot(id))
      ensures waypoints == Filter(old(waypoints), NotOfRoute(id))
      ensures history == old(history)
      ensures nextHistoryId == old(nextHistoryId) && nextRouteId == old(nextRouteId)
      ensures nextWaypointId == old(nextWaypointId)
    {
      DeleteRouteKeepsValid(history, routes, waypoints, nextHistoryId, nextRouteId, nextWaypointId, id);
      routes := Filter(routes, RouteIdIsNot(id));
      waypoints := Filter(waypoints, NotOfRoute(id));
    }
  }
}
