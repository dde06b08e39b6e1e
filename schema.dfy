/** The data shapes of shared/schema.ts: the rows of the `history`, `routes`
    and `route_waypoints` tables, the insert shapes (without the
    system-assigned `id` and `createdAt`), and the request bodies of the
    explore and preload operations with the validation the request schemas
    perform on a parsed JSON body.

    Coordinates are `real` (the source's double precision is not modelled);
    timestamps are integer milliseconds. */
module Schema {
  import opened Collections
  import opened Text

  datatype Language = En | Es

  /** A row of `history`. `createdAt` is filled in by the database on insert. */
  datatype HistoryItem = HistoryItem(
    id: int,
    locationName: string,
    latitude: real,
    longitude: real,
    content: string,
    audio: Option<string>,
    createdAt: int)

  /** The insert shape of `history`: a row without `id` and `createdAt`. */
  datatype InsertHistory = InsertHistory(
    locationName: string,
    latitude: real,
    longitude: real,
    content: string,
    audio: Option<string>)

  /** A row of `routes`; `transportMode` is free text ("walk", "car", "bike"). */
  datatype Route = Route(
    id: int,
    name: string,
    startLat: real,
    startLng: real,
    endLat: real,
    endLng: real,
    transportMode: string,
    createdAt: int)

  /** A row of `route_waypoints`. `routeId` references `routes.id` with
      `ON DELETE CASCADE`; `orderIndex` is never null. */
  datatype RouteWaypoint = RouteWaypoint(
    id: int,
    routeId: int,
    locationName: string,
    latitude: real,
    longitude: real,
    content: string,
    audio: Option<string>,
    orderIndex: int)

  /** One waypoint of a route to be created. */
  datatype WaypointInput = WaypointInput(
    locationName: string,
    latitude: real,
    longitude: real,
    content: string,
    audio: Option<string>)

  /** The input of route creation: the insert shape of `routes` plus its waypoints. */
  datatype CreateRouteInput = CreateRouteInput(
    name: string,
    startLat: real,
    startLng: real,
    endLat: real,
    endLng: real,
    transportMode: string,
    waypoints: seq<WaypointInput>)

  function ToRow(id: int, item: InsertHistory, createdAt: int): (row: HistoryItem)
    ensures row.id == id && row.createdAt == createdAt
    ensures row.locationName == item.locationName && row.content == item.content
    ensures row.latitude == item.latitude && row.longitude == item.longitude
    ensures row.audio == item.audio
  {
    HistoryItem(id, item.locationName, item.latitude, item.longitude, item.content, item.audio, createdAt)
  }

  datatype Coordinate = Coordinate(latitude: real, longitude: real)

  /** The body of an explore request once validated. */
  datatype ExploreRequest = ExploreRequest(latitude: real, longitude: real, language: Option<Language>)

  /** The body of a preload request once validated. */
  datatype PreloadRequest = PreloadRequest(waypoints: seq<Coordinate>, language: Option<Language>)

  const MaxPreloadWaypoints := 5

  // ---------------------------------------------------------------------
  // Request validation over a parsed JSON body
  // ---------------------------------------------------------------------

  datatype Json =
    | JNull
    | JBool(b: bool)
    | JNum(n: real)
    | JStr(s: string)
    | JArr(items: seq<Json>)
    | JObj(fields: map<string, Json>)

  /** The dotted path of the first offending field, as `path.join('.')` reports it. */
  type FieldPath = string

  /** `z.number()` on the member `key` of an object. */
  function NumberField(fields: map<string, Json>, key: string): (r: Option<real>)
    ensures r.Some? <==> key in fields && fields[key].JNum?
    ensures r.Some? ==> fields[key] == JNum(r.value)
  {
    if key in fields && fields[key].JNum? then Some(fields[key].n) else None
  }

  /** `z.enum(["en", "es"]).optional()` on the member `language`: absent is
      accepted as no language; present, it must be one of the two strings. */
  function LanguageField(fields: map<string, Json>): (r: Result<Option<Language>, FieldPath>)
    ensures r.Success? <==> "language" !in fields || fields["language"] in {JStr("en"), JStr("es")}
    ensures r == Success(None) <==> "language" !in fields
    ensures r == Success(Some(En)) <==> "language" in fields && fields["language"] == JStr("en")
    ensures r == Success(Some(Es)) <==> "language" in fields && fields["language"] == JStr("es")
  {
    if "language" !in fields then Success(None)
    else if fields["language"] == JStr("en") then Success(Some(En))
    else if fields["language"] == JStr("es") then Success(Some(Es))
    else Failure("language")
  }

  /** `exploreRequestSchema.parse(body)`: a failure names the first offending
      member in schema order (latitude, longitude, language). */
  function ParseExplore(body: Json): (r: Result<ExploreRequest, FieldPath>)
    ensures r.Success? <==>
      body.JObj? && NumberField(body.fields, "latitude").Some? &&
      NumberField(body.fields, "longitude").Some? && LanguageField(body.fields).Success?
    ensures r.Success? ==>
      body.fields["latitude"] == JNum(r.value.latitude) &&
      body.fields["longitude"] == JNum(r.value.longitude)
    ensures r.Failure? ==> r.error in {"", "latitude", "longitude", "language"}
  {
    if !body.JObj? then Failure("")
    else
      var fields := body.fields;
      match (NumberField(fields, "latitude"), NumberField(fields, "longitude"), LanguageField(fields))
      case (None, _, _) => Failure("latitude")
      case (_, None, _) => Failure("longitude")
      case (_, _, Failure(f)) => Failure(f)
      case (Some(lat), Some(lng), Success(lang)) => Success(ExploreRequest(lat, lng, lang))
  }

  /** One element of `waypoints`: an object with numeric latitude and longitude. */
  function ParseCoordinate(item: Json, path: FieldPath): (r: Result<Coordinate, FieldPath>)
    ensures r.Success? <==>
      item.JObj? && NumberField(item.fields, "latitude").Some? && NumberField(item.fields, "longitude").Some?
    ensures r.Success? ==> item.fields["latitude"] == JNum(r.value.latitude)
    ensures r.Success? ==> item.fields["longitude"] == JNum(r.value.longitude)
  {
    if !item.JObj? then Failure(path)
    else match (NumberField(item.fields, "latitude"), NumberField(item.fields, "longitude"))
      case (None, _) => Failure(path + ".latitude")
      case (_, None) => Failure(path + ".longitude")
      case (Some(lat), Some(lng)) => Success(Coordinate(lat, lng))
  }

  function ParseCoordinates(items: seq<Json>, from: nat): (r: Result<seq<Coordinate>, FieldPath>)
    requires from <= |items|
    ensures r.Success? <==> forall i :: from <= i < |items| ==> ParseCoordinate(items[i], "").Success?
    ensures r.Success? ==> |r.value| == |items| - from
    ensures r.Success? ==> forall i :: from <= i < |items| ==>
      Success(r.value[i - from]) == ParseCoordinate(items[i], "")
    decreases |items| - from
  {
    if from == |items| then Success([])
    else
      var path := "waypoints." + NatToString(from);
      match (ParseCoordinate(items[from], path), ParseCoordinates(items, from + 1))
      case (Failure(f), _) => Failure(f)
      case (_, Failure(f)) => Failure(f)
      case (Success(c), Success(cs)) => Success([c] + cs)
  }

  /** `preloadRequestSchema.parse(body)`: `waypoints` is an array of at most
      five coordinate objects, `language` as for explore. */
  function ParsePreload(body: Json): (r: Result<PreloadRequest, FieldPath>)
    ensures r.Success? ==> body.JObj? && "waypoints" in body.fields && body.fields["waypoints"].JArr?
    ensures r.Success? ==> |r.value.waypoints| == |body.fields["waypoints"].items| <= MaxPreloadWaypoints
    ensures r.Success? ==> LanguageField(body.fields) == Success(r.value.language)
    ensures (body.JObj? && "waypoints" in body.fields && body.fields["waypoints"].JArr? &&
             |body.fields["waypoints"].items| > MaxPreloadWaypoints) ==> r == Failure("waypoints")
    ensures r.Success? <==>
      body.JObj? && "waypoints" in body.fields && body.fields["waypoints"].JArr? &&
      |body.fields["waypoints"].items| <= MaxPreloadWaypoints &&
      (forall i :: 0 <= i < |body.fields["waypoints"].items| ==>
        ParseCoordinate(body.fields["waypoints"].items[i], "").Success?) &&
      LanguageField(body.fields).Success?
    ensures r.Success? ==> forall i :: 0 <= i < |r.value.waypoints| ==>
      ParseCoordinate(body.fields["waypoints"].items[i], "") == Success(r.value.waypoints[i])
  {
    if !body.JObj? then Failure("")
    else if "waypoints" !in body.fields || !body.fields["waypoints"].JArr? then Failure("waypoints")
    else
      var items := body.fields["waypoints"].items;
      if |items| > MaxPreloadWaypoints then Failure("waypoints")
      else match (ParseCoordinates(items, 0), LanguageField(body.fields))
        case (Failure(f), _) => Failure(f)
        case (_, Failure(f)) => Failure(f)
        case (Success(wps), Success(lang)) => Success(PreloadRequest(wps, lang))
  }

  // ---------------------------------------------------------------------
  // The bodies a client sends (`JSON.stringify(request)`)
  // ---------------------------------------------------------------------

  function LanguageJson(l: Language): Json {
    match l
    case En => JStr("en")
    case Es => JStr("es")
  }

  function ExploreJson(req: ExploreRequest): Json {
    var base := map["latitude" := JNum(req.latitude), "longitude" := JNum(req.longitude)];
    match req.language
    case None => JObj(base)
    case Some(l) => JObj(base["language" := LanguageJson(l)])
  }

  function CoordinateJson(c: Coordinate): Json {
    JObj(map["latitude" := JNum(c.latitude), "longitude" := JNum(c.longitude)])
  }

  function PreloadJson(req: PreloadRequest): Json {
    var wps := JArr(seq(|req.waypoints|, i requires 0 <= i < |req.waypoints| => CoordinateJson(req.waypoints[i])));
    match req.language
    case None => JObj(map["waypoints" := wps])
    case Some(l) => JObj(map["waypoints" := wps, "language" := LanguageJson(l)])
  }

  /** Every explore request a client can form is accepted as sent. */
  lemma ExploreRoundTrip(req: ExploreRequest)
    ensures ParseExplore(ExploreJson(req)) == Success(req)
  {
  }

  /** A preload request is accepted as sent exactly when it has at most five waypoints. */
  lemma PreloadRoundTrip(req: PreloadRequest)
    ensures |req.waypoints| <= MaxPreloadWaypoints ==> ParsePreload(PreloadJson(req)) == Success(req)
    ensures |req.waypoints| > MaxPreloadWaypoints ==> ParsePreload(PreloadJson(req)) == Failure("waypoints")
  {
    var body := PreloadJson(req);
    var items := body.fields["waypoints"].items;
    if |req.waypoints| <= MaxPreloadWaypoints {
      var parsed := ParseCoordinates(items, 0);
      forall i | 0 <= i < |items| ensures ParseCoordinate(items[i], "") == Success(req.waypoints[i]) {
        assert items[i] == CoordinateJson(req.waypoints[i]);
      }
      assert parsed.Success?;
      assert |parsed.value| == |req.waypoints|;
      forall i | 0 <= i < |items| ensures parsed.value[i] == req.waypoints[i] {
        assert Success(parsed.value[i]) == ParseCoordinate(items[i], "");
      }
      assert parsed.value == req.waypoints;
    }
  }
}
