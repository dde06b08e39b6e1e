/** The request handlers of Geo-Historian/server/routes.ts over the store,
    the rate limiter and the content resolver: explore (rate limit, then the
    100 m cache for English, then the resolver, then one history row),
    preload (the same for up to five waypoints, dropping the ones that yield
    nothing), the handlers that take a numeric id from the path, the history
    listing and the daily retention sweep.

    The request's client address, the clock and the two upstream endpoints
    are parameters. The fan-out of preload is modelled in two phases: every
    cache lookup reads the table as it was when the request arrived, then
    the waypoints are rate-limited, resolved and stored one after the other
    in waypoint order. */
module Handlers {
  import opened Collections
  import opened Text
  import opened Schema
  import opened Store
  import opened RateLimit
  import opened Wikipedia
  import opened Urls

  /** An HTTP response: a JSON body with a success status, an empty 204, an
      error with a message, or a 400 from request validation naming the
      offending field (the validation library's message text is not modelled). */
  datatype Response<T> =
    | Answer(status: int, value: T)
    | NoContent
    | Problem(status: int, message: string)
    | Invalid(field: FieldPath)

  /** The body of a successful explore response. */
  datatype ExploreReply = ExploreReply(locationName: string, content: string, cached: bool, historyId: int)

  /** One element of a successful preload response. */
  datatype Discovery = Discovery(
    latitude: real,
    longitude: real,
    locationName: string,
    content: string,
    cached: bool,
    historyId: int)

  const CacheRadius: real := 100.0
  const RetentionDays := 90
  const RateLimitMessage := "Rate limit exceeded. Please try again later."
  const PreloadFailedMessage := "Failed to preload discoveries"
  const InvalidIdMessage := "Invalid ID"
  const RouteNotFoundMessage := "Route not found"

  /** `language || 'en'`. */
  function Effective(language: Option<Language>): (l: Language)
    ensures language.Some? ==> l == language.value
    ensures language.None? ==> l == En
  {
    match language
    case None => En
    case Some(l) => l
  }

  /** The location name stored when nothing is found near a point. */
  function UnexploredName(lang: Language): string {
    match lang
    case Es => "Área sin explorar"
    case En => "Unexplored Area"
  }

  /** The content stored when nothing is found near a point. */
  function UnexploredContent(lang: Language): string {
    match lang
    case Es => "No se encontraron artículos de Wikipedia cerca de esta ubicación. Intenta explorar un área con más lugares de interés histórico o cultural."
    case En => "No Wikipedia articles found near this location. Try exploring an area with more historical or cultural landmarks."
  }

  /** `req.ip || req.socket.remoteAddress || 'unknown'` (an empty string counts as absent). */
  function ClientIp(ip: Option<string>, remoteAddress: Option<string>): (r: string)
    ensures r != ""
    ensures ip.Some? && ip.value != "" ==> r == ip.value
    ensures !(ip.Some? && ip.value != "") && remoteAddress.Some? && remoteAddress.value != "" ==> r == remoteAddress.value
    ensures !(ip.Some? && ip.value != "") && !(remoteAddress.Some? && remoteAddress.value != "") ==> r == "unknown"
  {
    if ip.Some? && ip.value != "" then ip.value
    else if remoteAddress.Some? && remoteAddress.value != "" then remoteAddress.value
    else "unknown"
  }

  // ---------------------------------------------------------------------
  // Explore
  // ---------------------------------------------------------------------

  /** The row found within 100 m of the point, consulted for English only. */
  function CacheHit(history: seq<HistoryItem>, lat: real, lng: real, lang: Language, dist: Distance)
    : Option<HistoryItem>
  {
    if lang == En then NearbyRow(history, lat, lng, CacheRadius, dist) else None
  }

  /** The name and content stored for a point: what the resolver found, or the placeholder. */
  function Resolved(found: Option<WikipediaLocation>, lang: Language): (string, string) {
    match found
    case None => (UnexploredName(lang), UnexploredContent(lang))
    case Some(loc) => (loc.locationName, loc.content)
  }

  /** What an explore request does: its response, the limiter's map, the
      history table and its id counter afterwards, and the upstream requests sent. */
  datatype ExploreEffect = ExploreEffect(
    response: Response<ExploreReply>,
    records: Records,
    history: seq<HistoryItem>,
    nextId: int,
    upstream: seq<Request>)

  /** The explore handler as a function of the state it reads and the request. */
  function ExploreFlow(records: Records, history: seq<HistoryItem>, nextId: int, body: Json, ip: string, now: int,
                       geo: GeoSearch, fetch: SummaryFetch, dist: Distance): ExploreEffect
  {
    match ParseExplore(body)
    case Failure(field) => ExploreEffect(Invalid(field), records, history, nextId, [])
    case Success(req) =>
      var checked := Check(records, ip, now);
      if !checked.1 then ExploreEffect(Problem(429, RateLimitMessage), checked.0, history, nextId, [])
      else ExploreServe(checked.0, history, nextId, req, now, geo, fetch, dist)
  }

  /** An admitted explore request: the cache for English, else the resolver and one new row. */
  function ExploreServe(records: Records, history: seq<HistoryItem>, nextId: int, req: ExploreRequest, now: int,
                        geo: GeoSearch, fetch: SummaryFetch, dist: Distance): (e: ExploreEffect)
    ensures e.records == records
  {
    var lang := Effective(req.language);
    var hit := CacheHit(history, req.latitude, req.longitude, lang, dist);
    if hit.Some? then
      ExploreEffect(Answer(200, ExploreReply(hit.value.locationName, hit.value.content, true, hit.value.id)),
                    records, history, nextId, [])
    else
      var named := Resolved(Explore(geo, fetch, req.latitude, req.longitude, lang), lang);
      var row := ToRow(nextId, InsertHistory(named.0, req.latitude, req.longitude, named.1, None), now);
      ExploreEffect(Answer(200, ExploreReply(named.0, named.1, false, nextId)), records, history + [row],
                    nextId + 1, Requests(geo, fetch, req.latitude, req.longitude, lang))
  }

  /** `POST /api/explore`. */
  method ExploreHandler(store: Storage, limiter: RateLimiter, body: Json, ip: string, now: int,
                        geo: GeoSearch, fetch: SummaryFetch, dist: Distance)
    returns (response: Response<ExploreReply>, upstream: seq<Request>)
    requires store.Valid() && limiter.Valid()
    modifies store, limiter
    ensures store.Valid() && limiter.Valid()
    ensures var e := ExploreFlow(old(limiter.records), old(store.history), old(store.nextHistoryId),
                                 body, ip, now, geo, fetch, dist);
      response == e.response && limiter.records == e.records && store.history == e.history &&
      store.nextHistoryId == e.nextId && upstream == e.upstream
    ensures store.routes == old(store.routes) && store.waypoints == old(store.waypoints)
    ensures store.nextRouteId == old(store.nextRouteId) && store.nextWaypointId == old(store.nextWaypointId)
  {
    upstream := [];
    var parsed := ParseExplore(body);
    if parsed.Failure? {
      return Invalid(parsed.error), upstream;
    }
    var req := parsed.value;
    var allowed := limiter.CheckRateLimit(ip, now);
    if !allowed {
      return Problem(429, RateLimitMessage), upstream;
    }
    response, upstream := ServeExplore(store, limiter.records, req, now, geo, fetch, dist);
  }

  /** An admitted `POST /api/explore` request: the cache for English, else the
      resolver and one new history row. */
  method ServeExplore(store: Storage, ghost records: Records, req: ExploreRequest, now: int,
                      geo: GeoSearch, fetch: SummaryFetch, dist: Distance)
    returns (response: Response<ExploreReply>, upstream: seq<Request>)
    requires store.Valid()
    modifies store
    ensures store.Valid()
    ensures ExploreEffect(response, records, store.history, store.nextHistoryId, upstream) ==
      ExploreServe(records, old(store.history), old(store.nextHistoryId), req, now, geo, fetch, dist)
    ensures store.routes == old(store.routes) && store.waypoints == old(store.waypoints)
    ensures store.nextRouteId == old(store.nextRouteId) && store.nextWaypointId == old(store.nextWaypointId)
  {
    upstream := [];
    ghost var history, nextId := store.history, store.nextHistoryId;
    var lang := Effective(req.language);
    if lang == En {
      var cached := store.FindNearbyLocation(req.latitude, req.longitude, CacheRadius, dist);
      if cached.Some? {
        var row := cached.value;
        ServeFromCache(records, history, nextId, req, now, geo, fetch, dist);
        return Answer(200, ExploreReply(row.locationName, row.content, true, row.id)), upstream;
      }
    }
    assert CacheHit(history, req.latitude, req.longitude, lang, dist).None?;
    var found;
    found, upstream := ExploreLocation(geo, fetch, req.latitude, req.longitude, lang);
    var named := Resolved(found, lang);
    var row := store.CreateHistory(InsertHistory(named.0, req.latitude, req.longitude, named.1, None), now);
    response := Answer(200, ExploreReply(named.0, named.1, false, row.id));
    ServeResolved(records, history, nextId, req, now, geo, fetch, dist);
  }

  /** A cache hit answers from the row found and changes nothing. */
  lemma ServeFromCache(records: Records, history: seq<HistoryItem>, nextId: int, req: ExploreRequest, now: int,
                       geo: GeoSearch, fetch: SummaryFetch, dist: Distance)
    requires CacheHit(history, req.latitude, req.longitude, Effective(req.language), dist).Some?
    ensures var row := CacheHit(history, req.latitude, req.longitude, Effective(req.language), dist).value;
      ExploreServe(records, history, nextId, req, now, geo, fetch, dist) ==
        ExploreEffect(Answer(200, ExploreReply(row.locationName, row.content, true, row.id)), records, history,
                      nextId, [])
  {
  }

  /** A miss stores one row with the next id, named after what the resolver found. */
  lemma ServeResolved(records: Records, history: seq<HistoryItem>, nextId: int, req: ExploreRequest, now: int,
                      geo: GeoSearch, fetch: SummaryFetch, dist: Distance)
    requires CacheHit(history, req.latitude, req.longitude, Effective(req.language), dist).None?
    ensures var lang := Effective(req.language);
      var named := Resolved(Explore(geo, fetch, req.latitude, req.longitude, lang), lang);
      var row := ToRow(nextId, InsertHistory(named.0, req.latitude, req.longitude, named.1, None), now);
      ExploreServe(records, history, nextId, req, now, geo, fetch, dist) ==
        ExploreEffect(Answer(200, ExploreReply(named.0, named.1, false, nextId)), records, history + [row],
                      nextId + 1, Requests(geo, fetch, req.latitude, req.longitude, lang))
  {
  }

  /** A body that fails validation gets a 400 naming the field, and nothing
      else happens: no quota is used, nothing is looked up, fetched or stored. */
  lemma ExploreInvalidChangesNothing(records: Records, history: seq<HistoryItem>, nextId: int, body: Json, ip: string,
                                     now: int, geo: GeoSearch, fetch: SummaryFetch, dist: Distance)
    requires ParseExplore(body).Failure?
    ensures ExploreFlow(records, history, nextId, body, ip, now, geo, fetch, dist) ==
      ExploreEffect(Invalid(ParseExplore(body).error), records, history, nextId, [])
    ensures ParseExplore(body).error in {"", "latitude", "longitude", "language"}
  {
  }

  /** Every valid request is counted by the rate limiter, cache hits included,
      and a denied request gets 429 before any cache lookup, upstream request
      or insert. */
  lemma ExploreRateLimitFirst(records: Records, history: seq<HistoryItem>, nextId: int, body: Json, ip: string,
                              now: int, geo: GeoSearch, fetch: SummaryFetch, dist: Distance)
    requires ParseExplore(body).Success?
    ensures ExploreFlow(records, history, nextId, body, ip, now, geo, fetch, dist).records == Check(records, ip, now).0
    ensures !Check(records, ip, now).1 ==>
      ExploreFlow(records, history, nextId, body, ip, now, geo, fetch, dist) ==
        ExploreEffect(Problem(429, RateLimitMessage), records, history, nextId, [])
  {
  }

  /** The cache is consulted only in English: a Spanish request is never
      answered from the cache, and always stores a new row. */
  lemma ExploreCacheEnglishOnly(records: Records, history: seq<HistoryItem>, nextId: int, body: Json, ip: string,
                                now: int, geo: GeoSearch, fetch: SummaryFetch, dist: Distance)
    requires ParseExplore(body).Success? && ParseExplore(body).value.language == Some(Es)
    ensures ExploreFlow(records, history, nextId, body, ip, now, geo, fetch, dist).response.Answer? ==>
      !ExploreFlow(records, history, nextId, body, ip, now, geo, fetch, dist).response.value.cached &&
      |ExploreFlow(records, history, nextId, body, ip, now, geo, fetch, dist).history| == |history| + 1
  {
  }

  /** A cache hit answers with the stored row, marked cached, and inserts
      nothing and sends nothing upstream. */
  lemma ExploreCacheHit(records: Records, history: seq<HistoryItem>, nextId: int, body: Json, ip: string,
                        now: int, geo: GeoSearch, fetch: SummaryFetch, dist: Distance, row: HistoryItem)
    requires ParseExplore(body).Success? && Check(records, ip, now).1
    requires Effective(ParseExplore(body).value.language) == En
    requires NearbyRow(history, ParseExplore(body).value.latitude, ParseExplore(body).value.longitude,
                       CacheRadius, dist) == Some(row)
    ensures ExploreFlow(records, history, nextId, body, ip, now, geo, fetch, dist).response ==
      Answer(200, ExploreReply(row.locationName, row.content, true, row.id))
    ensures ExploreFlow(records, history, nextId, body, ip, now, geo, fetch, dist).history == history
    ensures ExploreFlow(records, history, nextId, body, ip, now, geo, fetch, dist).upstream == []
    ensures row in history && Within(row, ParseExplore(body).value.latitude, ParseExplore(body).value.longitude,
                                     CacheRadius, dist)
  {
    NearbyRowIffSomeWithin(history, ParseExplore(body).value.latitude, ParseExplore(body).value.longitude,
                           CacheRadius, dist);
  }

  /** On a miss exactly one row is stored, at the request's coordinates (not
      the article's), with the next id, and the response reports that id as not
      cached; when nothing is found the row holds the placeholder of the
      request's language. */
  lemma ExploreMissStoresOneRow(records: Records, history: seq<HistoryItem>, nextId: int, body: Json, ip: string,
                                now: int, geo: GeoSearch, fetch: SummaryFetch, dist: Distance)
    requires ParseExplore(body).Success? && Check(records, ip, now).1
    requires CacheHit(history, ParseExplore(body).value.latitude, ParseExplore(body).value.longitude,
                      Effective(ParseExplore(body).value.language), dist).None?
    ensures var e := ExploreFlow(records, history, nextId, body, ip, now, geo, fetch, dist);
      |e.history| == |history| + 1 && e.history[..|history|] == history && e.nextId == nextId + 1 &&
      e.history[|history|].id == nextId && e.history[|history|].createdAt == now &&
      e.history[|history|].latitude == ParseExplore(body).value.latitude &&
      e.history[|history|].longitude == ParseExplore(body).value.longitude &&
      e.response == Answer(200, ExploreReply(e.history[|history|].locationName, e.history[|history|].content, false, nextId))
    ensures var lang := Effective(ParseExplore(body).value.language);
      Explore(geo, fetch, ParseExplore(body).value.latitude, ParseExplore(body).value.longitude, lang).None? ==>
        var e := ExploreFlow(records, history, nextId, body, ip, now, geo, fetch, dist);
        e.history[|history|].locationName == UnexploredName(lang) &&
        e.history[|history|].content == UnexploredContent(lang)
  {
    var e := ExploreFlow(records, history, nextId, body, ip, now, geo, fetch, dist);
    assert e.history[..|history|] == history;
  }

  // ---------------------------------------------------------------------
  // Preload
  // ---------------------------------------------------------------------

  /** What became of one waypoint. */
  datatype Outcome =
    | Cached(row: HistoryItem)
    | Denied
    | Unresolved
    | Created(row: HistoryItem)

  /** The state the preload handler changes. */
  datatype Tables = Tables(records: Records, history: seq<HistoryItem>, nextId: int)

  /** How a waypoint is resolved: `exploreLocation` in the request's language. */
  type Resolver = Coordinate -> Option<WikipediaLocation>

  /** Phase one: the cache lookups of all waypoints, against the table as it
      was when the request arrived. */
  function CacheHits(history: seq<HistoryItem>, points: seq<Coordinate>, lang: Language, dist: Distance)
    : (r: seq<Option<HistoryItem>>)
    ensures |r| == |points|
    ensures forall i :: 0 <= i < |points| ==>
      r[i] == CacheHit(history, points[i].latitude, points[i].longitude, lang, dist)
  {
    seq(|points|, i requires 0 <= i < |points| =>
      CacheHit(history, points[i].latitude, points[i].longitude, lang, dist))
  }

  /** What an outcome says about its waypoint: it is a cache hit exactly when
      the lookup hit and then is that row; a stored row lies at the waypoint,
      carries the request's time and holds what the resolver found there; an
      unresolved waypoint is one where the resolver found nothing. */
  ghost predicate Fits(o: Outcome, p: Coordinate, hit: Option<HistoryItem>, now: int, resolve: Resolver)
  {
    (o.Cached? <==> hit.Some?) && (o.Cached? ==> o.row == hit.value) &&
    (o.Created? ==>
      o.row.latitude == p.latitude && o.row.longitude == p.longitude && o.row.createdAt == now &&
      resolve(p).Some? && resolve(p).value.locationName == o.row.locationName &&
      resolve(p).value.content == o.row.content) &&
    (o.Unresolved? ==> resolve(p).None?)
  }

  /** Phase two for one waypoint: a cache hit is returned as it is; otherwise
      the rate limiter decides, then the resolver, then a row is stored. */
  function PreloadStep(t: Tables, p: Coordinate, hit: Option<HistoryItem>, ip: string, now: int,
                       resolve: Resolver): (r: (Outcome, Tables))
    ensures Fits(r.0, p, hit, now, resolve)
    ensures r.1.records == if hit.Some? then t.records else Check(t.records, ip, now).0
    ensures r.0.Denied? <==> hit.None? && !Check(t.records, ip, now).1
    ensures r.0.Created? ==> r.1.history == t.history + [r.0.row] && r.1.nextId == t.nextId + 1 && r.0.row.id == t.nextId
    ensures !r.0.Created? ==> r.1.history == t.history && r.1.nextId == t.nextId
  {
    if hit.Some? then (Cached(hit.value), t)
    else
      var checked := Check(t.records, ip, now);
      if !checked.1 then (Denied, t.(records := checked.0))
      else match resolve(p)
        case None => (Unresolved, t.(records := checked.0))
        case Some(loc) =>
          var row := ToRow(t.nextId, InsertHistory(loc.locationName, p.latitude, p.longitude, loc.content, None), now);
          (Created(row), Tables(checked.0, t.history + [row], t.nextId + 1))
  }

  /** Phase two for the first `n` waypoints, in order. */
  function PreloadRun(t: Tables, points: seq<Coordinate>, hits: seq<Option<HistoryItem>>, n: nat,
                      ip: string, now: int, resolve: Resolver): (r: (seq<Outcome>, Tables))
    requires n <= |points| && |hits| == |points|
    ensures |r.0| == n
    decreases n
  {
    if n == 0 then ([], t)
    else
      var before := PreloadRun(t, points, hits, n - 1, ip, now, resolve);
      var step := PreloadStep(before.1, points[n - 1], hits[n - 1], ip, now, resolve);
      (before.0 + [step.0], step.1)
  }

  /** The response element of a waypoint, if it has one. */
  function DiscoveryOf(p: Coordinate, o: Outcome): (d: Option<Discovery>)
    ensures d.None? <==> o.Denied? || o.Unresolved?
  {
    match o
    case Cached(row) => Some(Discovery(p.latitude, p.longitude, row.locationName, row.content, true, row.id))
    case Created(row) => Some(Discovery(p.latitude, p.longitude, row.locationName, row.content, false, row.id))
    case Denied => None
    case Unresolved => None
  }

  function Discoveries(points: seq<Coordinate>, outcomes: seq<Outcome>): (r: seq<Option<Discovery>>)
    requires |outcomes| == |points|
    ensures |r| == |points|
    ensures forall i :: 0 <= i < |points| ==> r[i] == DiscoveryOf(points[i], outcomes[i])
  {
    seq(|points|, i requires 0 <= i < |points| => DiscoveryOf(points[i], outcomes[i]))
  }

  datatype PreloadEffect = PreloadEffect(response: Response<seq<Discovery>>, outcomes: seq<Outcome>, tables: Tables)

  /** The preload handler as a function of the state it reads and the request. */
  function PreloadFlow(t: Tables, body: Json, ip: string, now: int, geo: GeoSearch, fetch: SummaryFetch,
                       dist: Distance): PreloadEffect
  {
    match ParsePreload(body)
    case Failure(_) => PreloadEffect(Problem(500, PreloadFailedMessage), [], t)
    case Success(req) =>
      var lang := Effective(req.language);
      var hits := CacheHits(t.history, req.waypoints, lang, dist);
      var run := PreloadRun(t, req.waypoints, hits, |req.waypoints|, ip, now, ExploreAt(geo, fetch, lang));
      PreloadEffect(Answer(200, Somes(Discoveries(req.waypoints, run.0))), run.0, run.1)
  }

  /** Phase one: every cache lookup is issued before any waypoint is resolved. */
  method LookupCache(store: Storage, points: seq<Coordinate>, lang: Language, dist: Distance)
    returns (hits: seq<Option<HistoryItem>>)
    ensures hits == CacheHits(store.history, points, lang, dist)
  {
    hits := [];
    for i := 0 to |points|
      invariant |hits| == i
      invariant forall k :: 0 <= k < i ==>
        hits[k] == CacheHit(store.history, points[k].latitude, points[k].longitude, lang, dist)
    {
      var hit := None;
      if lang == En {
        hit := store.FindNearbyLocation(points[i].latitude, points[i].longitude, CacheRadius, dist);
      }
      hits := hits + [hit];
    }
  }

  /** Phase two for one waypoint. */
  method PreloadWaypoint(store: Storage, limiter: RateLimiter, p: Coordinate, hit: Option<HistoryItem>,
                         lang: Language, ip: string, now: int, geo: GeoSearch, fetch: SummaryFetch)
    returns (outcome: Outcome)
    requires store.Valid() && limiter.Valid()
    modifies store, limiter
    ensures store.Valid() && limiter.Valid()
    ensures (outcome, Tables(limiter.records, store.history, store.nextHistoryId)) ==
      PreloadStep(Tables(old(limiter.records), old(store.history), old(store.nextHistoryId)), p, hit, ip, now,
                  ExploreAt(geo, fetch, lang))
    ensures store.routes == old(store.routes) && store.waypoints == old(store.waypoints)
    ensures store.nextRouteId == old(store.nextRouteId) && store.nextWaypointId == old(store.nextWaypointId)
  {
    if hit.Some? {
      return Cached(hit.value);
    }
    var allowed := limiter.CheckRateLimit(ip, now);
    if !allowed {
      return Denied;
    }
    var found, _ := ExploreLocation(geo, fetch, p.latitude, p.longitude, lang);
    if found.None? {
      return Unresolved;
    }
    var row := store.CreateHistory(
      InsertHistory(found.value.locationName, p.latitude, p.longitude, found.value.content, None), now);
    outcome := Created(row);
  }

  /** Phase two: the waypoints in order. */
  method ResolveWaypoints(store: Storage, limiter: RateLimiter, points: seq<Coordinate>,
                          hits: seq<Option<HistoryItem>>, lang: Language, ip: string, now: int,
                          geo: GeoSearch, fetch: SummaryFetch)
    returns (outcomes: seq<Outcome>)
    requires |hits| == |points|
    requires store.Valid() && limiter.Valid()
    modifies store, limiter
    ensures store.Valid() && limiter.Valid()
    ensures (outcomes, Tables(limiter.records, store.history, store.nextHistoryId)) ==
      PreloadRun(Tables(old(limiter.records), old(store.history), old(store.nextHistoryId)), points, hits,
                 |points|, ip, now, ExploreAt(geo, fetch, lang))
    ensures store.routes == old(store.routes) && store.waypoints == old(store.waypoints)
    ensures store.nextRouteId == old(store.nextRouteId) && store.nextWaypointId == old(store.nextWaypointId)
  {
    outcomes := [];
    ghost var start := Tables(limiter.records, store.history, store.nextHistoryId);
    for i := 0 to |points|
      invariant store.Valid() && limiter.Valid()
      invariant (outcomes, Tables(limiter.records, store.history, store.nextHistoryId)) ==
        PreloadRun(start, points, hits, i, ip, now, ExploreAt(geo, fetch, lang))
      invariant store.routes == old(store.routes) && store.waypoints == old(store.waypoints)
      invariant store.nextRouteId == old(store.nextRouteId) && store.nextWaypointId == old(store.nextWaypointId)
    {
      var outcome := PreloadWaypoint(store, limiter, points[i], hits[i], lang, ip, now, geo, fetch);
      outcomes := outcomes + [outcome];
    }
  }

  /** `POST /api/explore/preload`; also returns what became of each waypoint. */
  method PreloadHandler(store: Storage, limiter: RateLimiter, body: Json, ip: string, now: int,
                        geo: GeoSearch, fetch: SummaryFetch, dist: Distance)
    returns (response: Response<seq<Discovery>>, outcomes: seq<Outcome>)
    requires store.Valid() && limiter.Valid()
    modifies store, limiter
    ensures store.Valid() && limiter.Valid()
    ensures var e := PreloadFlow(Tables(old(limiter.records), old(store.history), old(store.nextHistoryId)),
                                 body, ip, now, geo, fetch, dist);
      response == e.response && outcomes == e.outcomes && limiter.records == e.tables.records &&
      store.history == e.tables.history && store.nextHistoryId == e.tables.nextId
    ensures store.routes == old(store.routes) && store.waypoints == old(store.waypoints)
    ensures store.nextRouteId == old(store.nextRouteId) && store.nextWaypointId == old(store.nextWaypointId)
  {
    outcomes := [];
    var parsed := ParsePreload(body);
    if parsed.Failure? {
      return Problem(500, PreloadFailedMessage), outcomes;
    }
    var points := parsed.value.waypoints;
    var lang := Effective(parsed.value.language);
    var hits := LookupCache(store, points, lang, dist);
    outcomes := ResolveWaypoints(store, limiter, points, hits, lang, ip, now, geo, fetch);
    response := Answer(200, Somes(Discoveries(points, outcomes)));
  }

  /** Number of waypoints among the first `n` that missed the cache. */
  function Misses(hits: seq<Option<HistoryItem>>, n: nat): (m: nat)
    requires n <= |hits|
    ensures m <= n
  {
    if n == 0 then 0 else Misses(hits, n - 1) + (if hits[n - 1].None? then 1 else 0)
  }

  /** The rows stored for the given outcomes, in order. */
  function CreatedRows(outcomes: seq<Outcome>): (rows: seq<HistoryItem>)
    ensures |rows| <= |outcomes|
  {
    if outcomes == [] then []
    else
      var last := outcomes[|outcomes| - 1];
      CreatedRows(outcomes[..|outcomes| - 1]) + (if last.Created? then [last.row] else [])
  }

  lemma CreatedRowsSnoc(outcomes: seq<Outcome>, o: Outcome)
    ensures CreatedRows(outcomes + [o]) == CreatedRows(outcomes) + (if o.Created? then [o.row] else [])
  {
    assert (outcomes + [o])[..|outcomes|] == outcomes;
  }

  /** Every outcome of phase two fits its waypoint and its cache lookup. */
  lemma {:induction false} PreloadOutcomesFit(t: Tables, points: seq<Coordinate>, hits: seq<Option<HistoryItem>>,
                                              n: nat, ip: string, now: int, resolve: Resolver)
    requires n <= |points| && |hits| == |points|
    ensures var outs := PreloadRun(t, points, hits, n, ip, now, resolve).0;
      forall i :: 0 <= i < n ==> Fits(outs[i], points[i], hits[i], now, resolve)
    decreases n
  {
    if n > 0 {
      PreloadOutcomesFit(t, points, hits, n - 1, ip, now, resolve);
      var before := PreloadRun(t, points, hits, n - 1, ip, now, resolve).0;
      var outs := PreloadRun(t, points, hits, n, ip, now, resolve).0;
      assert forall i :: 0 <= i < n - 1 ==> outs[i] == before[i];
    }
  }

  /** Only the waypoints that missed the cache reach the rate limiter, which
      sees them as calls at the same instant, in waypoint order. */
  lemma {:induction false} PreloadLimiterSeesMisses(t: Tables, points: seq<Coordinate>,
                                                    hits: seq<Option<HistoryItem>>, n: nat,
                                                    ip: string, now: int, resolve: Resolver)
    requires n <= |points| && |hits| == |points|
    ensures PreloadRun(t, points, hits, n, ip, now, resolve).1.records ==
      RateLimit.Run(t.records, ip, seq(Misses(hits, n), _ => now)).0
    decreases n
  {
    if n > 0 {
      PreloadLimiterSeesMisses(t, points, hits, n - 1, ip, now, resolve);
      var before := PreloadRun(t, points, hits, n - 1, ip, now, resolve);
      var step := PreloadStep(before.1, points[n - 1], hits[n - 1], ip, now, resolve);
      assert PreloadRun(t, points, hits, n, ip, now, resolve).1 == step.1;
      var m := Misses(hits, n - 1);
      if hits[n - 1].None? {
        assert Misses(hits, n) == m + 1;
        assert step.1.records == Check(before.1.records, ip, now).0;
        RunOneMore(t.records, ip, now, m);
      } else {
        assert Misses(hits, n) == m;
        assert step.1.records == before.1.records;
      }
    }
  }

  /** One more call at the same instant is one more check. */
  lemma RunOneMore(records: Records, ip: string, now: int, m: nat)
    ensures RateLimit.Run(records, ip, seq(m + 1, _ => now)).0 ==
      Check(RateLimit.Run(records, ip, seq(m, _ => now)).0, ip, now).0
  {
    var times := seq(m + 1, _ => now);
    assert times[..m] == seq(m, _ => now);
  }

  /** The history grows by exactly the stored rows, in waypoint order, with
      consecutive ids. */
  lemma {:induction false} PreloadHistoryGrows(t: Tables, points: seq<Coordinate>, hits: seq<Option<HistoryItem>>,
                                               n: nat, ip: string, now: int, resolve: Resolver)
    requires n <= |points| && |hits| == |points|
    ensures var r := PreloadRun(t, points, hits, n, ip, now, resolve);
      r.1.history == t.history + CreatedRows(r.0) && r.1.nextId == t.nextId + |CreatedRows(r.0)|
    decreases n
  {
    if n > 0 {
      PreloadHistoryGrows(t, points, hits, n - 1, ip, now, resolve);
      var before := PreloadRun(t, points, hits, n - 1, ip, now, resolve);
      var step := PreloadStep(before.1, points[n - 1], hits[n - 1], ip, now, resolve);
      assert PreloadRun(t, points, hits, n, ip, now, resolve) == (before.0 + [step.0], step.1);
      CreatedRowsSnoc(before.0, step.0);
    }
  }

  /** The response lists only the waypoints that were cached or stored, in
      waypoint order: never more than the waypoints sent (at most five), and all
      of them exactly when none was denied by the rate limiter or left unresolved. */
  lemma PreloadResponseShape(t: Tables, body: Json, ip: string, now: int, geo: GeoSearch, fetch: SummaryFetch,
                             dist: Distance)
    requires ParsePreload(body).Success?
    ensures var e := PreloadFlow(t, body, ip, now, geo, fetch, dist);
      e.response.Answer? && e.response.status == 200 &&
      |e.response.value| <= |ParsePreload(body).value.waypoints| <= MaxPreloadWaypoints
    ensures var e := PreloadFlow(t, body, ip, now, geo, fetch, dist);
      |e.response.value| == |ParsePreload(body).value.waypoints| <==>
        forall i :: 0 <= i < |e.outcomes| ==> !(e.outcomes[i].Denied? || e.outcomes[i].Unresolved?)
  {
    var req := ParsePreload(body).value;
    var e := PreloadFlow(t, body, ip, now, geo, fetch, dist);
    var ds := Discoveries(req.waypoints, e.outcomes);
    SomesLength(ds);
  }

  /** Outside English there are no cache hits, so every waypoint uses quota:
      the limiter sees one call per waypoint. */
  lemma PreloadNonEnglishCountsEveryWaypoint(t: Tables, body: Json, ip: string, now: int, geo: GeoSearch,
                                              fetch: SummaryFetch, dist: Distance)
    requires ParsePreload(body).Success? && ParsePreload(body).value.language == Some(Es)
    ensures var e := PreloadFlow(t, body, ip, now, geo, fetch, dist);
      e.tables.records == RateLimit.Run(t.records, ip, seq(|ParsePreload(body).value.waypoints|, _ => now)).0 &&
      forall i :: 0 <= i < |e.outcomes| ==> !e.outcomes[i].Cached?
  {
    var req := ParsePreload(body).value;
    var hits := CacheHits(t.history, req.waypoints, Es, dist);
    PreloadLimiterSeesMisses(t, req.waypoints, hits, |req.waypoints|, ip, now, ExploreAt(geo, fetch, Es));
    PreloadOutcomesFit(t, req.waypoints, hits, |req.waypoints|, ip, now, ExploreAt(geo, fetch, Es));
    AllMisses(hits, |hits|);
  }

  lemma {:induction false} AllMisses(hits: seq<Option<HistoryItem>>, n: nat)
    requires n <= |hits| && forall i :: 0 <= i < |hits| ==> hits[i].None?
    ensures Misses(hits, n) == n
    decreases n
  {
    if n > 0 {
      AllMisses(hits, n - 1);
    }
  }

  /** A body that fails validation is a 500 and changes nothing. */
  lemma PreloadInvalidChangesNothing(t: Tables, body: Json, ip: string, now: int, geo: GeoSearch,
                                     fetch: SummaryFetch, dist: Distance)
    requires ParsePreload(body).Failure?
    ensures PreloadFlow(t, body, ip, now, geo, fetch, dist) ==
      PreloadEffect(Problem(500, PreloadFailedMessage), [], t)
  {
  }

  // ---------------------------------------------------------------------
  // History and route handlers
  // ---------------------------------------------------------------------

  /** `Number(req.params.id)` followed by the `isNaN` check. */
  function ParseId(segment: string): (r: Option<nat>)
    ensures r.Some? <==> segment != [] && AllDigits(segment)
  {
    ParseNat(segment)
  }

  /** The `:id` segment of a request path under `prefix`. */
  function PathParam(prefix: string, url: string): (r: Option<string>)
    ensures r.Some? <==> |prefix| <= |url| && url[..|prefix|] == prefix
    ensures r.Some? ==> url == prefix + r.value
  {
    if |prefix| <= |url| && url[..|prefix|] == prefix then Some(url[|prefix|..]) else None
  }

  /** The id in a url the client builds for a history item reaches the server
      unchanged; likewise for a route. */
  lemma ClientIdReachesServer(id: nat)
    ensures var url := Substitute(HistoryItemPath, [Param("id", PInt(id))]);
      PathParam("/api/history/", url).Some? && ParseId(PathParam("/api/history/", url).value) == Some(id)
    ensures var url := Substitute(RoutePath, [Param("id", PInt(id))]);
      PathParam("/api/routes/", url).Some? && ParseId(PathParam("/api/routes/", url).value) == Some(id)
  {
    HistoryItemUrl(id);
    RouteUrl(id);
    ParseNatToString(id);
    var h := "/api/history/" + NatToString(id);
    assert h[..|"/api/history/"|] == "/api/history/" && h[|"/api/history/"|..] == NatToString(id);
    var r := "/api/routes/" + NatToString(id);
    assert r[..|"/api/routes/"|] == "/api/routes/" && r[|"/api/routes/"|..] == NatToString(id);
  }

  /** `GET /api/history`: the 50 newest rows. */
  method ListHistoryHandler(store: Storage) returns (response: Response<seq<HistoryItem>>)
    ensures response == Answer(200, LatestHistory(store.history, DefaultHistoryLimit))
  {
    var rows := store.GetHistory(DefaultHistoryLimit);
    response := Answer(200, rows);
  }

  /** `DELETE /api/history/:id`. */
  method DeleteHistoryHandler(store: Storage, segment: string) returns (response: Response<()>)
    requires store.Valid()
    modifies store
    ensures store.Valid()
    ensures ParseId(segment).None? ==>
      response == Problem(400, InvalidIdMessage) && store.history == old(store.history)
    ensures ParseId(segment).Some? ==>
      response == NoContent && store.history == Filter(old(store.history), HistoryIdIsNot(ParseId(segment).value))
    ensures store.routes == old(store.routes) && store.waypoints == old(store.waypoints)
    ensures store.nextHistoryId == old(store.nextHistoryId) && store.nextRouteId == old(store.nextRouteId)
    ensures store.nextWaypointId == old(store.nextWaypointId)
  {
    var id := ParseId(segment);
    if id.None? {
      return Problem(400, InvalidIdMessage);
    }
    store.DeleteHistory(id.value);
    response := NoContent;
  }

  /** `GET /api/routes/:id`. */
  method GetRouteHandler(store: Storage, segment: string) returns (response: Response<RouteDetail>)
    ensures ParseId(segment).None? ==> response == Problem(400, InvalidIdMessage)
    ensures ParseId(segment).Some? && RouteDetailOf(store.routes, store.waypoints, ParseId(segment).value).None? ==>
      response == Problem(404, RouteNotFoundMessage)
    ensures ParseId(segment).Some? && RouteDetailOf(store.routes, store.waypoints, ParseId(segment).value).Some? ==>
      response == Answer(200, RouteDetailOf(store.routes, store.waypoints, ParseId(segment).value).value)
  {
    var id := ParseId(segment);
    if id.None? {
      return Problem(400, InvalidIdMessage);
    }
    var result := store.GetRouteWithWaypoints(id.value);
    if result.None? {
      return Problem(404, RouteNotFoundMessage);
    }
    response := Answer(200, result.value);
  }

  /** `DELETE /api/routes/:id`. */
  method DeleteRouteHandler(store: Storage, segment: string) returns (response: Response<()>)
    requires store.Valid()
    modifies store
    ensures store.Valid()
    ensures ParseId(segment).None? ==>
      response == Problem(400, InvalidIdMessage) && store.routes == old(store.routes) &&
      store.waypoints == old(store.waypoints)
    ensures ParseId(segment).Some? ==>
      response == NoContent &&
      store.routes == Filter(old(store.routes), RouteIdIsNot(ParseId(segment).value)) &&
      store.waypoints == Filter(old(store.waypoints), NotOfRoute(ParseId(segment).value))
    ensures store.history == old(store.history)
    ensures store.nextHistoryId == old(store.nextHistoryId) && store.nextRouteId == old(store.nextRouteId)
    ensures store.nextWaypointId == old(store.nextWaypointId)
  {
    var id := ParseId(segment);
    if id.None? {
      return Problem(400, InvalidIdMessage);
    }
    store.DeleteRoute(id.value);
    response := NoContent;
  }

  /** The daily job: deletes the history older than 90 days. */
  method RetentionSweep(store: Storage, now: int) returns (deleted: nat)
    requires store.Valid()
    modifies store
    ensures store.Valid()
    ensures store.history == Filter(old(store.history), NotCreatedBefore(now - RetentionDays * MsPerDay))
    ensures deleted == Count(old(store.history), CreatedBefore(now - RetentionDays * MsPerDay))
    ensures store.routes == old(store.routes) && store.waypoints == old(store.waypoints)
    ensures store.nextHistoryId == old(store.nextHistoryId) && store.nextRouteId == old(store.nextRouteId)
    ensures store.nextWaypointId == old(store.nextWaypointId)
  {
    deleted := store.CleanupOldHistory(RetentionDays, now);
  }
}
