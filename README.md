# Geo-Historian core, modelled in Dafny

Geo-Historian is a map-based history explorer. A client sends a coordinate
and the server answers with a short text about the nearest notable place. The
text comes from a cache of earlier discoveries within 100 m, or else from
Wikipedia. The answer is stored in a history table. The server also stores
user-saved routes with their waypoints, and serves a batch endpoint that
resolves up to five route waypoints at once.

This project models that core:

- `collections.dfy` (module `Collections`): filtering, counting, dropping
  empty results and stable sorting by a key. These are the sequence
  operations the store and the handlers are written in.
- `text.dfy` (module `Text`): substring search, lower-casing, decimal
  rendering and decimal parsing.
- `schema.dfy` (module `Schema`): the rows of the `history`, `routes` and
  `route_waypoints` tables. It also holds the validation of the explore and
  preload request bodies over a JSON value, with the field a failure names.
- `rate_limit.dfy` (module `RateLimit`): the per-client fixed-window limiter,
  30 calls per hour. It is a class holding the map, plus its hourly sweep.
- `storage.dfy` (module `Store`): the database layer as a class whose three
  tables are sequences and whose `serial` ids are counters. It covers history
  listing, insert, delete, proximity lookup, audio update and retention
  cleanup. It also covers route listing, read-back with waypoints ordered by
  index, creation with waypoints and cascading delete. A ghost invariant
  states the `route_id` foreign key and the id counters.
- `wikipedia.dfy` (module `Wikipedia`): the content resolver. It runs a
  1000 m geosearch for three candidates, then a 5000 m search only if the
  first one is empty. Candidates are tried in order until one has a
  non-empty extract, and the description is prefixed unless the extract
  already mentions it. The two endpoints are function parameters. The
  methods also return the upstream requests they send.
- `urls.dfy` (module `Urls`): the client's path-parameter substitution,
  `buildUrl`.
- `planner.dfy` (module `RoutePlanner`): the client's evenly spaced waypoint
  generator.
- `handlers.dfy` (module `Handlers`): the HTTP handlers.
  - Explore checks the rate limit, then the English-only cache, then the
    resolver, then stores exactly one history row.
  - Preload does the same per waypoint and drops the waypoints that are
    denied or unresolved.
  - The numeric-id endpoints, the history listing and the 90-day retention
    job are modelled too.

Each stateful operation is a method proved against a function of the old
state, and the properties are lemmas about those functions. Examples:

- the 31st call in a window is denied;
- a cache hit inserts nothing;
- every cache miss costs one rate-limit call;
- the wide search happens only after an empty near search;
- a deleted route leaves every other route's read-back unchanged;
- a client-built URL carries the id that the server parses.

The clock, the client address, the haversine distance and the two Wikipedia
endpoints are parameters.

The comment at `Geo-Historian/server/routes.ts` line 71 says "Check database
cache first". The `checkRateLimit` call at line 65 runs before that lookup,
so cache hits also use quota. The model follows the order of the calls
(`Handlers.ExploreRateLimitFirst`).

## Model

| member | source | states |
|---|---|---|
| Collections.Filter | Geo-Historian/server/storage.ts:62 | a row is kept exactly when it is in the table and satisfies the condition, and no row is kept more often than it occurs |
| Collections.FilterAppend | Geo-Historian/server/storage.ts:62 | filtering distributes over concatenation, so appended rows keep their order |
| Collections.FilterCount | Geo-Historian/server/storage.ts:88-92 | the rows kept number the rows matching, and kept plus removed rows make up the whole table |
| Collections.Somes | Geo-Historian/server/routes.ts:193 | `filter(Boolean)` keeps exactly the present results |
| Collections.MapAppend | Geo-Historian/server/wikipedia.ts:172-174 | `map` over a concatenation is the concatenation of the maps, so results keep the order of their inputs |
| Collections.SomesAppend | Geo-Historian/server/routes.ts:193 | the kept results of two lists are those of each, in order |
| Collections.SomesLength | Geo-Historian/server/routes.ts:193 | the filtered list has one element per present result, and is as long as the input exactly when nothing was dropped |
| Collections.SortBy | Geo-Historian/server/storage.ts:50 | ordering is a permutation of the rows, sorted by the key |
| Collections.SortBySorted | Geo-Historian/server/storage.ts:111 | a stable sort of an already sorted list leaves it unchanged |
| Collections.PrefixKeepsSmallest | Geo-Historian/server/storage.ts:50-51 | `orderBy` then `limit` keeps rows no later in the order than any row it leaves out |
| Text.IndexOf | shared/routes.ts:135 | the result is the leftmost occurrence, and None exactly when there is none |
| Text.IncludesIffOccurs | shared/routes.ts:134 | `includes` holds exactly when the pattern occurs somewhere |
| Text.ParseNat | Geo-Historian/server/routes.ts:223-224 | a path segment is accepted as an id exactly when it is a non-empty string of decimal digits |
| Text.ParseNatToString | Geo-Historian/server/routes.ts:223 | parsing the decimal text of an id gives the id back |
| Text.ParseNatLeadingZero | Geo-Historian/server/routes.ts:223 | leading zeros do not change the id read, as `Number("007")` is 7 |
| Text.IntToString | shared/routes.ts:135 | `String(value)` of an integer below 10^21 in magnitude is made of digits and an optional sign |
| Schema.ToRow | shared/schema.ts:6-14 | an inserted history row carries the inserted fields, its id and its creation time |
| Schema.ParseExplore | shared/schema.ts:39-43 | a body is accepted exactly when latitude and longitude are numbers and language is absent, "en" or "es"; a failure names latitude, longitude or language |
| Schema.ParsePreload | shared/schema.ts:48-54 | a body is accepted exactly when it is an object whose `waypoints` is an array of at most five objects with numeric `latitude` and `longitude` and whose `language` is absent, `en` or `es`; each parsed waypoint carries its element's numbers, in order; a longer array fails on `waypoints` |
| Schema.ExploreRoundTrip | shared/schema.ts:39-43 | every explore request a client can form validates to itself |
| Schema.PreloadRoundTrip | shared/schema.ts:48-54 | a preload request validates to itself exactly when it has at most five waypoints |
| RateLimit.Check | Geo-Historian/server/routes.ts:13-28 | a new or expired window restarts at count 1 with the reset an hour later; a full window denies and changes nothing; otherwise the count goes up by one |
| RateLimit.CheckKeepsBounded | Geo-Historian/server/routes.ts:22-26 | no count ever exceeds 30 |
| RateLimit.WindowCap | Geo-Historian/server/routes.ts:17-27 | within an open window, the calls allowed never exceed the room the window has left |
| RateLimit.FreshWindowCap | Geo-Historian/server/routes.ts:10-11 | a window allows at most 30 calls in its hour |
| RateLimit.BurstAllowed | Geo-Historian/server/routes.ts:17-27 | 30 calls at once from a fresh client are all allowed |
| RateLimit.ThirtyFirstDenied | Geo-Historian/server/routes.ts:22-24 | the 31st call of a window is denied |
| RateLimit.AllowedAfterExpiry | Geo-Historian/server/routes.ts:17-19 | after the reset time a client is allowed again in a new window |
| RateLimit.Swept | Geo-Historian/server/routes.ts:31-39 | the sweep removes exactly the expired records and keeps the others as they were |
| RateLimit.SweepUnobservable | Geo-Historian/server/routes.ts:31-39 | later calls get the same verdicts and leave the same record whether or not the sweep ran |
| RateLimit.RateLimiter.CheckRateLimit | Geo-Historian/server/routes.ts:13-28 | the map and the verdict are those of `Check` |
| RateLimit.RateLimiter.Sweep | Geo-Historian/server/routes.ts:31-39 | the map becomes `Swept` of the old map |
| Store.FirstWithin | Geo-Historian/server/storage.ts:65-76 | the lookup returns the first row in scan order within the radius, and none exactly when no row is within it |
| Store.NearbyRowIffSomeWithin | Geo-Historian/server/storage.ts:69-75 | a row is found exactly when some row is within the radius, and the row found is one of them |
| Store.LatestHistory | Geo-Historian/server/storage.ts:47-52 | the listing has min(limit, table size) rows |
| Store.LatestHistoryIsNewest | Geo-Historian/server/storage.ts:47-52 | the listed rows come from the table, newest first, and none left out is newer than one listed |
| Store.RouteDetailOf | Geo-Historian/server/storage.ts:101-114 | a read-back route has the requested id |
| Store.RouteDetailOfSpec | Geo-Historian/server/storage.ts:101-114 | None exactly when no route has the id; otherwise the route is stored and the waypoints are exactly that route's, ascending by index |
| Store.WaypointRows | Geo-Historian/server/storage.ts:129-140 | the waypoint rows carry the route id, consecutive ids, their position as index and the input fields |
| Store.WithAudio | Geo-Historian/server/storage.ts:78-82 | only rows with the id get the audio; all other rows are unchanged |
| Store.ReadBackCreatedRoute | Geo-Historian/server/storage.ts:116-144 | a created route reads back as itself with its waypoints in input order |
| Store.CascadeDeleteIsolated | Geo-Historian/server/storage.ts:146-148 | after a delete the route no longer reads back, and every other route reads back as before |
| Store.CleanupPartition | Geo-Historian/server/storage.ts:84-93 | the count returned is the number of rows removed, and the kept rows are exactly those not older than the cutoff |
| Store.DeleteRouteKeepsKeys | shared/schema.ts:99 | the cascading delete keeps every waypoint's route id pointing at an existing route |
| Store.CreateRouteKeepsValid | Geo-Historian/server/storage.ts:116-144 | route creation keeps the id counters and the foreign key valid |
| Store.DeleteRouteKeepsValid | Geo-Historian/server/storage.ts:146-148 | route deletion keeps the id counters and the foreign key valid |
| Store.Storage.constructor | shared/schema.ts:6-14 | the tables start empty |
| Store.Storage.GetHistory | Geo-Historian/server/storage.ts:47-52 | the rows are `LatestHistory`: at most `limit` rows, newest first |
| Store.Storage.CreateHistory | Geo-Historian/server/storage.ts:54-59 | exactly one row is appended, with the next id and the current time; nothing else changes |
| Store.Storage.DeleteHistory | Geo-Historian/server/storage.ts:61-63 | exactly the rows with the id are removed |
| Store.Storage.FindNearbyLocation | Geo-Historian/server/storage.ts:65-76 | the result is the first row within the radius, or none when no row is within it |
| Store.Storage.UpdateHistoryAudio | Geo-Historian/server/storage.ts:78-82 | the history becomes `WithAudio` of the old history |
| Store.Storage.CleanupOldHistory | Geo-Historian/server/storage.ts:84-93 | rows older than the cutoff are removed and their number is returned |
| Store.Storage.GetRoutes | Geo-Historian/server/storage.ts:95-99 | all routes, newest first |
| Store.Storage.GetRouteWithWaypoints | Geo-Historian/server/storage.ts:101-114 | None exactly when no route has the id; otherwise the route and exactly its waypoints, ascending by index |
| Store.Storage.CreateRoute | Geo-Historian/server/storage.ts:116-144 | one route is appended with the next id, its waypoints follow in input order, and it reads back as created |
| Store.Storage.DeleteRoute | Geo-Historian/server/storage.ts:146-148 | the route and all its waypoints are removed, and nothing else |
| Wikipedia.ClampRadius | Geo-Historian/server/wikipedia.ts:45 | the radius sent is `min(radius, 10000)` |
| Wikipedia.GeoQueryFor | Geo-Historian/server/wikipedia.ts:30-49 | the query carries the point, the limit and the language, with the radius clamped |
| Wikipedia.Articles | Geo-Historian/server/wikipedia.ts:51-63 | an OK reply yields its `query.geosearch` list; a failed or non-2xx search, or a reply without `geosearch`, yields no candidates |
| Wikipedia.FindNearbyArticles | Geo-Historian/server/wikipedia.ts:30-64 | the articles are the `geosearch` list of the OK reply to the query at the point, with the radius capped at 10000 m; any other reply gives none |
| Wikipedia.GetSummary | Geo-Historian/server/wikipedia.ts:66-99 | null exactly when the request for the underscored title fails or is not 2xx; otherwise title and description come from the reply and a missing extract reads as empty |
| Wikipedia.PageTitle | Geo-Historian/server/wikipedia.ts:74 | every space of the title becomes an underscore, and nothing else changes |
| Wikipedia.SummaryOfResponse | Geo-Historian/server/wikipedia.ts:76-98 | no summary exactly when the fetch failed or was not 2xx; a missing extract becomes "" |
| Wikipedia.FormatContent | Geo-Historian/server/wikipedia.ts:158-166 | the content always ends with the extract |
| Wikipedia.FormatContentCases | Geo-Historian/server/wikipedia.ts:161-163 | the description is prefixed, followed by a blank line, exactly when the extract does not mention it case-insensitively |
| Wikipedia.FirstUsableFrom | Geo-Historian/server/wikipedia.ts:130-146 | the index found is the first candidate with a non-empty extract, and none exactly when no candidate has one |
| Wikipedia.FirstUsableAt | Geo-Historian/server/wikipedia.ts:130-146 | a usable candidate preceded only by unusable ones is the one chosen |
| Wikipedia.SummaryRequests | Geo-Historian/server/wikipedia.ts:131-135 | the summaries are requested for the candidates in order |
| Wikipedia.SearchCandidates | Geo-Historian/server/wikipedia.ts:106-128 | the candidates and the searches sent are those of the near search, then the wide one only if the near one was empty |
| Wikipedia.PickCandidate | Geo-Historian/server/wikipedia.ts:130-155 | the result and the summaries requested are those of `Pick` |
| Wikipedia.ExploreLocation | Geo-Historian/server/wikipedia.ts:101-156 | the result and the upstream requests are `Explore` and `Requests` of the inputs |
| Wikipedia.WideSearchOnlyAfterEmpty | Geo-Historian/server/wikipedia.ts:114-125 | the 5000 m search is sent exactly when the 1000 m search found nothing; when both are empty the result is null after two requests |
| Wikipedia.FirstCandidateWins | Geo-Historian/server/wikipedia.ts:130-155 | when the first candidate has an extract, its title, formatted content and position are the result |
| Wikipedia.ExploreSelectsFirstUsable | Geo-Historian/server/wikipedia.ts:130-155 | the result is null exactly when no candidate has an extract, and otherwise comes from the first that has one |
| Wikipedia.ExploreContentEndsWithExtract | Geo-Historian/server/wikipedia.ts:149-155 | a found location's content is a formatted non-empty extract |
| Wikipedia.SummariesInOrder | Geo-Historian/server/wikipedia.ts:130-146 | summaries are requested one at a time in candidate order, and at most one per candidate |
| Wikipedia.Resolutions | Geo-Historian/server/wikipedia.ts:172-174 | one resolution per waypoint, in order |
| Wikipedia.ExploreMany | Geo-Historian/server/wikipedia.ts:168-177 | never more locations than waypoints |
| Wikipedia.ExploreManyKeepsResolved | Geo-Historian/server/wikipedia.ts:176 | the result holds exactly the resolved locations, and all waypoints appear exactly when every one resolves |
| Wikipedia.ExploreManyAppend | Geo-Historian/server/wikipedia.ts:172-176 | resolving two lists of waypoints one after the other gives the concatenation |
| Urls.ReplaceFirst | shared/routes.ts:135 | only the leftmost occurrence is replaced, and the text is unchanged when there is none |
| Urls.BuildUrl | shared/routes.ts:130-140 | without parameters the path is returned as is; otherwise the parameters are substituted in entry order |
| Urls.SubstituteAsWritten | shared/routes.ts:130-140 | `buildUrl` as written, with `replace` expanding `$` patterns in a value: without parameters the path comes back as is; Urls.DollarAmpersandKeepsPlaceholder shows a value `$&` leaving `:id` in the url |
| Urls.StepReplacesFirst | shared/routes.ts:133-136 | a parameter whose placeholder is present replaces its first occurrence; an absent placeholder leaves the url unchanged |
| Urls.SubstituteAppend | shared/routes.ts:133 | each parameter is applied to the result of the ones before it |
| Urls.HistoryItemUrl | shared/routes.ts:71 | the url of a history item is `/api/history/` followed by the id's digits |
| Urls.RouteUrl | shared/routes.ts:88 | the url of a route is `/api/routes/` followed by the id's digits |
| Urls.AsWrittenAgrees | shared/routes.ts:135 | the code as written and the literal substitution agree whenever no value contains `$`, so on every integer id |
| Urls.DollarAmpersandKeepsPlaceholder | shared/routes.ts:135 | the string value `$&` leaves the `:id` placeholder in the url as written |
| RoutePlanner.GenerateWaypoints | client/src/hooks/use-preload.ts:25-41 | `count` points (none when count ≤ 0), the k-th at ratio k/(count+1) of the way from start to end |
| RoutePlanner.RatioBounds | client/src/hooks/use-preload.ts:33 | every ratio lies strictly between 0 and 1 and grows with i |
| RoutePlanner.LerpBetween | client/src/hooks/use-preload.ts:35-36 | an interpolated coordinate lies strictly between two different ends |
| RoutePlanner.PointBetween | client/src/hooks/use-preload.ts:32-37 | every generated point excludes the ends and stays between them in each coordinate |
| RoutePlanner.PointsOrdered | client/src/hooks/use-preload.ts:32-37 | the points run from start towards end |
| RoutePlanner.DefaultQuarters | client/src/hooks/use-preload.ts:28 | with the default count the points are at 1/4, 1/2 and 3/4 of the way |
| Handlers.Effective | Geo-Historian/server/routes.ts:69 | an absent language means English |
| Handlers.ClientIp | Geo-Historian/server/routes.ts:62 | the first non-empty of the request ip and the socket address, else "unknown"; never empty |
| Handlers.ExploreHandler | Geo-Historian/server/routes.ts:59-135 | response, limiter map, history and upstream requests are those of `ExploreFlow`; routes are untouched |
| Handlers.ServeExplore | Geo-Historian/server/routes.ts:69-122 | an admitted request: response, history, id counter and upstream requests are those of `ExploreServe` (cache for English, else one new row); routes are untouched |
| Handlers.ExploreInvalidChangesNothing | Geo-Historian/server/routes.ts:127-131 | an invalid body gets a 400 naming the field, with no quota used and nothing looked up, fetched or stored |
| Handlers.ExploreRateLimitFirst | Geo-Historian/server/routes.ts:64-67 | every valid request uses quota, cache hits included; a denied one gets 429 before any lookup, fetch or insert |
| Handlers.ExploreCacheEnglishOnly | Geo-Historian/server/routes.ts:71-83 | a Spanish request is never answered from the cache and always stores a row |
| Handlers.ExploreCacheHit | Geo-Historian/server/routes.ts:73-82 | a hit returns the stored row's name, content and id as cached; nothing is inserted or fetched |
| Handlers.ExploreMissStoresOneRow | Geo-Historian/server/routes.ts:86-124 | a miss stores exactly one row at the request's coordinates with the next id, reported as not cached; an unresolved point stores the placeholder text of its language |
| Handlers.CacheHits | Geo-Historian/server/routes.ts:148-150 | each waypoint's lookup is against the table as it was when the request arrived, and only in English |
| Handlers.LookupCache | Geo-Historian/server/routes.ts:147-150 | the cache lookups done for the waypoints are `CacheHits` of the table as it was: a 100 m lookup per waypoint in English, none otherwise |
| Handlers.PreloadStep | Geo-Historian/server/routes.ts:146-190 | a hit skips the limiter; otherwise the limiter decides, and only a resolved point stores one row with the next id |
| Handlers.PreloadWaypoint | Geo-Historian/server/routes.ts:146-190 | the outcome and the new state are those of `PreloadStep` |
| Handlers.ResolveWaypoints | Geo-Historian/server/routes.ts:145-191 | the outcomes and the new state are those of `PreloadRun` over all waypoints |
| Handlers.PreloadHandler | Geo-Historian/server/routes.ts:138-198 | response, outcomes, limiter map and history are those of `PreloadFlow` |
| Handlers.PreloadOutcomesFit | Geo-Historian/server/routes.ts:148-189 | a waypoint is cached exactly when its lookup hit; a stored row lies at its waypoint and holds what the resolver found; an unresolved waypoint has no result |
| Handlers.PreloadLimiterSeesMisses | Geo-Historian/server/routes.ts:162-165 | the limiter sees one call per cache miss and none per hit |
| Handlers.PreloadHistoryGrows | Geo-Historian/server/routes.ts:175-180 | the history grows by exactly the stored rows, in waypoint order, with consecutive ids |
| Handlers.PreloadResponseShape | Geo-Historian/server/routes.ts:193 | the response never lists more than the waypoints sent (at most five), and lists all of them exactly when none was denied or unresolved |
| Handlers.PreloadNonEnglishCountsEveryWaypoint | Geo-Historian/server/routes.ts:147-165 | outside English nothing is cached, and every waypoint uses quota |
| Handlers.PreloadInvalidChangesNothing | Geo-Historian/server/routes.ts:194-196 | an invalid body gets a 500 and changes nothing |
| Handlers.DiscoveryOf | Geo-Historian/server/routes.ts:163-171 | a waypoint has no response element exactly when it was denied or unresolved |
| Handlers.ParseId | Geo-Historian/server/routes.ts:223-226 | an id is accepted exactly when the segment is a non-empty digit string |
| Handlers.PathParam | shared/routes.ts:71 | the `:id` segment is what follows the collection prefix |
| Handlers.ClientIdReachesServer | shared/routes.ts:130-140 | the id in a url built by the client is the id the server parses, for history items and for routes |
| Handlers.ListHistoryHandler | Geo-Historian/server/routes.ts:201-204 | the 50 newest rows |
| Handlers.DeleteHistoryHandler | Geo-Historian/server/routes.ts:222-229 | an unparsable id gets 400 and changes nothing; otherwise the rows with the id are deleted and the answer is 204; routes, waypoints and all three id counters are untouched |
| Handlers.GetRouteHandler | Geo-Historian/server/routes.ts:237-247 | 400 for an unparsable id, 404 when no route has it, otherwise 200 with the route and its waypoints |
| Handlers.DeleteRouteHandler | Geo-Historian/server/routes.ts:265-272 | 400 for an unparsable id and no change; otherwise the route and its waypoints are deleted and the answer is 204; history and all three id counters are untouched |
| Handlers.RetentionSweep | Geo-Historian/server/routes.ts:42-51 | the daily job deletes exactly the history older than 90 days and returns how many; routes, waypoints and all three id counters are untouched |

## Left out

- I/O is a parameter: the database driver, HTTP, `fetch`, JSON (de)serialisation and `console` logging. The clock (`Date.now()`, `defaultNow()`) and the client address are parameters too.
- The haversine distance is a parameter of type `Distance`, because floating-point trigonometry is outside the model. All coordinates and distances are reals without rounding.
- Concurrency: preload's `Promise.all` is modelled as all cache lookups first, then the waypoints one after another in waypoint order. Other interleavings, and so other insert orders and ids, are not modelled. Concurrent requests are not modelled either.
- Timers: the hourly limiter sweep and the daily cleanup are methods called with the time, not intervals.
- The "Failed to generate exploration content" 500 of explore is not modelled, because it is reached only by database or runtime failures, which are not modelled.
- `POST /api/history` and `POST /api/routes`: validating their bodies against the insert schemas is not modelled. The store operations they call, `CreateHistory` and `CreateRoute`, are. `GET /api/routes` is `Store.Storage.GetRoutes`.
- Handlers.ParseId: JavaScript's `Number` also accepts surrounding blanks, signs, fractions, exponents, hexadecimal and `Infinity`, which would reach the store as ids. The model accepts only decimal digit strings and answers 400 for the rest.
- The validation library's error message texts are not modelled; a 400 carries only the failing field path.
- Zod's `z.number()` rejecting `NaN` and infinities, and JSON numbers not being reals, are not modelled. Unknown extra keys are accepted, as zod does.
- Text.ParseNat: only decimal digit strings are read. JavaScript's `Number` also reads blanks, signs, fractions, exponents, hexadecimal and `Infinity`; the model rejects them.
- Text.IntToString: integers of magnitude 10^21 or more, which JavaScript writes in exponent form, are not modelled.
- Text.Lower: lower-casing covers ASCII letters only; Unicode case folding is not modelled.
- Wikipedia.PageTitle: `encodeURIComponent` is not applied. The title is kept as text with spaces turned into underscores.
- The Wikipedia host chosen by language, the request headers and the `coordinates` field of a summary are not modelled. The language is part of each request instead.
- Store.Storage.CleanupOldHistory: the cutoff is `now - days × 24 h`. `setDate` on local calendar days, which can differ by an hour across a daylight-saving change, is not modelled.
- Collections.SortBy: rows with equal keys keep table order. The database leaves that order unspecified, so `GetHistory`, `GetRoutes` and the waypoint read-back fix one of the orders the database may return.
- Urls.BuildUrl: number parameters are integers. Fractional and non-finite numbers, and `Object.entries` order for integer-like keys, are not modelled; entries are a sequence in the order given.
- RoutePlanner.GenerateWaypoints: a fractional `count` is not modelled, and the arithmetic is exact rather than floating point.
- The `conversations` and `messages` tables and the client pages are outside this core.

## Findings

| source | as written | input that shows it | evidently intended | confidence | as-written member | corrected member |
|---|---|---|---|---|---|---|
| shared/routes.ts:135 | `url.replace(':key', String(value))` passes the value as a replacement string, so `$&`, `$$`, `` $` `` and `$'` in a value are expanded as patterns | `buildUrl("/api/history/:id", { id: "$&" })` gives `/api/history/:id`, with the placeholder unreplaced | the value is inserted literally, giving `/api/history/$&` | not executed | Urls.SubstituteAsWritten (shown by Urls.DollarAmpersandKeepsPlaceholder) | Urls.BuildUrl (literal Urls.Substitute; Urls.AsWrittenAgrees proves the two agree on values without `$`) |
