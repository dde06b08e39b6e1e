/** The content resolver of Geo-Historian/server/wikipedia.ts: a geosearch
    for articles near a point (1000 m, widened to 5000 m when nothing is
    found), then the summary of the first candidate whose summary has a
    non-empty extract, formatted with its description.

    The two upstream endpoints are oracle parameters: `GeoSearch` answers a
    geosearch query and `SummaryFetch` answers a summary request for a page
    title in a language. Each answer is a network failure or an HTTP status
    with the parts of the JSON body the source reads. */
module Wikipedia {
  import opened Collections
  import opened Text
  import opened Schema

  datatype GeoSearchResult = GeoSearchResult(pageid: int, title: string, lat: real, lon: real, dist: real)

  /** A page summary as `getWikipediaSummary` returns it. */
  datatype Summary = Summary(title: string, extract: string, description: Option<string>)

  /** What `exploreLocation` resolves a point to. */
  datatype WikipediaLocation = WikipediaLocation(
    locationName: string,
    content: string,
    latitude: real,
    longitude: real,
    distance: real)

  /** The parameters of one geosearch request: the centre, the radius in
      metres (`gsradius`), the number of results (`gslimit`) and the wiki. */
  datatype GeoQuery = GeoQuery(latitude: real, longitude: real, radius: real, limit: int, language: Language)

  /** The answer to a geosearch request: a failure (network error or a body
      that is not JSON), or a status with the body's `query.geosearch` if present. */
  datatype GeoResponse =
    | GeoFailed
    | GeoReply(status: int, geosearch: Option<seq<GeoSearchResult>>)

  /** The answer to a summary request: a failure, or a status with the body's
      `title`, `extract` and `description` members (the last two may be absent). */
  datatype SummaryResponse =
    | SummaryFailed
    | SummaryReply(status: int, title: string, extract: Option<string>, description: Option<string>)

  type GeoSearch = GeoQuery -> GeoResponse

  /** Summary endpoint, keyed by the page title as it appears in the request path. */
  type SummaryFetch = (string, Language) -> SummaryResponse

  /** One upstream request, in the order `exploreLocation` issues them. */
  datatype Request =
    | GeoRequest(query: GeoQuery)
    | SummaryRequest(page: string, language: Language)

  const MaxRadius: real := 10000.0
  const NearRadius: real := 1000.0
  const WideRadius: real := 5000.0
  const CandidateLimit := 3

  /** `response.ok`. */
  predicate Ok(status: int) {
    200 <= status <= 299
  }

  // ---------------------------------------------------------------------
  // The two fetch functions
  // ---------------------------------------------------------------------

  /** `Math.min(radiusMeters, 10000)`. */
  function ClampRadius(radius: real): (r: real)
    ensures r <= MaxRadius && r <= radius
    ensures r == radius || r == MaxRadius
  {
    if radius < MaxRadius then radius else MaxRadius
  }

  /** The request `findNearbyWikipediaArticles(lat, lon, radius, limit, language)` sends. */
  function GeoQueryFor(lat: real, lon: real, radius: real, limit: int, language: Language): (q: GeoQuery)
    ensures q.radius <= MaxRadius
    ensures radius <= MaxRadius ==> q.radius == radius
    ensures q.latitude == lat && q.longitude == lon && q.limit == limit && q.language == language
  {
    GeoQuery(lat, lon, ClampRadius(radius), limit, language)
  }

  /** The articles `findNearbyWikipediaArticles` returns for an upstream answer:
      failures and non-ok statuses give no articles, as does a body without
      `query.geosearch`. */
  function Articles(response: GeoResponse): (r: seq<GeoSearchResult>)
    ensures response.GeoFailed? ==> r == []
    ensures response.GeoReply? && !Ok(response.status) ==> r == []
    ensures r != [] ==> response.GeoReply? && Ok(response.status) && response.geosearch == Some(r)
    ensures response.GeoReply? && Ok(response.status) && response.geosearch.Some? ==>
      r == response.geosearch.value
    ensures response.GeoReply? && response.geosearch.None? ==> r == []
  {
    match response
    case GeoFailed => []
    case GeoReply(status, geosearch) =>
      if !Ok(status) then []
      else match geosearch
        case None => []
        case Some(results) => results
  }

  /** `findNearbyWikipediaArticles` against the endpoint `geo`. */
  function FindNearbyArticles(geo: GeoSearch, lat: real, lon: real, radius: real, limit: int, language: Language)
    : (r: seq<GeoSearchResult>)
    ensures var reply := geo(GeoQuery(lat, lon, ClampRadius(radius), limit, language));
      (reply.GeoReply? && Ok(reply.status) && reply.geosearch.Some? ==> r == reply.geosearch.value) &&
      (!(reply.GeoReply? && Ok(reply.status) && reply.geosearch.Some?) ==> r == [])
  {
    Articles(geo(GeoQueryFor(lat, lon, radius, limit, language)))
  }

  /** `title.replace(/ /g, '_')`: the page title as it is put in the request path. */
  function PageTitle(title: string): (r: string)
    ensures |r| == |title|
    ensures forall i :: 0 <= i < |r| ==> r[i] != ' '
    ensures forall i :: 0 <= i < |r| ==> r[i] == (if title[i] == ' ' then '_' else title[i])
  {
    seq(|title|, i requires 0 <= i < |title| => if title[i] == ' ' then '_' else title[i])
  }

  /** The summary `getWikipediaSummary` returns for an upstream answer: none on
      a failure or a non-ok status; a missing extract reads as empty. */
  function SummaryOfResponse(response: SummaryResponse): (r: Option<Summary>)
    ensures r.None? <==> response.SummaryFailed? || !Ok(response.status)
    ensures r.Some? ==> r.value.title == response.title && r.value.description == response.description
    ensures r.Some? && response.extract.None? ==> r.value.extract == ""
    ensures r.Some? && response.extract.Some? ==> r.value.extract == response.extract.value
  {
    match response
    case SummaryFailed => None
    case SummaryReply(status, title, extract, description) =>
      if !Ok(status) then None
      else Some(Summary(title, match extract case None => "" case Some(e) => e, description))
  }

  /** `getWikipediaSummary(title, language)` against the endpoint `fetch`. */
  function GetSummary(fetch: SummaryFetch, title: string, language: Language): (r: Option<Summary>)
    ensures var reply := fetch(PageTitle(title), language);
      (r.None? <==> reply.SummaryFailed? || !Ok(reply.status)) &&
      (r.Some? ==> r.value.title == reply.title && r.value.description == reply.description &&
                   r.value.extract == (if reply.extract.Some? then reply.extract.value else ""))
  {
    SummaryOfResponse(fetch(PageTitle(title), language))
  }

  // ---------------------------------------------------------------------
  // Formatting
  // ---------------------------------------------------------------------

  /** The description is prepended: it is present, non-empty, and its lower
      case does not occur in the lower-cased extract. */
  predicate DescriptionAdded(summary: Summary) {
    summary.description.Some? && summary.description.value != "" &&
    !Includes(Lower(summary.extract), Lower(summary.description.value))
  }

  /** `formatContent(summary)`. */
  function FormatContent(summary: Summary): (content: string)
    ensures |content| >= |summary.extract|
    ensures content[|content| - |summary.extract|..] == summary.extract
  {
    if DescriptionAdded(summary) then summary.description.value + "\n\n" + summary.extract
    else summary.extract
  }

  /** The content is the description, a blank line and the extract exactly when
      the description is added, and the bare extract otherwise; in particular a
      description already contained in the extract, whatever its letter case,
      is never repeated. */
  lemma FormatContentCases(summary: Summary)
    ensures DescriptionAdded(summary) <==> |FormatContent(summary)| > |summary.extract|
    ensures DescriptionAdded(summary) ==>
      FormatContent(summary) == summary.description.value + "\n\n" + summary.extract
    ensures !DescriptionAdded(summary) ==> FormatContent(summary) == summary.extract
    ensures summary.description.Some? &&
            Includes(Lower(summary.extract), Lower(summary.description.value)) ==>
      FormatContent(summary) == summary.extract
  {
  }

  // ---------------------------------------------------------------------
  // Candidate selection
  // ---------------------------------------------------------------------

  /** A summary the resolver accepts: present with a non-empty extract. */
  predicate Usable(summary: Option<Summary>) {
    summary.Some? && summary.value.extract != ""
  }

  /** The candidates: the 1000 m search, or the 5000 m search when that is empty. */
  function Candidates(geo: GeoSearch, lat: real, lon: real, language: Language): seq<GeoSearchResult> {
    var near := FindNearbyArticles(geo, lat, lon, NearRadius, CandidateLimit, language);
    if near != [] then near else FindNearbyArticles(geo, lat, lon, WideRadius, CandidateLimit, language)
  }

  /** Index of the first candidate at or after `from` with a usable summary. */
  function FirstUsableFrom(fetch: SummaryFetch, candidates: seq<GeoSearchResult>, language: Language, from: nat)
    : (r: Option<nat>)
    requires from <= |candidates|
    ensures r.Some? ==> from <= r.value < |candidates| && Usable(GetSummary(fetch, candidates[r.value].title, language))
    ensures r.Some? ==> forall j :: from <= j < r.value ==> !Usable(GetSummary(fetch, candidates[j].title, language))
    ensures r.None? <==> forall j :: from <= j < |candidates| ==> !Usable(GetSummary(fetch, candidates[j].title, language))
    decreases |candidates| - from
  {
    if from == |candidates| then None
    else if Usable(GetSummary(fetch, candidates[from].title, language)) then Some(from)
    else FirstUsableFrom(fetch, candidates, language, from + 1)
  }

  /** The location made from a candidate and its summary. */
  function LocationOf(candidate: GeoSearchResult, summary: Summary): WikipediaLocation {
    WikipediaLocation(summary.title, FormatContent(summary), candidate.lat, candidate.lon, candidate.dist)
  }

  /** The location made from the first candidate with a usable summary, if any. */
  function Pick(fetch: SummaryFetch, candidates: seq<GeoSearchResult>, language: Language): Option<WikipediaLocation> {
    match FirstUsableFrom(fetch, candidates, language, 0)
    case None => None
    case Some(i) => Some(LocationOf(candidates[i], GetSummary(fetch, candidates[i].title, language).value))
  }

  /** `exploreLocation(lat, lon, language)` as a function of the two endpoints. */
  function Explore(geo: GeoSearch, fetch: SummaryFetch, lat: real, lon: real, language: Language)
    : Option<WikipediaLocation>
  {
    Pick(fetch, Candidates(geo, lat, lon, language), language)
  }

  /** The geosearch requests `exploreLocation` sends: the wider one only after
      an empty first answer. */
  function GeoRequests(geo: GeoSearch, lat: real, lon: real, language: Language): seq<Request> {
    var first := GeoQueryFor(lat, lon, NearRadius, CandidateLimit, language);
    var second := GeoQueryFor(lat, lon, WideRadius, CandidateLimit, language);
    if Articles(geo(first)) != [] then [GeoRequest(first)] else [GeoRequest(first), GeoRequest(second)]
  }

  /** Summary requests for the first `n` candidates, in list order. */
  function SummaryRequests(candidates: seq<GeoSearchResult>, language: Language, n: nat): (r: seq<Request>)
    requires n <= |candidates|
    ensures |r| == n
    ensures forall k :: 0 <= k < n ==> r[k] == SummaryRequest(PageTitle(candidates[k].title), language)
  {
    seq(n, k requires 0 <= k < n => SummaryRequest(PageTitle(candidates[k].title), language))
  }

  /** How many summaries `exploreLocation` fetches: up to and including the
      first usable one, or all of them. */
  function SummariesTried(fetch: SummaryFetch, candidates: seq<GeoSearchResult>, language: Language): (n: nat)
    ensures n <= |candidates|
  {
    match FirstUsableFrom(fetch, candidates, language, 0)
    case None => |candidates|
    case Some(i) => i + 1
  }

  /** The summary requests sent while picking among `candidates`. */
  function PickRequests(fetch: SummaryFetch, candidates: seq<GeoSearchResult>, language: Language): seq<Request> {
    SummaryRequests(candidates, language, SummariesTried(fetch, candidates, language))
  }

  /** Every upstream request `exploreLocation` sends, in order. */
  function Requests(geo: GeoSearch, fetch: SummaryFetch, lat: real, lon: real, language: Language): seq<Request> {
    GeoRequests(geo, lat, lon, language) + PickRequests(fetch, Candidates(geo, lat, lon, language), language)
  }

  /** One more summary request is the previous ones followed by it. */
  lemma SummaryRequestsSnoc(candidates: seq<GeoSearchResult>, language: Language, n: nat)
    requires n < |candidates|
    ensures SummaryRequests(candidates, language, n + 1) ==
      SummaryRequests(candidates, language, n) + [SummaryRequest(PageTitle(candidates[n].title), language)]
  {
  }

  /** What the candidate loop returns and sends once it knows how it ended:
      with the candidate at `i`, or (`i == |candidates|`) with none. */
  lemma PickEndsAt(fetch: SummaryFetch, candidates: seq<GeoSearchResult>, language: Language, i: nat)
    requires i <= |candidates|
    requires i < |candidates| ==> FirstUsableFrom(fetch, candidates, language, 0) == Some(i)
    requires i == |candidates| ==> FirstUsableFrom(fetch, candidates, language, 0).None?
    ensures i < |candidates| ==>
      Pick(fetch, candidates, language) ==
        Some(LocationOf(candidates[i], GetSummary(fetch, candidates[i].title, language).value)) &&
      PickRequests(fetch, candidates, language) == SummaryRequests(candidates, language, i + 1)
    ensures i == |candidates| ==>
      Pick(fetch, candidates, language).None? &&
      PickRequests(fetch, candidates, language) == SummaryRequests(candidates, language, i)
  {
  }

  /** The first part of `exploreLocation`: the 1000 m search, and the 5000 m
      search when the first found nothing, with the requests sent. */
  method SearchCandidates(geo: GeoSearch, lat: real, lon: real, language: Language)
    returns (nearby: seq<GeoSearchResult>, sent: seq<Request>)
    ensures nearby == Candidates(geo, lat, lon, language)
    ensures sent == GeoRequests(geo, lat, lon, language)
  {
    var query := GeoQueryFor(lat, lon, NearRadius, CandidateLimit, language);
    sent := [GeoRequest(query)];
    nearby := Articles(geo(query));
    if |nearby| == 0 {
      var wide := GeoQueryFor(lat, lon, WideRadius, CandidateLimit, language);
      sent := sent + [GeoRequest(wide)];
      var expanded := Articles(geo(wide));
      nearby := nearby + expanded;
    }
  }

  /** The second part of `exploreLocation`: the summary of the best match,
      then of the others in list order until one has a non-empty extract. */
  method PickCandidate(fetch: SummaryFetch, nearby: seq<GeoSearchResult>, language: Language)
    returns (result: Option<WikipediaLocation>, sent: seq<Request>)
    requires nearby != []
    ensures result == Pick(fetch, nearby, language)
    ensures sent == PickRequests(fetch, nearby, language)
  {
    var best := nearby[0];
    sent := [SummaryRequest(PageTitle(best.title), language)];
    SummaryRequestsSnoc(nearby, language, 0);
    var summary := GetSummary(fetch, best.title, language);
    if summary.None? || summary.value.extract == "" {
      var i := 1;
      while i < |nearby|
        invariant 1 <= i <= |nearby|
        invariant forall j :: 0 <= j < i ==> !Usable(GetSummary(fetch, nearby[j].title, language))
        invariant sent == SummaryRequests(nearby, language, i)
      {
        SummaryRequestsSnoc(nearby, language, i);
        sent := sent + [SummaryRequest(PageTitle(nearby[i].title), language)];
        var alt := GetSummary(fetch, nearby[i].title, language);
        if alt.Some? && alt.value.extract != "" {
          FirstUsableAt(fetch, nearby, language, i);
          PickEndsAt(fetch, nearby, language, i);
          return Some(LocationOf(nearby[i], alt.value)), sent;
        }
        i := i + 1;
      }
      PickEndsAt(fetch, nearby, language, |nearby|);
      return None, sent;
    }
    FirstUsableAt(fetch, nearby, language, 0);
    PickEndsAt(fetch, nearby, language, 0);
    result := Some(LocationOf(best, summary.value));
  }

  /** `exploreLocation(lat, lon, language)`: returns the location it resolves
      and the upstream requests it sent. */
  method ExploreLocation(geo: GeoSearch, fetch: SummaryFetch, lat: real, lon: real, language: Language)
    returns (result: Option<WikipediaLocation>, sent: seq<Request>)
    ensures result == Explore(geo, fetch, lat, lon, language)
    ensures sent == Requests(geo, fetch, lat, lon, language)
  {
    var nearby;
    nearby, sent := SearchCandidates(geo, lat, lon, language);
    if |nearby| == 0 {
      assert PickRequests(fetch, nearby, language) == [];
      return None, sent;
    }
    var summaries;
    result, summaries := PickCandidate(fetch, nearby, language);
    sent := sent + summaries;
  }

  /** The first usable index is the one every earlier candidate fails. */
  lemma {:induction false} FirstUsableAt(fetch: SummaryFetch, candidates: seq<GeoSearchResult>, language: Language, i: nat)
    requires i < |candidates| && Usable(GetSummary(fetch, candidates[i].title, language))
    requires forall j :: 0 <= j < i ==> !Usable(GetSummary(fetch, candidates[j].title, language))
    ensures FirstUsableFrom(fetch, candidates, language, 0) == Some(i)
  {
    var r := FirstUsableFrom(fetch, candidates, language, 0);
    assert r.Some?;
    assert !(r.value < i);
  }

  // ---------------------------------------------------------------------
  // Properties of the resolver
  // ---------------------------------------------------------------------

  /** The 5000 m search is sent only when the 1000 m search found nothing; when
      both find nothing the result is none and no summary is requested. */
  lemma WideSearchOnlyAfterEmpty(geo: GeoSearch, fetch: SummaryFetch, lat: real, lon: real, language: Language)
    ensures GeoRequest(GeoQueryFor(lat, lon, WideRadius, CandidateLimit, language)) in Requests(geo, fetch, lat, lon, language)
            <==> FindNearbyArticles(geo, lat, lon, NearRadius, CandidateLimit, language) == []
    ensures FindNearbyArticles(geo, lat, lon, NearRadius, CandidateLimit, language) == [] &&
            FindNearbyArticles(geo, lat, lon, WideRadius, CandidateLimit, language) == [] ==>
      Explore(geo, fetch, lat, lon, language).None? && |Requests(geo, fetch, lat, lon, language)| == 2
  {
    var first := GeoQueryFor(lat, lon, NearRadius, CandidateLimit, language);
    var second := GeoQueryFor(lat, lon, WideRadius, CandidateLimit, language);
    assert first != second by {
      assert first.radius == NearRadius && second.radius == WideRadius;
    }
    var candidates := Candidates(geo, lat, lon, language);
    var summaries := SummaryRequests(candidates, language, SummariesTried(fetch, candidates, language));
    assert GeoRequest(second) !in summaries;
  }

  /** When the first candidate's summary is usable, the result is that
      summary's title and content at the first candidate's position and distance. */
  lemma FirstCandidateWins(geo: GeoSearch, fetch: SummaryFetch, lat: real, lon: real, language: Language)
    requires Candidates(geo, lat, lon, language) != []
    requires Usable(GetSummary(fetch, Candidates(geo, lat, lon, language)[0].title, language))
    ensures Explore(geo, fetch, lat, lon, language) ==
      Some(LocationOf(Candidates(geo, lat, lon, language)[0],
                      GetSummary(fetch, Candidates(geo, lat, lon, language)[0].title, language).value))
  {
  }

  /** The pick over any candidate list: the lowest-indexed candidate with a
      usable summary, none exactly when no candidate has one. */
  lemma PickSelectsFirstUsable(fetch: SummaryFetch, candidates: seq<GeoSearchResult>, language: Language)
    ensures Pick(fetch, candidates, language).None? <==>
      forall j :: 0 <= j < |candidates| ==> !Usable(GetSummary(fetch, candidates[j].title, language))
    ensures Pick(fetch, candidates, language).Some? ==>
      exists i :: 0 <= i < |candidates| &&
        Usable(GetSummary(fetch, candidates[i].title, language)) &&
        (forall j :: 0 <= j < i ==> !Usable(GetSummary(fetch, candidates[j].title, language))) &&
        Pick(fetch, candidates, language) ==
          Some(LocationOf(candidates[i], GetSummary(fetch, candidates[i].title, language).value))
  {
    var r := FirstUsableFrom(fetch, candidates, language, 0);
    if r.Some? {
      var i := r.value;
      assert Usable(GetSummary(fetch, candidates[i].title, language));
    }
  }

  /** Otherwise the result comes from the lowest-indexed candidate with a usable
      summary, and is none exactly when no candidate has one. */
  lemma ExploreSelectsFirstUsable(geo: GeoSearch, fetch: SummaryFetch, lat: real, lon: real, language: Language)
    ensures Explore(geo, fetch, lat, lon, language).None? <==>
      forall j :: 0 <= j < |Candidates(geo, lat, lon, language)| ==>
        !Usable(GetSummary(fetch, Candidates(geo, lat, lon, language)[j].title, language))
    ensures Explore(geo, fetch, lat, lon, language).Some? ==>
      exists i :: 0 <= i < |Candidates(geo, lat, lon, language)| &&
        Usable(GetSummary(fetch, Candidates(geo, lat, lon, language)[i].title, language)) &&
        (forall j :: 0 <= j < i ==> !Usable(GetSummary(fetch, Candidates(geo, lat, lon, language)[j].title, language))) &&
        Explore(geo, fetch, lat, lon, language) ==
          Some(LocationOf(Candidates(geo, lat, lon, language)[i],
                          GetSummary(fetch, Candidates(geo, lat, lon, language)[i].title, language).value))
  {
    PickSelectsFirstUsable(fetch, Candidates(geo, lat, lon, language), language);
  }

  /** The content of a resolved location always ends with a non-empty extract. */
  lemma ExploreContentEndsWithExtract(geo: GeoSearch, fetch: SummaryFetch, lat: real, lon: real, language: Language)
    ensures Explore(geo, fetch, lat, lon, language).Some? ==>
      exists s: Summary :: s.extract != "" && Explore(geo, fetch, lat, lon, language).value.content == FormatContent(s) &&
        Explore(geo, fetch, lat, lon, language).value.locationName == s.title
  {
    var candidates := Candidates(geo, lat, lon, language);
    var r := FirstUsableFrom(fetch, candidates, language, 0);
    if r.Some? {
      var s := GetSummary(fetch, candidates[r.value].title, language).value;
      assert s.extract != "";
    }
  }

  /** Summaries are requested in candidate order, never more of them than there
      are candidates, and the fetching stops at the first usable one. */
  lemma SummariesInOrder(geo: GeoSearch, fetch: SummaryFetch, lat: real, lon: real, language: Language)
    ensures |Requests(geo, fetch, lat, lon, language)| <=
      |GeoRequests(geo, lat, lon, language)| + |Candidates(geo, lat, lon, language)|
    ensures forall k :: 0 <= k < SummariesTried(fetch, Candidates(geo, lat, lon, language), language) ==>
      Requests(geo, fetch, lat, lon, language)[|GeoRequests(geo, lat, lon, language)| + k] ==
      SummaryRequest(PageTitle(Candidates(geo, lat, lon, language)[k].title), language)
    ensures forall k :: 0 <= k < SummariesTried(fetch, Candidates(geo, lat, lon, language), language) - 1 ==>
      !Usable(GetSummary(fetch, Candidates(geo, lat, lon, language)[k].title, language))
  {
    TriedInOrder(GeoRequests(geo, lat, lon, language), fetch, Candidates(geo, lat, lon, language), language);
  }

  /** The summary requests follow the requests `g` sent before them, one per
      candidate tried, in list order; every candidate tried before the last
      had no usable summary. */
  lemma TriedInOrder(g: seq<Request>, fetch: SummaryFetch, candidates: seq<GeoSearchResult>, language: Language)
    ensures |g + PickRequests(fetch, candidates, language)| <= |g| + |candidates|
    ensures forall k :: 0 <= k < SummariesTried(fetch, candidates, language) ==>
      (g + PickRequests(fetch, candidates, language))[|g| + k] ==
      SummaryRequest(PageTitle(candidates[k].title), language)
    ensures forall k :: 0 <= k < SummariesTried(fetch, candidates, language) - 1 ==>
      !Usable(GetSummary(fetch, candidates[k].title, language))
  {
    var n := SummariesTried(fetch, candidates, language);
    var sums := PickRequests(fetch, candidates, language);
    forall k | 0 <= k < n
      ensures (g + sums)[|g| + k] == SummaryRequest(PageTitle(candidates[k].title), language)
    {
      assert (g + sums)[|g| + k] == sums[k];
    }
  }

  // ---------------------------------------------------------------------
  // Many points
  // ---------------------------------------------------------------------

  /** The resolution of every point, null results included (`Promise.all` over the points). */
  function Resolutions(geo: GeoSearch, fetch: SummaryFetch, points: seq<Coordinate>, language: Language)
    : (r: seq<Option<WikipediaLocation>>)
    ensures |r| == |points|
    ensures forall i :: 0 <= i < |points| ==>
      r[i] == Explore(geo, fetch, points[i].latitude, points[i].longitude, language)
  {
    Map(points, ExploreAt(geo, fetch, language))
  }

  /** `exploreLocation` as a function of the point. */
  function ExploreAt(geo: GeoSearch, fetch: SummaryFetch, language: Language): Coordinate -> Option<WikipediaLocation> {
    (p: Coordinate) => Explore(geo, fetch, p.latitude, p.longitude, language)
  }

  /** `exploreMultipleLocations(waypoints, language)`: the locations resolved,
      in waypoint order, with the unresolved points dropped. */
  function ExploreMany(geo: GeoSearch, fetch: SummaryFetch, points: seq<Coordinate>, language: Language)
    : (r: seq<WikipediaLocation>)
    ensures |r| <= |points|
  {
    Somes(Resolutions(geo, fetch, points, language))
  }

  /** Every location returned is the resolution of one of the points, and all
      points are kept exactly when every point resolves. */
  lemma ExploreManyKeepsResolved(geo: GeoSearch, fetch: SummaryFetch, points: seq<Coordinate>, language: Language)
    ensures forall loc :: loc in ExploreMany(geo, fetch, points, language) ==>
      exists i :: 0 <= i < |points| &&
        Explore(geo, fetch, points[i].latitude, points[i].longitude, language) == Some(loc)
    ensures |ExploreMany(geo, fetch, points, language)| == |points| <==>
      forall i :: 0 <= i < |points| ==> Explore(geo, fetch, points[i].latitude, points[i].longitude, language).Some?
  {
    var rs := Resolutions(geo, fetch, points, language);
    SomesLength(rs);
    forall loc | loc in ExploreMany(geo, fetch, points, language)
      ensures exists i :: (0 <= i < |points| &&
        Explore(geo, fetch, points[i].latitude, points[i].longitude, language) == Some(loc))
    {
      assert Some(loc) in rs;
      var i :| 0 <= i < |rs| && rs[i] == Some(loc);
    }
  }

  /** The results for a concatenation of point lists are the concatenated
      results: the locations keep the order of their points. */
  lemma ExploreManyAppend(geo: GeoSearch, fetch: SummaryFetch, points: seq<Coordinate>, more: seq<Coordinate>,
                          language: Language)
    ensures ExploreMany(geo, fetch, points + more, language) ==
      ExploreMany(geo, fetch, points, language) + ExploreMany(geo, fetch, more, language)
  {
    MapAppend(points, more, ExploreAt(geo, fetch, language));
    SomesAppend(Resolutions(geo, fetch, points, language), Resolutions(geo, fetch, more, language));
  }
}
