/** The Torznab request translation of `TorznabApi.kt`: a query-parameter map
    becomes a capabilities call, a search call, or a thrown failure, and the
    backend's answer becomes an XML response, a plain-text error response, or
    a propagated failure.

    The backend (`Indexer`) is an oracle: its capabilities answer and its
    search function are parameters. Its answers are already-serialised XML
    documents, since serialisation is not part of this model.
 */
module TorznabApi {
  import opened Wrappers
  import KotlinInt
  import KotlinText

  /** The request's query parameters, one value per name. */
  type Params = map<string, string>

  /** Ktor's `queryParameters[name]`: null when the parameter is absent. */
  function Param(p: Params, name: string): (v: Option<string>)
    ensures v.None? <==> name !in p
    ensures v.Some? ==> v.value == p[name]
  {
    if name in p then Some(p[name]) else None
  }

  /** Kotlin's `orEmpty()` on a nullable string. */
  function OrEmpty(v: Option<string>): (s: string)
    ensures v.None? ==> s == ""
    ensures v.Some? ==> s == v.value
  {
    v.GetOr("")
  }

  // ---------------------------------------------------------------------------
  // Action dispatch

  /** The value of `t`, decided once at entry. */
  datatype Action = Caps | TvSearch | Movie | UnknownAction(name: string) | MissingAction

  function ParseAction(p: Params): (a: Action)
    ensures a.MissingAction? <==> "t" !in p
    ensures a.Caps? <==> Param(p, "t") == Some("caps")
    ensures a.TvSearch? <==> Param(p, "t") == Some("tvsearch")
    ensures a.Movie? <==> Param(p, "t") == Some("movie")
    ensures a.UnknownAction? <==> "t" in p && p["t"] !in {"caps", "tvsearch", "movie"}
    ensures a.UnknownAction? ==> a.name == p["t"]
  {
    match Param(p, "t")
    case None => MissingAction
    case Some(t) =>
      if t == "caps" then Caps
      else if t == "tvsearch" then TvSearch
      else if t == "movie" then Movie
      else UnknownAction(t)
  }

  /** The `t` value an action was read from; `ParseAction` loses nothing. */
  function ActionName(a: Action): Option<string> {
    match a
    case Caps => Some("caps")
    case TvSearch => Some("tvsearch")
    case Movie => Some("movie")
    case UnknownAction(name) => Some(name)
    case MissingAction => None
  }

  // ---------------------------------------------------------------------------
  // Query normalisation

  /** Minimum width of the episode number; shorter episodes get leading zeros. */
  const EpisodeWidth: nat := 2

  /** The episode as sent to the backend: `episode.padStart(2, '0')`. */
  function PadEpisode(episode: string): (padded: string)
    ensures |padded| == if |episode| >= EpisodeWidth then |episode| else EpisodeWidth
    ensures |episode| >= EpisodeWidth ==> padded == episode
    ensures padded[|padded| - |episode|..] == episode
    ensures forall i :: 0 <= i < |padded| - |episode| ==> padded[i] == '0'
  {
    KotlinText.PadStart(episode, EpisodeWidth, '0')
  }

  /** The episodic query `"$query ${season}x$episode"`. */
  function TvQuery(query: string, season: string, episode: string): (r: string)
    ensures |r| == |query| + |season| + 2 + |PadEpisode(episode)|
    ensures r[..|query| + 1] == query + " "
    ensures r[|query| + 1..|query| + 1 + |season|] == season
    ensures r[|query| + 1 + |season|] == 'x'
    ensures r[|r| - |PadEpisode(episode)|..] == PadEpisode(episode)
  {
    query + " " + season + "x" + PadEpisode(episode)
  }

  /** The single query string sent to the backend; absent values read as "". */
  function NormalizeQuery(p: Params, isTvSearch: bool): (query: string)
    ensures |query| >= |OrEmpty(Param(p, "q"))|
    ensures query[..|OrEmpty(Param(p, "q"))|] == OrEmpty(Param(p, "q"))
  {
    var q := OrEmpty(Param(p, "q"));
    if isTvSearch then TvQuery(q, OrEmpty(Param(p, "season")), OrEmpty(Param(p, "episode")))
    else q
  }

  // ---------------------------------------------------------------------------
  // Pagination and categories

  const DefaultOffset: int := 0
  const DefaultLimit: int := 100

  /** `parameters[name]?.toIntOrNull() ?: default`: the parameter's value when
      it is a 32-bit numeral, the default otherwise; never clamped. */
  function IntParamOrDefault(p: Params, name: string, default: int): (n: int)
    requires KotlinInt.InInt32(default)
    ensures KotlinInt.InInt32(n)
    ensures n == default || (name in p && KotlinInt.ToIntOrNull(p[name]) == Some(n))
    ensures name in p && KotlinInt.ToIntOrNull(p[name]).Some? ==> n == KotlinInt.ToIntOrNull(p[name]).value
  {
    match Param(p, name)
    case None => default
    case Some(s) => KotlinInt.ToIntOrNull(s).GetOr(default)
  }

  /** `tokens.map { it.toInt() }`: every token parsed in order, or the first
      token that is not a 32-bit numeral, which aborts the whole list. */
  function ParseCategoryList(tokens: seq<string>): (r: Result<seq<int>, string>)
    ensures r.Ok? <==> forall i :: 0 <= i < |tokens| ==> KotlinInt.ToIntOrNull(tokens[i]).Some?
    ensures r.Ok? ==> |r.value| == |tokens|
    ensures r.Ok? ==> forall i :: 0 <= i < |tokens| ==> KotlinInt.ToIntOrNull(tokens[i]) == Some(r.value[i])
    ensures r.Err? ==> exists i :: 0 <= i < |tokens| && tokens[i] == r.error
                          && KotlinInt.ToIntOrNull(tokens[i]).None?
                          && forall j :: 0 <= j < i ==> KotlinInt.ToIntOrNull(tokens[j]).Some?
    decreases |tokens|
  {
    if |tokens| == 0 then Ok([])
    else
      match KotlinInt.ToInt(tokens[0])
      case Err(bad) => Err(bad)
      case Ok(n) =>
        match ParseCategoryList(tokens[1..])
        case Err(bad) =>
          assert forall i :: 1 <= i < |tokens| ==> tokens[i] == tokens[1..][i - 1];
          Err(bad)
        case Ok(ns) => Ok([n] + ns)
  }

  /** `parameters["cat"]?.split(",")?.map { it.toInt() } ?: emptyList()`. */
  function ParseCategories(cat: Option<string>): (r: Result<seq<int>, string>)
    ensures cat.None? ==> r == Ok([])
    ensures cat.Some? ==>
              (r.Ok? <==> forall i :: 0 <= i < |KotlinText.Split(cat.value, ',')| ==>
                            KotlinInt.ToIntOrNull(KotlinText.Split(cat.value, ',')[i]).Some?)
    ensures cat.Some? && r.Ok? ==> |r.value| == |KotlinText.Split(cat.value, ',')|
    ensures cat.Some? && r.Ok? ==>
              forall i :: 0 <= i < |r.value| ==> KotlinInt.ToIntOrNull(KotlinText.Split(cat.value, ',')[i]) == Some(r.value[i])
    ensures r.Err? ==> cat.Some? && r.error in KotlinText.Split(cat.value, ',') && KotlinInt.ToIntOrNull(r.error).None?
    ensures r.Err? ==>
              (exists k :: 0 <= k < |KotlinText.Split(cat.value, ',')| && KotlinText.Split(cat.value, ',')[k] == r.error
                 && forall j :: 0 <= j < k ==> KotlinInt.ToIntOrNull(KotlinText.Split(cat.value, ',')[j]).Some?)
  {
    if cat.None? then Ok([])
    else
      var tokens := KotlinText.Split(cat.value, ',');
      var parsed := ParseCategoryList(tokens);
      if parsed.Ok? then parsed
      else
        // The token that fails is where the ensures' quantifier breaks.
        var k :| 0 <= k < |tokens| && tokens[k] == parsed.error && KotlinInt.ToIntOrNull(tokens[k]).None?
                 && forall j :: 0 <= j < k ==> KotlinInt.ToIntOrNull(tokens[j]).Some?;
        assert KotlinInt.ToIntOrNull(KotlinText.Split(cat.value, ',')[k]).None?;
        parsed
  }

  // ---------------------------------------------------------------------------
  // The backend port

  /** The arguments of `indexer.search(finalQuery, offset, limit, cat)`. */
  datatype SearchRequest = SearchRequest(query: string, offset: int, limit: int, categories: seq<int>)

  /** How a backend call can fail: the two recognised exceptions, or anything else. */
  datatype BackendError = Throttled | Unauthorized | OtherError(description: string)

  /** A serialised XML document (capabilities or search results). */
  datatype Document = Document(xml: string)

  /** One backend: its answer to `capabilities()` and its `search` behaviour. */
  datatype Indexer = Indexer(
    capabilities: Result<Document, BackendError>,
    search: SearchRequest -> Result<Document, BackendError>)

  // ---------------------------------------------------------------------------
  // Requests and responses

  /** An exception that escapes the request handler. */
  datatype Failure =
    | IllegalArgument(message: string)   // bad or missing `t`
    | NumberFormat(input: string)        // a `cat` token `toInt` rejected
    | Unhandled(error: BackendError)     // a backend failure nothing catches

  /** What the handler decides to do before any backend call. */
  datatype Plan = FetchCapabilities | RunSearch(request: SearchRequest) | Reject(failure: Failure)

  /** `performSearch` up to the backend call. */
  function PlanSearch(p: Params, isTvSearch: bool): (plan: Plan)
    ensures plan.RunSearch? || plan.Reject?
    ensures plan.Reject? ==> "cat" in p && plan.failure.NumberFormat?
    ensures plan.RunSearch? ==> KotlinInt.InInt32(plan.request.offset) && KotlinInt.InInt32(plan.request.limit)
  {
    var query := NormalizeQuery(p, isTvSearch);
    var offset := IntParamOrDefault(p, "offset", DefaultOffset);
    var limit := IntParamOrDefault(p, "limit", DefaultLimit);
    match ParseCategories(Param(p, "cat"))
    case Err(token) => Reject(NumberFormat(token))
    case Ok(categories) => RunSearch(SearchRequest(query, offset, limit, categories))
  }

  /** `handleRequests` up to the backend call. */
  function PlanRequest(p: Params): (plan: Plan)
    ensures plan.FetchCapabilities? <==> Param(p, "t") == Some("caps")
    ensures plan.RunSearch? ==> Param(p, "t") in {Some("tvsearch"), Some("movie")}
  {
    match ParseAction(p)
    case Caps => FetchCapabilities
    case TvSearch => PlanSearch(p, true)
    case Movie => PlanSearch(p, false)
    case UnknownAction(name) => Reject(IllegalArgument("Unknown action: " + name))
    case MissingAction => Reject(IllegalArgument("Missing action"))
  }

  /** What the client (or the server's generic error handling) receives. */
  datatype Response =
    | XmlOk(document: Document)           // 200 with an XML body
    | Text(status: nat, body: string)     // plain-text error response
    | Thrown(failure: Failure)            // propagated exception

  const ThrottledStatus: nat := 403
  const ThrottledBody: string := "You are being throttled. Retry in a few minutes."
  const UnauthorizedStatus: nat := 401
  const UnauthorizedBody: string := "Unauthorized, check your credentials."

  /** The `try`/`catch` around the search call. */
  function MapSearchResult(r: Result<Document, BackendError>): (resp: Response)
    ensures resp.XmlOk? <==> r.Ok?
    ensures resp.Text? ==> resp.status in {ThrottledStatus, UnauthorizedStatus}
    ensures resp.Thrown? ==> r.Err? && r.error.OtherError?
  {
    match r
    case Ok(doc) => XmlOk(doc)
    case Err(Throttled) => Text(ThrottledStatus, ThrottledBody)
    case Err(Unauthorized) => Text(UnauthorizedStatus, UnauthorizedBody)
    case Err(e) => Thrown(Unhandled(e))
  }

  /** The capabilities path catches nothing. */
  function MapCapabilitiesResult(r: Result<Document, BackendError>): (resp: Response)
    ensures !resp.Text?
    ensures resp.XmlOk? <==> r.Ok?
  {
    match r
    case Ok(doc) => XmlOk(doc)
    case Err(e) => Thrown(Unhandled(e))
  }

  /** A backend call the handler made. */
  datatype BackendCall = CapabilitiesCall | SearchCall(request: SearchRequest)

  /** The backend calls made while handling one request, and its response. */
  datatype Exchange = Exchange(calls: seq<BackendCall>, response: Response)

  /** `handleRequests(indexer)` for one request. */
  function HandleRequest(p: Params, indexer: Indexer): (e: Exchange)
    ensures |e.calls| <= 1
    ensures e.response.Text? ==> |e.calls| == 1 && e.calls[0].SearchCall?
    ensures e.calls == [] <==> e.response.Thrown? && !e.response.failure.Unhandled?
  {
    match PlanRequest(p)
    case FetchCapabilities =>
      Exchange([CapabilitiesCall], MapCapabilitiesResult(indexer.capabilities))
    case RunSearch(request) =>
      Exchange([SearchCall(request)], MapSearchResult(indexer.search(request)))
    case Reject(failure) =>
      Exchange([], Thrown(failure))
  }
}
