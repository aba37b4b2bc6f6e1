/** What the Torznab handler promises its clients, proved about `TorznabApi`. */
module TorznabProperties {
  import opened Wrappers
  import opened KotlinInt
  import opened KotlinText
  import opened TorznabApi

  // ---------------------------------------------------------------------------
  // Action dispatch

  /** Dispatch keeps the whole of `t`: the action names the value it came from. */
  lemma ActionNameInverse(p: Params)
    ensures ActionName(ParseAction(p)) == Param(p, "t")
  {
  }

  /** `t=caps` makes exactly one backend call, to `capabilities()`, and never
      searches; its answer is returned as XML or its failure propagates, with
      no status mapping even for throttling or bad credentials. */
  lemma CapsOnlyFetchesCapabilities(p: Params, indexer: Indexer)
    requires Param(p, "t") == Some("caps")
    ensures HandleRequest(p, indexer).calls == [CapabilitiesCall]
    ensures indexer.capabilities.Ok? ==>
              HandleRequest(p, indexer).response == XmlOk(indexer.capabilities.value)
    ensures indexer.capabilities.Err? ==>
              HandleRequest(p, indexer).response == Thrown(Unhandled(indexer.capabilities.error))
  {
  }

  /** The capabilities call happens exactly for `t=caps`, and a search call
      only for `t=tvsearch` or `t=movie`. */
  lemma BackendCallsFollowAction(p: Params, indexer: Indexer)
    ensures CapabilitiesCall in HandleRequest(p, indexer).calls <==> Param(p, "t") == Some("caps")
    ensures (exists r :: SearchCall(r) in HandleRequest(p, indexer).calls) ==>
              Param(p, "t") == Some("tvsearch") || Param(p, "t") == Some("movie")
  {
  }

  /** Any `t` other than the three known actions (the empty string included)
      throws "Unknown action" without calling the backend. */
  lemma UnknownActionRejected(p: Params, indexer: Indexer)
    requires "t" in p && p["t"] !in {"caps", "tvsearch", "movie"}
    ensures HandleRequest(p, indexer) == Exchange([], Thrown(IllegalArgument("Unknown action: " + p["t"])))
  {
  }

  /** An absent `t` throws "Missing action" without calling the backend. */
  lemma MissingActionRejected(p: Params, indexer: Indexer)
    requires "t" !in p
    ensures HandleRequest(p, indexer) == Exchange([], Thrown(IllegalArgument("Missing action")))
  {
  }

  // ---------------------------------------------------------------------------
  // Query normalisation

  /** For `t=tvsearch` the backend is asked for `"$q ${season}x$episode"` with
      the episode zero-padded to two characters and absent values read as "". */
  lemma TvSearchQuery(p: Params, indexer: Indexer)
    requires Param(p, "t") == Some("tvsearch")
    requires ParseCategories(Param(p, "cat")).Ok?
    ensures HandleRequest(p, indexer).calls == [SearchCall(SearchRequest(
              OrEmpty(Param(p, "q")) + " " + OrEmpty(Param(p, "season")) + "x"
                + PadStart(OrEmpty(Param(p, "episode")), 2, '0'),
              IntParamOrDefault(p, "offset", DefaultOffset),
              IntParamOrDefault(p, "limit", DefaultLimit),
              ParseCategories(Param(p, "cat")).value))]
  {
  }

  /** For `t=movie` the backend is asked for `q` verbatim ("" when absent). */
  lemma MovieSearchQuery(p: Params, indexer: Indexer)
    requires Param(p, "t") == Some("movie")
    requires ParseCategories(Param(p, "cat")).Ok?
    ensures HandleRequest(p, indexer).calls == [SearchCall(SearchRequest(
              OrEmpty(Param(p, "q")),
              IntParamOrDefault(p, "offset", DefaultOffset),
              IntParamOrDefault(p, "limit", DefaultLimit),
              ParseCategories(Param(p, "cat")).value))]
  {
  }

  /** `season` and `episode` never affect a movie query. */
  lemma MovieQueryIgnoresEpisode(p: Params, season: Option<string>, episode: Option<string>)
    ensures NormalizeQuery(WithParam(WithParam(p, "season", season), "episode", episode), false)
            == NormalizeQuery(p, false)
  {
    var p' := WithParam(WithParam(p, "season", season), "episode", episode);
    assert Param(p', "q") == Param(p, "q");
  }

  /** `p` with parameter `name` set to `v`, or removed when `v` is None. */
  function WithParam(p: Params, name: string, v: Option<string>): (p': Params)
    ensures Param(p', name) == v
    ensures forall k :: k != name ==> Param(p', k) == Param(p, k)
  {
    match v
    case Some(s) => p[name := s]
    case None => p - {name}
  }

  lemma TvQueryExamples()
    ensures TvQuery("show", "3", "5") == "show 3x05"
    ensures TvQuery("show", "", "") == "show x00"
    ensures TvQuery("show", "1", "12") == "show 1x12"
    ensures TvQuery("show", "1", "123") == "show 1x123"
  {
    assert Repeat('0', 1) == "0";
    assert Repeat('0', 2) == "00";
    assert PadEpisode("5") == "05";
    assert PadEpisode("") == "00";
    assert PadEpisode("12") == "12";
    assert PadEpisode("123") == "123";
  }

  /** The padded episode is at least two characters; it is the episode itself
      when that is already long enough, and otherwise the episode behind as
      many zeros as make two characters. */
  lemma EpisodePadding(episode: string)
    ensures |PadEpisode(episode)| >= 2
    ensures |episode| >= 2 ==> PadEpisode(episode) == episode
    ensures |episode| < 2 ==> PadEpisode(episode) == Repeat('0', 2 - |episode|) + episode
  {
    var r := PadEpisode(episode);
    if |episode| < 2 {
      assert r[..2 - |episode|] == Repeat('0', 2 - |episode|);
      assert r == r[..2 - |episode|] + r[2 - |episode|..];
    }
  }

  /** A numeric episode keeps its number after padding. */
  lemma EpisodePaddingKeepsNumber(episode: string)
    requires AllDigits(episode)
    ensures AllDigits(PadEpisode(episode))
    ensures DigitsValue(PadEpisode(episode)) == DigitsValue(episode)
  {
    EpisodePadding(episode);
    if |episode| < 2 {
      LeadingZerosIgnored(2 - |episode|, episode);
    }
  }

  /** Position of the last `c` in `s`. */
  function LastIndexOf(s: string, c: char): (r: Option<nat>)
    ensures r.Some? ==> r.value < |s| && s[r.value] == c && c !in s[r.value + 1..]
    ensures r.None? ==> c !in s
    decreases |s|
  {
    if |s| == 0 then None
    else if s[|s| - 1] == c then Some(|s| - 1)
    else
      var r := LastIndexOf(s[..|s| - 1], c);
      assert s == s[..|s| - 1] + [s[|s| - 1]];
      r
  }

  lemma {:induction false} LastIndexOfSplit(a: string, c: char, b: string)
    requires c !in b
    ensures LastIndexOf(a + [c] + b, c) == Some(|a|)
    decreases |b|
  {
    var s := a + [c] + b;
    if |b| > 0 {
      assert s[..|s| - 1] == a + [c] + b[..|b| - 1];
      assert c !in b[..|b| - 1];
      LastIndexOfSplit(a, c, b[..|b| - 1]);
    }
  }

  /** Reads an episodic query back into query, season and padded episode:
      the episode follows the last `x`, the season the last space before it. */
  function DecodeTvQuery(query: string): Option<(string, string, string)> {
    match LastIndexOf(query, 'x')
    case None => None
    case Some(ix) =>
      match LastIndexOf(query[..ix], ' ')
      case None => None
      case Some(sp) => Some((query[..sp], query[sp + 1..ix], query[ix + 1..]))
  }

  /** Decoding inverts the assembly whenever the season has no space and the
      episode has no `x`; the season itself may contain an `x`. */
  lemma {:induction false} DecodeTvQueryInverse(q: string, season: string, episode: string)
    requires ' ' !in season && 'x' !in episode
    ensures DecodeTvQuery(q + " " + season + "x" + episode) == Some((q, season, episode))
  {
    var left := q + [' '] + season;
    var query := left + ['x'] + episode;
    assert q + " " + season + "x" + episode == query;
    LastIndexOfSplit(left, 'x', episode);
    assert query[..|left|] == left;
    LastIndexOfSplit(q, ' ', season);
    assert query[..|left|][..|q|] == q;
    assert query[..|q|] == q;
    assert query[|q| + 1..|left|] == season;
    assert query[|left| + 1..] == episode;
  }

  /** The episodic query is unambiguous when the season has no space and the
      episode no `x`: the backend can recover all three parts. */
  lemma TvQueryDecodes(q: string, season: string, episode: string)
    requires ' ' !in season && 'x' !in episode
    ensures DecodeTvQuery(TvQuery(q, season, episode)) == Some((q, season, PadEpisode(episode)))
  {
    var padded := PadEpisode(episode);
    EpisodePadding(episode);
    assert 'x' !in padded by {
      if |episode| < 2 {
        assert padded == Repeat('0', 2 - |episode|) + episode;
      }
    }
    DecodeTvQueryInverse(q, season, padded);
  }

  // ---------------------------------------------------------------------------
  // Pagination

  /** Absent or unparseable `offset`/`limit` fall back to 0 and 100. */
  lemma PagingDefaults(p: Params)
    ensures ("offset" !in p || ToIntOrNull(p["offset"]).None?) ==> IntParamOrDefault(p, "offset", DefaultOffset) == 0
    ensures ("limit" !in p || ToIntOrNull(p["limit"]).None?) ==> IntParamOrDefault(p, "limit", DefaultLimit) == 100
  {
  }

  /** Every 32-bit value written in `offset` or `limit` reaches the backend
      unchanged: negative offsets and a zero limit included, nothing clamped. */
  lemma PagingNotClamped(p: Params, name: string, n: int, default: int)
    requires InInt32(n) && InInt32(default)
    ensures IntParamOrDefault(p[name := Show(n)], name, default) == n
  {
    ShowRoundTrip(n);
  }

  /** A numeral beyond the 32-bit range is not wrapped: the default is used. */
  lemma PagingOverflowFallsBack(p: Params, name: string, n: int, default: int)
    requires !InInt32(n) && InInt32(default)
    ensures IntParamOrDefault(p[name := Show(n)], name, default) == default
  {
    var s := Show(n);
    if n < 0 {
      NatDigitsValue(-n);
      assert Magnitude(s) == NatDigits(-n);
    } else {
      NatDigitsValue(n);
    }
  }

  lemma NegativeOffsetExample(p: Params)
    ensures IntParamOrDefault(p["offset" := "-5"], "offset", DefaultOffset) == -5
  {
    assert DigitsValue("5") == 5;
  }

  lemma SignedLimitExample(p: Params)
    ensures IntParamOrDefault(p["limit" := "+25"], "limit", DefaultLimit) == 25
  {
    assert "+25"[1..] == "25";
    assert DigitsValue("25") == 25 by { assert "25"[..1] == "2"; }
  }

  lemma PaddedLimitExample(p: Params)
    ensures IntParamOrDefault(p["limit" := " 25"], "limit", DefaultLimit) == 100
  {
    assert !IsDigit(" 25"[0]);
  }

  // ---------------------------------------------------------------------------
  // Categories

  lemma CategoriesAbsent()
    ensures ParseCategories(None) == Ok([])
  {
  }

  /** Map `Show` over a list of integers. */
  function ShowAll(ns: seq<int>): (r: seq<string>)
    ensures |r| == |ns|
    ensures forall i :: 0 <= i < |ns| ==> r[i] == Show(ns[i])
  {
    if |ns| == 0 then [] else [Show(ns[0])] + ShowAll(ns[1..])
  }

  /** A list whose every token parses is read as exactly those values. */
  lemma ParseCategoryListAllGood(tokens: seq<string>, ns: seq<int>)
    requires |tokens| == |ns|
    requires forall i :: 0 <= i < |tokens| ==> ToIntOrNull(tokens[i]) == Some(ns[i])
    ensures ParseCategoryList(tokens) == Ok(ns)
  {
    var r := ParseCategoryList(tokens);
    assert r.Ok?;
    assert r.value == ns;
  }

  /** A non-empty list of 32-bit category codes written comma-separated is read
      back as the same list, in order, duplicates included. */
  lemma CategoriesRoundTrip(ns: seq<int>)
    requires |ns| >= 1
    requires forall i :: 0 <= i < |ns| ==> InInt32(ns[i])
    ensures ParseCategories(Some(Join(ShowAll(ns), ','))) == Ok(ns)
  {
    var tokens := ShowAll(ns);
    forall i | 0 <= i < |tokens|
      ensures ToIntOrNull(tokens[i]) == Some(ns[i])
    {
      ShowRoundTrip(ns[i]);
    }
    forall i | 0 <= i < |tokens|
      ensures ',' !in tokens[i]
    {
      ShowHasNoComma(ns[i]);
    }
    SplitJoin(tokens, ',');
    ParseCategoryListAllGood(tokens, ns);
  }

  lemma ShowHasNoComma(n: int)
    ensures ',' !in Show(n)
  {
  }

  /** A `cat` with a token that is not a 32-bit numeral (an empty token or one
      with spaces included) aborts the request before the search call, with
      the first such token. */
  lemma BadCategoryAbortsSearch(p: Params, indexer: Indexer, i: nat)
    requires Param(p, "t") in {Some("tvsearch"), Some("movie")}
    requires "cat" in p
    requires i < |Split(p["cat"], ',')| && ToIntOrNull(Split(p["cat"], ',')[i]).None?
    ensures HandleRequest(p, indexer).calls == []
    ensures HandleRequest(p, indexer).response.Thrown?
    ensures HandleRequest(p, indexer).response.failure.NumberFormat?
    ensures HandleRequest(p, indexer).response.failure.input in Split(p["cat"], ',')
    ensures exists k :: 0 <= k <= i && Split(p["cat"], ',')[k] == HandleRequest(p, indexer).response.failure.input
              && forall j :: 0 <= j < k ==> ToIntOrNull(Split(p["cat"], ',')[j]).Some?
  {
  }

  lemma CategoryListExample()
    ensures ParseCategories(Some("1,2,3")) == Ok([1, 2, 3])
  {
    assert DigitsValue("1") == 1 && DigitsValue("2") == 2 && DigitsValue("3") == 3;
    assert ToIntOrNull("1") == Some(1);
    assert ToIntOrNull("2") == Some(2);
    assert ToIntOrNull("3") == Some(3);
    SplitsAs("1,2,3", ["1", "2", "3"]);
    ParseCategoryListAllGood(["1", "2", "3"], [1, 2, 3]);
  }

  lemma CategoryDuplicatesExample()
    ensures ParseCategories(Some("5,5")) == Ok([5, 5])
  {
    assert DigitsValue("5") == 5;
    assert ToIntOrNull("5") == Some(5);
    SplitsAs("5,5", ["5", "5"]);
    ParseCategoryListAllGood(["5", "5"], [5, 5]);
  }

  lemma BadCategoryExample()
    ensures ParseCategories(Some("1,x,3")) == Err("x")
  {
    assert DigitsValue("1") == 1;
    assert ToIntOrNull("1") == Some(1);
    assert ToIntOrNull("x") == None;
    SplitsAs("1,x,3", ["1", "x", "3"]);
  }

  /** An empty token is not a numeral, whether it is the whole of `cat` or
      sits between two commas. */
  lemma EmptyCategoryExample()
    ensures ParseCategories(Some("")) == Err("")
    ensures ParseCategories(Some("1,,3")) == Err("")
  {
    assert DigitsValue("1") == 1;
    assert ToIntOrNull("1") == Some(1);
    assert ToIntOrNull("") == None;
    SplitsAs("", [""]);
    SplitsAs("1,,3", ["1", "", "3"]);
  }

  lemma SpacedCategoryExample()
    ensures ParseCategories(Some("1, 2")) == Err(" 2")
  {
    assert DigitsValue("1") == 1;
    assert ToIntOrNull("1") == Some(1);
    assert !IsDigit(" 2"[0]);
    assert ToIntOrNull(" 2") == None;
    SplitsAs("1, 2", ["1", " 2"]);
  }

  lemma SplitsAs(s: string, parts: seq<string>)
    requires |parts| >= 1 && Join(parts, ',') == s
    requires forall i :: 0 <= i < |parts| ==> ',' !in parts[i]
    ensures Split(s, ',') == parts
  {
    SplitJoin(parts, ',');
  }

  // ---------------------------------------------------------------------------
  // Failure mapping

  /** A planned search makes exactly that one search call; success returns
      the XML document, throttling becomes 403 and bad credentials 401 with
      fixed bodies, and any other failure propagates. */
  lemma SearchOutcomeMapping(p: Params, indexer: Indexer)
    requires PlanRequest(p).RunSearch?
    ensures HandleRequest(p, indexer).calls == [SearchCall(PlanRequest(p).request)]
    ensures var r := indexer.search(PlanRequest(p).request);
            HandleRequest(p, indexer).response ==
              match r
              case Ok(doc) => XmlOk(doc)
              case Err(Throttled) => Text(403, "You are being throttled. Retry in a few minutes.")
              case Err(Unauthorized) => Text(401, "Unauthorized, check your credentials.")
              case Err(OtherError(d)) => Thrown(Unhandled(OtherError(d)))
  {
  }

  /** A 200 XML response comes only from a backend call that succeeded with
      that very document. */
  lemma XmlOnlyOnSuccess(p: Params, indexer: Indexer)
    requires HandleRequest(p, indexer).response.XmlOk?
    ensures var e := HandleRequest(p, indexer);
            (e.calls == [CapabilitiesCall] && indexer.capabilities == Ok(e.response.document))
            || (exists r :: e.calls == [SearchCall(r)] && indexer.search(r) == Ok(e.response.document))
  {
  }

  // ---------------------------------------------------------------------------
  // Independence from other parameters

  predicate AgreeOnRecognisedParams(p: Params, p': Params) {
    forall k :: k in {"t", "q", "season", "episode", "offset", "limit", "cat"} ==> Param(p, k) == Param(p', k)
  }

  /** Only the seven recognised parameters influence what the handler does. */
  lemma PlanIgnoresOtherParams(p: Params, p': Params)
    requires AgreeOnRecognisedParams(p, p')
    ensures PlanRequest(p) == PlanRequest(p')
  {
    assert Param(p, "t") == Param(p', "t");
    assert ParseAction(p) == ParseAction(p');
    PlanSearchIgnoresOtherParams(p, p', true);
    PlanSearchIgnoresOtherParams(p, p', false);
  }

  lemma PlanSearchIgnoresOtherParams(p: Params, p': Params, isTvSearch: bool)
    requires AgreeOnRecognisedParams(p, p')
    ensures PlanSearch(p, isTvSearch) == PlanSearch(p', isTvSearch)
  {
    assert Param(p, "q") == Param(p', "q");
    assert Param(p, "season") == Param(p', "season");
    assert Param(p, "episode") == Param(p', "episode");
    assert NormalizeQuery(p, isTvSearch) == NormalizeQuery(p', isTvSearch);
    assert Param(p, "offset") == Param(p', "offset");
    assert IntParamOrDefault(p, "offset", DefaultOffset) == IntParamOrDefault(p', "offset", DefaultOffset);
    assert Param(p, "limit") == Param(p', "limit");
    assert IntParamOrDefault(p, "limit", DefaultLimit) == IntParamOrDefault(p', "limit", DefaultLimit);
    assert Param(p, "cat") == Param(p', "cat");
  }
}
