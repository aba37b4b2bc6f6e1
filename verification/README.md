# Torznab request translation of amule-arr-connector, in Dafny

amule-arr-connector exposes aMule and ddunlimited.net as Torznab indexers. Each
GET on an indexer's `api` endpoint carries query parameters. `handleRequests`
reads the action `t`:

- `caps` asks the bound indexer for its capabilities;
- `tvsearch` and `movie` go through `performSearch`;
- anything else throws.

`performSearch` does four things in order:

1. It builds one query string. For `tvsearch` it appends `" ${season}x$episode"`, with the episode zero-padded to two characters.
2. It reads `offset` and `limit`, falling back to defaults when they do not parse.
3. It reads `cat` strictly.
4. It calls the indexer's `search`. Throttling becomes 403 and bad credentials become 401, each with a fixed plain-text body. Any other failure propagates.

The model is pure and functional:

- `wrappers.dfy`: `Option` (a Kotlin nullable) and `Result` (a value or a thrown exception).
- `kotlin_int.dfy` (`KotlinInt`): Kotlin's `String.toIntOrNull()` / `toInt()` on 32-bit `Int`. It has a declarative definition and a method that follows the standard library's negative-accumulator loop with its overflow guards; the two are proved equal. It also has `Int.toString()` and the round trip between them.
- `kotlin_text.dfy` (`KotlinText`): `padStart` and `split(",")`, with `Join` as the inverse of `Split` in both directions.
- `torznab_api.dfy` (`TorznabApi`): the request translation itself.
  - The query parameters are a `map<string, string>`.
  - The indexer is an oracle: a capabilities answer and a search function, each returning a serialised XML document or a `BackendError` (`Throttled`, `Unauthorized`, `OtherError`).
  - `HandleRequest` returns an `Exchange`: the backend calls made (`CapabilitiesCall` / `SearchCall(request)`) and the `Response` (`XmlOk`, `Text(status, body)` or `Thrown(failure)`). This makes "search is never called" a statement about a value.
- `torznab_properties.dfy` (`TorznabProperties`): the properties below.

The parameter map holds the values as Ktor hands them to the handler, after the query string has been decoded (`+` read as a space, percent-escapes undone). The examples below are such decoded values. The model keeps these behaviours of the handler that a client might not expect:

- `offset` and `limit` are not clamped, so an `offset` value of "-5" and a `limit` value of "0" reach the backend as given. Nothing enforces offset ≥ 0 or limit ≥ 1.
- Categories are an ordered list with duplicates kept, not a set.
- A `t` that is present with the empty value "" is an unknown action, not a missing one.
- A capabilities call that fails, even with throttling or bad credentials, propagates unmapped.

## Model

| member | source | states |
|---|---|---|
| TorznabApi.Param | app/src/main/kotlin/amarr/torznab/TorznabApi.kt:40 | a parameter reads as null exactly when its name is absent, and otherwise as the value stored under that name |
| TorznabApi.OrEmpty | app/src/main/kotlin/amarr/torznab/TorznabApi.kt:57 | an absent value reads as "", a present one as itself |
| TorznabApi.ParseAction | app/src/main/kotlin/amarr/torznab/TorznabApi.kt:40-53 | the action is "missing" exactly when `t` is absent; it is `caps`, `tvsearch` or `movie` exactly when `t` has that value; it is unknown exactly when `t` is present with any other value, and then carries that raw value |
| TorznabProperties.ActionNameInverse | app/src/main/kotlin/amarr/torznab/TorznabApi.kt:40-53 | dispatch loses nothing: the decided action names exactly the `t` value it came from; together with the if-and-only-if clauses of `ParseAction` this fixes which branch each `t` value takes |
| TorznabApi.PlanRequest | app/src/main/kotlin/amarr/torznab/TorznabApi.kt:40-53 | the capabilities path is chosen exactly for `t=caps`; a search is planned only for `tvsearch` or `movie` |
| TorznabApi.HandleRequest | app/src/main/kotlin/amarr/torznab/TorznabApi.kt:33-86 | at most one backend call per request; a plain-text response only follows a search call; no backend call happens exactly when a request-shape exception (bad action or bad category) is thrown |
| TorznabProperties.CapsOnlyFetchesCapabilities | app/src/main/kotlin/amarr/torznab/TorznabApi.kt:42-44 | `t=caps` makes exactly one capabilities call and no search; success returns that document, and every failure (throttling included) propagates |
| TorznabProperties.BackendCallsFollowAction | app/src/main/kotlin/amarr/torznab/TorznabApi.kt:41-49 | the capabilities call happens if and only if `t=caps`; a search call only for `t=tvsearch` or `t=movie` |
| TorznabProperties.UnknownActionRejected | app/src/main/kotlin/amarr/torznab/TorznabApi.kt:51 | any other `t`, the empty string included, throws "Unknown action: <t>" with no backend call |
| TorznabProperties.MissingActionRejected | app/src/main/kotlin/amarr/torznab/TorznabApi.kt:53 | an absent `t` throws "Missing action" with no backend call |
| TorznabApi.PlanSearch | app/src/main/kotlin/amarr/torznab/TorznabApi.kt:56-72 | a search plan either runs a search with 32-bit offset and limit, or is rejected, and only with a number-format failure from a present `cat` |
| TorznabApi.PadEpisode | app/src/main/kotlin/amarr/torznab/TorznabApi.kt:61 | the padded episode has exactly max(length, 2) characters, is the episode itself when that already has two, and otherwise is the episode behind '0's only |
| TorznabApi.TvQuery | app/src/main/kotlin/amarr/torznab/TorznabApi.kt:62 | the episodic query is `q`, one space, the season, one `x` and the padded episode, in that order and with nothing else; `TorznabProperties.TvQueryDecodes` reads it back |
| TorznabApi.NormalizeQuery | app/src/main/kotlin/amarr/torznab/TorznabApi.kt:57-66 | the query sent to the backend always begins with `q` (empty when absent) |
| TorznabProperties.TvSearchQuery | app/src/main/kotlin/amarr/torznab/TorznabApi.kt:57-62 | for `tvsearch` the one search call asks for `q + " " + season + "x" + episode.padStart(2,'0')` with absent values as "", together with the parsed offset, limit and categories |
| TorznabProperties.MovieSearchQuery | app/src/main/kotlin/amarr/torznab/TorznabApi.kt:63-66 | for `movie` the one search call asks for `q` verbatim ("" when absent) |
| TorznabProperties.MovieQueryIgnoresEpisode | app/src/main/kotlin/amarr/torznab/TorznabApi.kt:63-66 | setting, changing or removing `season`/`episode` never changes a movie query |
| TorznabProperties.TvQueryExamples | app/src/main/kotlin/amarr/torznab/TorznabApi.kt:60-62 | "show"/"3"/"5" gives "show 3x05"; absent season and episode give "show x00"; episodes of two or more characters are kept |
| KotlinText.PadStart | app/src/main/kotlin/amarr/torznab/TorznabApi.kt:61 | the result has length max(len, width), ends with the input, and everything before it is the pad character |
| TorznabProperties.EpisodePadding | app/src/main/kotlin/amarr/torznab/TorznabApi.kt:61 | the padded episode has length at least 2; it equals the episode when that has 2 or more characters, and is otherwise the episode behind as many '0's as reach length 2 |
| TorznabProperties.EpisodePaddingKeepsNumber | app/src/main/kotlin/amarr/torznab/TorznabApi.kt:61 | padding a numeric episode keeps its number |
| TorznabProperties.DecodeTvQueryInverse | app/src/main/kotlin/amarr/torznab/TorznabApi.kt:62 | when the season has no space and the episode has no `x`, the query, season and episode can be read back from the assembled string |
| TorznabProperties.TvQueryDecodes | app/src/main/kotlin/amarr/torznab/TorznabApi.kt:60-62 | when the season has no space and the episode has no `x`, the episodic query can be read back into `q`, season and the padded episode |
| KotlinInt.ToIntOrNull | app/src/main/kotlin/amarr/torznab/TorznabApi.kt:68-69 | a parsed value is a 32-bit integer, read from an optional sign followed only by digits, and is non-negative when unsigned |
| KotlinInt.ParseIntOrNull | app/src/main/kotlin/amarr/torznab/TorznabApi.kt:68-69 | the standard library's overflow-guarded loop computes exactly the declarative `toIntOrNull` |
| KotlinInt.AccumulateDigits | app/src/main/kotlin/amarr/torznab/TorznabApi.kt:68-69 | the digit loop succeeds exactly when the string is all digits and its value is within the sign's limit, and then yields minus that value |
| KotlinInt.ShowRoundTrip | app/src/main/kotlin/amarr/torznab/TorznabApi.kt:68-70 | every 32-bit integer written in decimal parses back to itself, with both `toIntOrNull` and `toInt` |
| KotlinInt.LeadingZerosIgnored | app/src/main/kotlin/amarr/torznab/TorznabApi.kt:68-70 | leading zeros do not change a numeral's value |
| KotlinInt.ToInt | app/src/main/kotlin/amarr/torznab/TorznabApi.kt:70 | `toInt` succeeds exactly when `toIntOrNull` does, with the same value, and otherwise fails on that very input |
| TorznabApi.IntParamOrDefault | app/src/main/kotlin/amarr/torznab/TorznabApi.kt:68-69 | the result is a 32-bit integer; it is the parameter's parsed value whenever that parses, and otherwise the default |
| TorznabProperties.PagingDefaults | app/src/main/kotlin/amarr/torznab/TorznabApi.kt:68-69 | an absent or unparseable offset gives 0, and an absent or unparseable limit gives 100 |
| TorznabProperties.PagingNotClamped | app/src/main/kotlin/amarr/torznab/TorznabApi.kt:68-69 | every 32-bit value given for offset or limit reaches the backend unchanged, negatives and zero included |
| TorznabProperties.PagingOverflowFallsBack | app/src/main/kotlin/amarr/torznab/TorznabApi.kt:68-69 | a numeral outside the 32-bit range falls back to the default instead of wrapping |
| TorznabProperties.NegativeOffsetExample | app/src/main/kotlin/amarr/torznab/TorznabApi.kt:68 | an `offset` value of "-5" gives -5 |
| TorznabProperties.SignedLimitExample | app/src/main/kotlin/amarr/torznab/TorznabApi.kt:69 | a `limit` value of "+25" (sent as `%2B25`) gives 25 |
| TorznabProperties.PaddedLimitExample | app/src/main/kotlin/amarr/torznab/TorznabApi.kt:69 | a `limit` value of " 25" with a leading space (sent as `%2025` or `+25`) is not trimmed and gives the default 100 |
| KotlinText.Split | app/src/main/kotlin/amarr/torznab/TorznabApi.kt:70 | splitting gives at least one piece, and no piece contains the delimiter |
| KotlinText.JoinSplit | app/src/main/kotlin/amarr/torznab/TorznabApi.kt:70 | joining the pieces with the delimiter restores the input, so empty pieces are kept |
| KotlinText.SplitJoin | app/src/main/kotlin/amarr/torznab/TorznabApi.kt:70 | delimiter-free pieces joined by the delimiter split back into the same pieces |
| TorznabApi.ParseCategories | app/src/main/kotlin/amarr/torznab/TorznabApi.kt:70 | an absent `cat` gives the empty list; a present one gives a list exactly when every comma-separated token parses, one value per token in order, and otherwise fails on the first token of `cat` that does not parse; `CategoriesAbsent`, `CategoriesRoundTrip` and `BadCategoryAbortsSearch` below build on this |
| TorznabApi.ParseCategoryList | app/src/main/kotlin/amarr/torznab/TorznabApi.kt:70 | all tokens parse if and only if the result is a list; that list has one value per token, in order; otherwise the error is the first token that fails `toInt` |
| TorznabProperties.CategoriesAbsent | app/src/main/kotlin/amarr/torznab/TorznabApi.kt:70 | an absent `cat` gives the empty list |
| TorznabProperties.CategoriesRoundTrip | app/src/main/kotlin/amarr/torznab/TorznabApi.kt:70 | any non-empty list of 32-bit codes, comma-joined, is read back as the same list in order with duplicates |
| TorznabProperties.BadCategoryAbortsSearch | app/src/main/kotlin/amarr/torznab/TorznabApi.kt:70-76 | one token that is not a 32-bit numeral makes a search request throw a number-format failure on the first such token of `cat`, at or before that one, with no backend call |
| TorznabProperties.CategoryListExample | app/src/main/kotlin/amarr/torznab/TorznabApi.kt:70 | a `cat` value of "1,2,3" gives [1, 2, 3] |
| TorznabProperties.CategoryDuplicatesExample | app/src/main/kotlin/amarr/torznab/TorznabApi.kt:70 | a `cat` value of "5,5" gives [5, 5] |
| TorznabProperties.BadCategoryExample | app/src/main/kotlin/amarr/torznab/TorznabApi.kt:70 | a `cat` value of "1,x,3" fails on "x" |
| TorznabProperties.EmptyCategoryExample | app/src/main/kotlin/amarr/torznab/TorznabApi.kt:70 | a `cat` present with the empty value "" fails on the empty token instead of giving an empty list, and a `cat` value of "1,,3" fails on the empty token between the commas |
| TorznabProperties.SpacedCategoryExample | app/src/main/kotlin/amarr/torznab/TorznabApi.kt:70 | a `cat` value of "1, 2" fails on " 2" |
| TorznabApi.MapSearchResult | app/src/main/kotlin/amarr/torznab/TorznabApi.kt:74-85 | XML is returned if and only if the search succeeded; text responses carry only 403 or 401; only unrecognised failures propagate |
| TorznabApi.MapCapabilitiesResult | app/src/main/kotlin/amarr/torznab/TorznabApi.kt:44 | the capabilities path never answers with a text response; XML is returned if and only if the call succeeded |
| TorznabProperties.SearchOutcomeMapping | app/src/main/kotlin/amarr/torznab/TorznabApi.kt:74-85 | a planned search makes exactly that search call. Success gives the XML document. Throttled gives 403 "You are being throttled. Retry in a few minutes.". Unauthorized gives 401 "Unauthorized, check your credentials.". Any other failure propagates |
| TorznabProperties.XmlOnlyOnSuccess | app/src/main/kotlin/amarr/torznab/TorznabApi.kt:44-78 | a 200 XML response only ever carries the document of a backend call that succeeded |
| TorznabProperties.PlanIgnoresOtherParams | app/src/main/kotlin/amarr/torznab/TorznabApi.kt:40-70 | only the parameters `t`, `q`, `season`, `episode`, `offset`, `limit` and `cat` influence what the handler does (names as the handler spells them; see `TorznabApi.Param` under Left out) |

## Left out

- Routing (`torznabApi`, lines 18-31): the indexer is a parameter of `HandleRequest`, and the choice between the aMule and ddunlimited.net backends is the caller's.
- XML serialisation (lines 35-38, 44, 76): backend answers are modelled as already-serialised documents. The charset-qualified XML 1.0 declaration the serialiser is configured for is not modelled, and serialisation failures are not modelled.
- Logging (lines 34, 43, 72, 80, 83), content types and `respondText` itself: responses are values of `Response`. The HTTP status a propagated exception finally gets is decided by the server, outside this code, and is not modelled.
- `AmuleIndexer`, `DdunlimitednetIndexer` and the `Indexer` interface are not part of this model; a backend is an oracle.
- Coroutine suspension and cancellation: each request is handled as one pure function call.
- Query-string decoding: Ktor decodes the raw query string (percent-escapes, `+` as a space) before the handler sees it, and the model starts from the decoded map. How Ktor treats a name given without `=` (such as `?t`) is part of that decoding and is not modelled; the map either holds a value for a name or does not.
- Repeated query parameters: Ktor returns the first value of a repeated name; the model's map holds one value per name. Because Ktor compares names case-insensitively, `t` and `T` (or `cat` and `Cat`) given together also count as one repeated name there.
- TorznabApi.Param: looks up the exact key. Ktor's query parameters match names case-insensitively, so the source reads `?T=caps` as the `t` parameter. The model's map is keyed by the names as the handler spells them (`t`, `q`, `season`, `episode`, `offset`, `limit`, `cat`). Case folding is not modelled: for a map holding `T` but not `t` the model reports a missing action where the source takes the `T` value.
- KotlinInt.ToIntOrNull: accepts ASCII digits only. The JVM's `Character.digit` behind `toIntOrNull`/`toInt` also accepts other Unicode decimal digits (Arabic-Indic, full-width, …), so the model rejects some inputs the source accepts.
- KotlinText.PadStart: counts Unicode scalar values. Kotlin counts UTF-16 code units, so an episode made of one character outside the Basic Multilingual Plane counts as two characters in the source and is not padded there.
