# Suits Me Right: audit request path, in Dafny

This project models the sequential logic of the product-audit web app. The user types a product name into the search bar. The home page posts it to the `/api/analyze` route. The route asks a generative model for a JSON audit, cleans the reply, cuts out the JSON block and parses it. Back on the page, the result is shown and, for a signed-in user, saved as a history row.

Three pieces are modelled, one module each:

- `ResponseCleaner` (on top of `Text`): the route's cleaning chain. It deletes every "```json", then every "```", then every character in U+0000–U+001F and U+007F–U+009F. Then it trims and takes the greedy match of `\{[\s\S]*\}`.
- `AnalyzeRoute`: the `POST` handler's control flow, its prompt and its error answers.
- `HomePage` and `SearchBar`: the page's `handleSearch` state transitions, the history row and the sidebar refresh counter, the history-selection hand-off, and the bar's submission guards.

JavaScript values are the `JsValues.JsValue` datatype. JavaScript exceptions are the `Result.Throw` case, carrying the error's `message`. Everything the code calls but cannot see is passed in as a function parameter:

- the model call;
- `JSON.parse`;
- the engine's number formatting;
- `fetch`;
- the history insert;
- the clock.

The code has no query normalisation, no result cache, no retry or fallback model, no depth-counting JSON scanner, no score clamping and no de-duplication of concurrent searches, and the model has none either: there is one model call, a greedy first-`{`-to-last-`}` match, and durability is stored as it came.

## Model

| member | source | states |
|---|---|---|
| Text.RemoveAll | app/api/analyze/route.ts:63-64 | A literal global deletion, scanning left to right over non-overlapping occurrences, never lengthens the text; what it leaves is stated by `ResponseCleaner.FenceRemovalIsFenceFree` and `LeadingTicksAfterFenceRemoval` |
| Text.StripControl | app/api/analyze/route.ts:65 | No character in U+0000–U+001F or U+007F–U+009F is left, and the output is never longer than the input |
| Text.StripControlAppend | app/api/analyze/route.ts:65 | Deleting the class from a concatenation is deleting it from each part: the global replace acts character by character |
| Text.StripControlFixpoint | app/api/analyze/route.ts:65 | A string comes back unchanged exactly when it holds no character of the class |
| Text.StripControlIsFilter | app/api/analyze/route.ts:65 | Any function that keeps or drops single characters by the class and distributes over concatenation equals the deletion, so the output is exactly the kept characters in their original order |
| Text.Trim | app/api/analyze/route.ts:66 | `trim` never lengthens the text, and a non-empty result neither starts nor ends with ECMAScript whitespace or a line terminator |
| Text.TrimIsInfix | app/api/analyze/route.ts:66 | `trim` cuts a whitespace prefix and a whitespace suffix and nothing else; the result neither starts nor ends with whitespace |
| Text.TrimEmptyIff | components/SearchBar.tsx:43 | `query.trim()` is empty exactly when the query is all whitespace |
| ResponseCleaner.StripFences | app/api/analyze/route.ts:63-64 | The two fence deletions, "```json" first and then "```", leave no three backticks in a row and never lengthen the text |
| ResponseCleaner.Clean | app/api/analyze/route.ts:62-66 | `cleanJsonString` holds no control character, is no longer than the reply, and neither starts nor ends with whitespace |
| ResponseCleaner.LeadingTicksAfterFenceRemoval | app/api/analyze/route.ts:64 | Deleting "```" shortens a leading run of n backticks to n mod 3 |
| ResponseCleaner.FenceRemovalIsFenceFree | app/api/analyze/route.ts:64 | After deleting every "```", no three backticks in a row remain |
| ResponseCleaner.StripFencesIsFenceFree | app/api/analyze/route.ts:63-64 | Right after the two fence deletions, whatever the model returned, the text holds no "```" |
| ResponseCleaner.ControlStripCanRejoinFence | app/api/analyze/route.ts:63-66 | "``\n`" holds no fence after the fence deletions, but the cleaned string is "```": the cleaned string is not guaranteed fence-free |
| ResponseCleaner.MatchBlock | app/api/analyze/route.ts:68-69 | `match(/\{[\s\S]*\}/)` from the first `{` through the last `}`; any match found opens with `{`, closes with `}` and is at least two characters long |
| ResponseCleaner.MatchBlockIsRegexMatch | app/api/analyze/route.ts:68 | A block is found iff some `}` follows some `{`. It is then the leftmost-longest regex match, from the first `{` through the last `}`, and so opens with `{` and closes with `}` |
| ResponseCleaner.LeftmostLongestUnique | app/api/analyze/route.ts:68 | The regex match the engine returns is unique |
| ResponseCleaner.MatchBlockIgnoresBraceFreeEnds | app/api/analyze/route.ts:68 | Text without braces before or after the block never changes the match: braces inside are not balanced, only the outermost ones count |
| ResponseCleaner.TrimKeepsBlock | app/api/analyze/route.ts:66-68 | Trimming before matching never changes which block is extracted |
| ResponseCleaner.MatchBlockIdempotent | app/api/analyze/route.ts:68 | Matching an extracted block again returns it unchanged |
| ResponseCleaner.SearchBlock | app/api/analyze/route.ts:68 | A backtracking search (each start in turn, greedy body giving back to the last `}`) finds a match iff one exists, and finds the same block as `MatchBlock` |
| JsValues.ToJsString | app/api/analyze/route.ts:20 | ToString of a template interpolation succeeds exactly when the value holds no object with its own `toString` key, directly or inside arrays; otherwise it throws "Cannot convert object to primitive value" |
| AnalyzeRoute.Prompt | app/api/analyze/route.ts:19-56 | The prompt is built exactly when both the query and the location (or "United Kingdom" when it is falsy) convert to strings; otherwise the conversion's TypeError is thrown |
| AnalyzeRoute.HandlePost | app/api/analyze/route.ts:6-77 | The model is called at most once, a text is parsed only after that call, the parsed text opens with `{` and closes with `}`, and every answer has status 200 or 500 |
| AnalyzeRoute.AnswerRequest | app/api/analyze/route.ts:19-71 | Once the body and key are accepted: at most one model call, a parse only after it, and only of a `{`...`}` block |
| AnalyzeRoute.AnswerReply | app/api/analyze/route.ts:62-71 | After the model's reply: exactly the one call is recorded, and a text is parsed iff the cleaned reply has a block, which is then the text parsed |
| AnalyzeRoute.KeyMissingShortCircuits | app/api/analyze/route.ts:8-11 | Without a non-empty key the model is never called. The body is read and destructured first (line 8): a body that can be destructured (neither null nor undefined) gets 500 "API Key missing"; a `null` or `undefined` body gets "Audit failed: " and the destructuring TypeError; a body that cannot be read gets "Audit failed: " and its message |
| AnalyzeRoute.ModelCalledOnce | app/api/analyze/route.ts:8-58 | The model is called exactly once iff the body could be destructured, the key is present, and the body's `productQuery` and `location` convert to strings, with the prompt built from them; no failure path calls it again |
| AnalyzeRoute.UnconvertibleFieldIsAuditFailure | app/api/analyze/route.ts:19-75 | A query or location holding an object with its own `toString` key is answered 500 "Audit failed: Cannot convert object to primitive value" before any model call |
| AnalyzeRoute.OwnToStringStopsTheRoute | app/api/analyze/route.ts:19-20 | The bodies `{"productQuery": {"toString": 1}}` and a location `[null, {"toString": 1}]` never reach the model |
| AnalyzeRoute.SuccessComesFromParse | app/api/analyze/route.ts:71-75 | Status 200 arises only from a successful parse, and its body is exactly the parsed value |
| AnalyzeRoute.SuccessIsParsedBlock | app/api/analyze/route.ts:68-71 | A 200 answer is what `JSON.parse` returned for the single extracted text, and that text opens with `{` and closes with `}` |
| AnalyzeRoute.FailuresAreReported | app/api/analyze/route.ts:11-76 | Every non-200 answer is status 500 with `{error: m}`, where m is "API Key missing" or starts with "Audit failed: " |
| AnalyzeRoute.NoBlockIsAuditFailure | app/api/analyze/route.ts:68-76 | When no `}` follows a `{` in the cleaned reply, the answer is 500 "Audit failed: AI failed to generate a valid data block." and nothing is parsed |
| AnalyzeRoute.ParseFailureIsAuditFailure | app/api/analyze/route.ts:71-76 | A `JSON.parse` exception is answered 500 with "Audit failed: " before its message |
| AnalyzeRoute.PromptQuotesQuery | app/api/analyze/route.ts:20 | With a string query the prompt is built iff the location converts, and then the query appears verbatim between double quotes right after the prompt's lead |
| AnalyzeRoute.PromptDeterminesQuery | app/api/analyze/route.ts:20 | Different string queries never produce the same built prompt |
| AnalyzeRoute.PromptLocation | app/api/analyze/route.ts:20 | A falsy location (absent, null, "", 0, false) gives the same prompt as "United Kingdom"; with a convertible query, a non-empty location string follows " in " as given |
| SearchBar.EnterSubmits | components/SearchBar.tsx:15-19 | `handleKeyDown` submits on the "Enter" key when no search is in flight |
| SearchBar.InputDisabled | components/SearchBar.tsx:37 | The text input is disabled exactly while a search is in flight |
| SearchBar.ButtonDisabled | components/SearchBar.tsx:43 | The button is disabled iff a search is in flight or the query is all whitespace (the empty query included) |
| SearchBar.React | components/SearchBar.tsx:15-77 | The bar never submits while loading and only typing or a hint rewrites the query |
| SearchBar.SubmitIff | components/SearchBar.tsx:15-43 | The bar submits iff not loading and either the key is "Enter" (any query) or the button is clicked with a query that is not all whitespace; no other key submits |
| SearchBar.ButtonNeverSubmitsBlank | components/SearchBar.tsx:43 | A button click that submits always carries a non-empty, non-blank query |
| SearchBar.TypingIsVerbatim | components/SearchBar.tsx:33-37 | Typing replaces the query with the input's whole value unchanged; nothing can be typed while loading |
| SearchBar.HintsAreSearchable | components/SearchBar.tsx:66-77 | Each hint writes a query the button accepts, the two queries differ, and each label ("Dyson V15") is a prefix of its query ("Dyson V15 Detect") |
| HomePage.EffectiveQuery | app/page.tsx:34 | A non-empty custom query wins over the typed one; an absent or empty custom query gives the typed one; the result is empty iff both are |
| HomePage.EffectiveQueryIsOr | app/page.tsx:34 | The query searched is JavaScript's logical OR of `customQuery` and `query` (`JsValues.Or`), with an absent custom query as `undefined` |
| HomePage.Settle | app/page.tsx:41-66 | Settling changes only `analysis`, `error` and the sidebar key; at most one row is built, only for a signed-in user; the key rises by one iff a row was built and its insert reported no error |
| HomePage.BuildRow | app/page.tsx:53-61 | Building the row fails iff the body or its `main_product` is undefined or null; a row records the user's id and the whole body as `result` |
| HomePage.HandleSearch | app/page.tsx:33-70 | A search never changes the query or the user, sends at most one request, and inserts at most one row |
| HomePage.EmptyQueryDoesNothing | app/page.tsx:34-35 | An empty effective query (the custom query if non-empty, else the typed one) returns at once with no request and no state change |
| HomePage.OnlyEmptyQueryIsRejected | app/page.tsx:34-46 | A request is sent iff the effective query is not "", whitespace-only included, with body `{productQuery: q, userId}` |
| HomePage.SearchStartsClearedAndEndsIdle | app/page.tsx:37-69 | While in flight, `analysis` and `error` are cleared and `isAnalyzing` is true; on every exit `isAnalyzing` is false |
| HomePage.RejectedReplyShowsError | app/page.tsx:48-66 | A reply that is not ok leaves `error` "Search failed.", `analysis` null, no insert and the sidebar key unchanged |
| HomePage.AcceptedReplyShowsResult | app/page.tsx:49-63 | An ok reply whose body reads shows that body and ends idle; it ends with no error iff the user is signed out or the row could be built, a built row is inserted, and otherwise the row's TypeError is the error and nothing is inserted |
| HomePage.ThrownRequestShowsItsMessage | app/page.tsx:42-68 | A rejected `fetch` or a throwing `res.json()` ends idle with that error's message, no result, no insert and the sidebar key unchanged |
| HomePage.HistoryRowContents | app/page.tsx:50-62 | An inserted row implies a signed-in user and a body with a `main_product`; it records that user, the shown result, and `durability` when truthy, else 0, unclamped |
| HomePage.SignedOutInsertsNothing | app/page.tsx:52 | With no user, nothing is inserted |
| HomePage.SidebarKeyCountsSavedRows | app/page.tsx:53-63 | The sidebar key rises by exactly 1 iff the insert reports no error, and otherwise stays; a failed insert sets no error |
| HomePage.MissingProductSetsBoth | app/page.tsx:50-66 | For a signed-in user, a body without `main_product` leaves both `analysis` (the body) and `error` set, the latter to V8's text "Cannot read properties of undefined (reading 'name')", and inserts nothing |
| HomePage.DurabilityIsNotClamped | app/page.tsx:58 | Durability 150 and -10 are written as they came |
| HomePage.RequestsUseDefaultLocation | app/page.tsx:42-46 | The request never carries `location` and its query is a string, so the route always builds the prompt, says "United Kingdom" and quotes the query as sent |
| HomePage.RouteFetch | app/page.tsx:42-48 | Against the route, `fetch` always resolves with a readable body, and `res.ok` holds iff the route answered 200 |
| HomePage.MissingKeyEndsInSearchFailed | app/page.tsx:41-69 | Against the route with no key, whatever its template, every search that is sent ends with "Search failed.", no result and no history row |
| HomePage.OnBarEvent | app/page.tsx:83-88 | A bar event sends a request only when no search is in flight |
| HomePage.BarEventsThatReachTheRoute | components/SearchBar.tsx:15-43 | With the page's guard, a request is sent iff not loading and either Enter is pressed on a non-empty query or the button is clicked on a non-blank one; the query goes out as typed |
| HomePage.EnterSendsBlankQueries | components/SearchBar.tsx:15-19 | Enter on "" sends nothing, Enter on "   " sends "   ", and the button on "   " sends nothing |
| HomePage.SelectHistory | app/page.tsx:74-77 | A history click changes at most `analysis` |
| HomePage.SelectHistoryLosesResult | app/page.tsx:76 | As written, selecting the row a search just saved shows `undefined` rather than that search's result |
| HomePage.SelectHistoryIntended | components/Sidebar.tsx:30 | The corrected hand-off changes at most `analysis` |
| HomePage.SelectHistoryRestoresResult | components/Sidebar.tsx:30 | With the corrected hand-off, selecting the row a search saved shows exactly the result that search displayed |

`AnalyzeRoute.HandlePost` and `HomePage.RouteFetch` take the prompt template as their first argument. The route's own template is the constant `AnalyzeRoute.AuditTemplate`: the lead before the quoted query, and the instruction text after the location (route.ts:19-56). The deployed route is `HandlePost(AuditTemplate, …)`. Every lemma holds for every template, so each holds for this one.

## Left out

- The model client (route.ts:13-17) and `generateContent` (route.ts:58-59) are a network call. They are the `generate` oracle, which returns text or throws.
- `JSON.parse` (route.ts:71) and `res.json()` (page.tsx:49) are library parsers. Each is an oracle or a given outcome; no JSON grammar is modelled.
- `req.json()` (route.ts:8) is given as its outcome. `userId` is destructured there but never used, so the model does not read it.
- `console.error` (route.ts:74) is logging only.
- Number-to-text conversion inside the prompt template is engine-defined. It is the `numberText` oracle.
- Exception texts: TypeErrors from property reads, destructuring and ToString use V8's wording (`JsValues.ReadError`, `AnalyzeRoute.DestructureError`, `JsValues.ConvertError`). The route runs on Node, where that wording holds. page.tsx runs in the browser, and there another engine words the same TypeError differently (Firefox: "data.main_product is undefined"). `HomePage.MissingProductSetsBoth` pins V8's text, so it describes Chromium-based browsers; `HomePage.AcceptedReplyShowsResult` states only that the thrown message becomes `error`, whatever the engine.
- JavaScript numbers are reals. NaN cannot come out of JSON; an overflowing literal such as `1e400` parses to ±Infinity, which `Num(real)` does not represent; 53-bit precision is not modelled; `sidebarKey` is an unbounded integer.
- Objects are maps from key to value. Property order, duplicate keys and prototype properties are not modelled. A read of one of the keys used here from a string, number, boolean or array gives `undefined`.
- Strings are sequences of Unicode scalar values, not UTF-16 code units. Every character class used here lies in the Basic Multilingual Plane, where the two agree.
- Supabase: the auth effect (page.tsx:25-31) is left out and `user` is part of the page state. The history insert is an oracle that reports an error or none. The timestamp is a parameter.
- React: state updates run in order, and batching and async scheduling are not modelled. A disabled input or button delivers no events, which is the browser's behaviour.
- Rendering and styling (page.tsx:72-112, SearchBar.tsx:21-80) are left out, apart from how the bar's props are wired.
- The `analysis`-versus-`results` prop mismatch with components/AnalysisResults.tsx is a UI wiring issue. It is not modelled.
- components/Sidebar.tsx is only modelled at its click hand-off (line 30). Its history query and its ordering belong to the database.
- components/HistorySidebar.tsx, app/admin/page.tsx, app/login/page.tsx, the payment webhook (app/api/webhooks/stripe/route.ts) and next.config.ts are not part of this model. They hold I/O, rendering, a library signature check, or build configuration.

## Findings

| source | as written | input that shows it | evidently intended | confidence | as-written member | corrected member |
|---|---|---|---|---|---|---|
| app/page.tsx:76 | The sidebar already passes `item.result` (components/Sidebar.tsx:30), and the page stores `historicalData.result`, which is `item.result.result` | Any row saved by `handleSearch`: its `result` is the audit body (`main_product`, `suits_me_reason`), which has no `result` key, so `analysis` becomes `undefined` and nothing is shown | Show the passed value, `item.result` | high; not executed | HomePage.SelectHistoryLosesResult | HomePage.SelectHistoryRestoresResult |
