/** The home page's search flow (app/page.tsx): `handleSearch` as a sequence
    of state updates, the history row it builds and inserts, the sidebar
    refresh counter, and the hand-off when a history entry is selected. The
    request, the JSON body of the reply and the history insert are oracles;
    React's scheduling is flattened into sequential steps. */
module HomePage {
  import opened JsValues
  import opened Text
  import SearchBar
  import AnalyzeRoute

  datatype User = User(id: string)

  /** The page's state hooks. `error` is `null` or a message. */
  datatype PageState = PageState(
    query: string,
    analysis: JsValue,
    isAnalyzing: bool,
    error: Option<string>,
    user: Option<User>,
    sidebarKey: int)

  /** The request body `{ productQuery: q, userId: user?.id }`. */
  datatype RequestBody = RequestBody(productQuery: string, userId: Option<string>)

  /** What the route reads from the request: `JSON.stringify` leaves out an
      undefined `userId`, and there is never a `location`. */
  function RequestJson(b: RequestBody): JsValue {
    Obj(map["productQuery" := Str(b.productQuery)]
      + (if b.userId.Some? then map["userId" := Str(b.userId.value)] else map[]))
  }

  /** The outcome of `fetch`: a rejected promise, or a response with its `ok`
      flag and the outcome of `res.json()`. */
  datatype FetchReply = NetworkError(message: string) | Reply(ok: bool, json: Result<JsValue>)

  /** A row for the `search_history` table. */
  datatype HistoryRow = HistoryRow(
    userId: string,
    productName: JsValue,
    analysisSummary: JsValue,
    durabilityScore: JsValue,
    result: JsValue,
    timestamp: string)

  /** The page's collaborators: the request, the history insert (which
      reports an error or none), and the clock's ISO timestamp. */
  datatype Collaborators = Collaborators(
    fetch: RequestBody -> FetchReply,
    insert: HistoryRow -> Option<string>,
    now: string)

  /** One call of `handleSearch`: the state while the request is in flight,
      the state after it settled, the requests sent and the rows inserted. */
  datatype SearchRun = SearchRun(
    during: PageState,
    final: PageState,
    requests: seq<RequestBody>,
    inserts: seq<HistoryRow>)

  const SearchFailed := "Search failed."

  /** `customQuery || query`: a non-empty custom query wins, and the result
      is empty only when both are. */
  function EffectiveQuery(customQuery: Option<string>, query: string): (q: string)
    ensures q == "" <==> (customQuery.None? || customQuery.value == "") && query == ""
    ensures customQuery.Some? && customQuery.value != "" ==> q == customQuery.value
    ensures customQuery.None? || customQuery.value == "" ==> q == query
  {
    if customQuery.Some? && customQuery.value != "" then customQuery.value else query
  }

  /** `EffectiveQuery` is JavaScript's `||` applied to the two values, an
      absent custom query being `undefined`. */
  lemma EffectiveQueryIsOr(customQuery: Option<string>, query: string)
    ensures Or(if customQuery.Some? then Str(customQuery.value) else Undefined, Str(query))
      == Str(EffectiveQuery(customQuery, query))
  {
  }

  function UserId(user: Option<User>): Option<string> {
    if user.Some? then Some(user.value.id) else None
  }

  /** The `durability_score` written for a product: its `durability` when
      truthy, else 0. */
  function DurabilityScore(product: JsValue): JsValue
    requires product != Undefined && product != Null
  {
    Or(GetProp(product, "durability").value, Num(0.0))
  }

  /** The row literal of the insert. Reading `data.main_product.name` throws
      when `data` or its `main_product` is `undefined` or `null`. */
  function BuildRow(user: User, data: JsValue, now: string): (r: Result<HistoryRow>)
    ensures r.Ok? <==>
      && data != Undefined && data != Null
      && GetProp(data, "main_product").value != Undefined
      && GetProp(data, "main_product").value != Null
    ensures r.Ok? ==> r.value.userId == user.id && r.value.result == data
  {
    match GetProp(data, "main_product")
    case Throw(m) => Throw(m)
    case Ok(product) =>
      match GetProp(product, "name")
      case Throw(m) => Throw(m)
      case Ok(name) =>
        Ok(HistoryRow(
          user.id,
          name,
          GetProp(product, "public_summary").value,
          DurabilityScore(product),
          data,
          now))
  }

  /** The `try` block after the request was sent, with its `catch`. Only the
      result, the error and the sidebar key can change; the key rises by one
      exactly when a row was built and its insert reported no error, and a
      row is built only for a signed-in user. */
  function Settle(st: PageState, reply: FetchReply, c: Collaborators): (r: (PageState, seq<HistoryRow>))
    ensures r.0 == st.(analysis := r.0.analysis, error := r.0.error, sidebarKey := r.0.sidebarKey)
    ensures |r.1| <= 1 && (r.1 != [] ==> st.user.Some?)
    ensures r.0.sidebarKey == st.sidebarKey + 1 <==> |r.1| == 1 && c.insert(r.1[0]).None?
    ensures r.0.sidebarKey == st.sidebarKey || r.0.sidebarKey == st.sidebarKey + 1
  {
    match reply
    case NetworkError(m) => (st.(error := Some(m)), [])
    case Reply(ok, json) =>
      if !ok then (st.(error := Some(SearchFailed)), [])
      else
        match json
        case Throw(m) => (st.(error := Some(m)), [])
        case Ok(data) =>
          var shown := st.(analysis := data);
          match st.user
          case None => (shown, [])
          case Some(u) =>
            match BuildRow(u, data, c.now)
            case Throw(m) => (shown.(error := Some(m)), [])
            case Ok(row) =>
              if c.insert(row).None? then (shown.(sidebarKey := shown.sidebarKey + 1), [row])
              else (shown, [row])
  }

  /** `handleSearch(customQuery)`. */
  function HandleSearch(s: PageState, customQuery: Option<string>, c: Collaborators): (run: SearchRun)
    ensures run.final.query == s.query && run.final.user == s.user
    ensures |run.requests| <= 1 && |run.inserts| <= |run.requests|
  {
    var q := EffectiveQuery(customQuery, s.query);
    if q == "" then SearchRun(s, s, [], [])
    else
      var started := s.(analysis := Null, error := None, isAnalyzing := true);
      var request := RequestBody(q, UserId(s.user));
      var settled := Settle(started, c.fetch(request), c);
      SearchRun(started, settled.0.(isAnalyzing := false), [request], settled.1)
  }

  /** An empty effective query returns at once: no request, no state change. */
  lemma EmptyQueryDoesNothing(s: PageState, customQuery: Option<string>, c: Collaborators)
    requires EffectiveQuery(customQuery, s.query) == ""
    ensures HandleSearch(s, customQuery, c) == SearchRun(s, s, [], [])
  {
  }

  /** Only the empty string is rejected: every other effective query, a
      whitespace-only one included, is sent once, with the user's id when
      signed in. */
  lemma OnlyEmptyQueryIsRejected(s: PageState, customQuery: Option<string>, c: Collaborators)
    ensures var q := EffectiveQuery(customQuery, s.query);
      && (|HandleSearch(s, customQuery, c).requests| == 1 <==> q != "")
      && (q != "" ==> HandleSearch(s, customQuery, c).requests == [RequestBody(q, UserId(s.user))])
  {
  }

  /** A search starts from a cleared result and error with the loading flag
      raised, and every way out of it lowers the flag. */
  lemma SearchStartsClearedAndEndsIdle(s: PageState, customQuery: Option<string>, c: Collaborators)
    requires EffectiveQuery(customQuery, s.query) != ""
    ensures var run := HandleSearch(s, customQuery, c);
      && run.during == s.(analysis := Null, error := None, isAnalyzing := true)
      && !run.final.isAnalyzing
  {
  }

  /** A reply that is not ok shows "Search failed.", no result, and inserts
      nothing. */
  lemma RejectedReplyShowsError(s: PageState, customQuery: Option<string>, c: Collaborators, json: Result<JsValue>)
    requires EffectiveQuery(customQuery, s.query) != ""
    requires c.fetch(RequestBody(EffectiveQuery(customQuery, s.query), UserId(s.user))) == Reply(false, json)
    ensures var run := HandleSearch(s, customQuery, c);
      && run.final.error == Some("Search failed.")
      && run.final.analysis == Null
      && run.inserts == []
      && run.final.sidebarKey == s.sidebarKey
  {
  }

  /** A history row is inserted only for a signed-in user, after an ok reply
      whose body has a `main_product`; it records that user, the displayed
      result, and the product's `durability` when truthy or else 0, with no
      clamping. */
  lemma HistoryRowContents(s: PageState, customQuery: Option<string>, c: Collaborators)
    ensures var run := HandleSearch(s, customQuery, c);
      |run.inserts| == 1 ==>
        var row := run.inserts[0];
        var data := run.final.analysis;
        && s.user.Some?
        && row.userId == s.user.value.id
        && row.result == data
        && data != Undefined && data != Null
        && GetProp(data, "main_product").value != Undefined
        && GetProp(data, "main_product").value != Null
        && row.durabilityScore == Or(GetProp(GetProp(data, "main_product").value, "durability").value, Num(0.0))
        && row.timestamp == c.now
  {
  }

  /** Signed out, nothing is ever inserted. */
  lemma SignedOutInsertsNothing(s: PageState, customQuery: Option<string>, c: Collaborators)
    requires s.user.None?
    ensures HandleSearch(s, customQuery, c).inserts == []
  {
  }

  /** The sidebar key goes up by exactly one when the insert reports no
      error and is unchanged otherwise; a failed insert shows no error. */
  lemma SidebarKeyCountsSavedRows(s: PageState, customQuery: Option<string>, c: Collaborators)
    ensures var run := HandleSearch(s, customQuery, c);
      && (run.final.sidebarKey == s.sidebarKey + 1 <==>
            |run.inserts| == 1 && c.insert(run.inserts[0]).None?)
      && (run.final.sidebarKey == s.sidebarKey || run.final.sidebarKey == s.sidebarKey + 1)
      && (|run.inserts| == 1 ==> run.final.error == None)
  {
  }

  /** An ok reply whose body reads shows that body and ends idle. It ends
      with no error exactly when the user is signed out or the row literal
      could be built; then a signed-in user's row is inserted. Otherwise the
      error is the message thrown while building the row, and nothing is
      inserted. */
  lemma AcceptedReplyShowsResult(s: PageState, customQuery: Option<string>, c: Collaborators, data: JsValue)
    requires EffectiveQuery(customQuery, s.query) != ""
    requires c.fetch(RequestBody(EffectiveQuery(customQuery, s.query), UserId(s.user))) == Reply(true, Ok(data))
    ensures var run := HandleSearch(s, customQuery, c);
      && run.final.analysis == data
      && !run.final.isAnalyzing
      && (run.final.error == None <==> s.user.None? || BuildRow(s.user.value, data, c.now).Ok?)
      && (s.user.Some? && BuildRow(s.user.value, data, c.now).Ok? ==>
            run.inserts == [BuildRow(s.user.value, data, c.now).value])
      && (s.user.Some? && BuildRow(s.user.value, data, c.now).Throw? ==>
            run.final.error == Some(BuildRow(s.user.value, data, c.now).message) && run.inserts == [])
  {
  }

  /** When `fetch` rejects, or `res.json()` of an ok reply throws, the search
      ends idle showing that error's message, with no result, no insert and
      the sidebar key unchanged. */
  lemma ThrownRequestShowsItsMessage(s: PageState, customQuery: Option<string>, c: Collaborators, m: string)
    requires EffectiveQuery(customQuery, s.query) != ""
    requires var reply := c.fetch(RequestBody(EffectiveQuery(customQuery, s.query), UserId(s.user)));
      reply == NetworkError(m) || reply == Reply(true, Throw(m))
    ensures var run := HandleSearch(s, customQuery, c);
      && run.final.error == Some(m)
      && run.final.analysis == Null
      && run.inserts == []
      && !run.final.isAnalyzing
      && run.final.sidebarKey == s.sidebarKey
  {
  }

  /** The result is shown before the row is built, so a body without
      `main_product` leaves a signed-in user with both a result and an error. */
  lemma MissingProductSetsBoth(s: PageState, customQuery: Option<string>, c: Collaborators, props: map<string, JsValue>)
    requires EffectiveQuery(customQuery, s.query) != ""
    requires s.user.Some?
    requires "main_product" !in props
    requires c.fetch(RequestBody(EffectiveQuery(customQuery, s.query), UserId(s.user))) == Reply(true, Ok(Obj(props)))
    ensures var run := HandleSearch(s, customQuery, c);
      && run.final.analysis == Obj(props)
      && run.final.error == Some(ReadError("undefined", "name"))
      && run.inserts == []
  {
  }

  /** A durability of 150 or -10 is written as it came. */
  lemma DurabilityIsNotClamped(u: User, now: string)
    ensures var high := Obj(map["main_product" := Obj(map["durability" := Num(150.0)])]);
      BuildRow(u, high, now).Ok? && BuildRow(u, high, now).value.durabilityScore == Num(150.0)
    ensures var low := Obj(map["main_product" := Obj(map["durability" := Num(-10.0)])]);
      BuildRow(u, low, now).Ok? && BuildRow(u, low, now).value.durabilityScore == Num(-10.0)
  {
  }

  /** A request never names a location and its query is a string, so the
      route always builds its prompt, and asks "in United Kingdom" with the
      query as typed, whatever the template. */
  lemma RequestsUseDefaultLocation(
    s: PageState, customQuery: Option<string>, c: Collaborators,
    t: AnalyzeRoute.Template, apiKey: Option<string>, oracles: AnalyzeRoute.Oracles)
    ensures forall r | r in HandleSearch(s, customQuery, c).requests ::
      && AnalyzeRoute.Prompt(t, Str(r.productQuery), Str("United Kingdom"), oracles.numberText).Ok?
      && forall p | p in AnalyzeRoute.HandlePost(t, Ok(RequestJson(r)), apiKey, oracles).modelCalls ::
           p == AnalyzeRoute.Prompt(t, Str(r.productQuery), Str("United Kingdom"), oracles.numberText).value
  {
    forall r | r in HandleSearch(s, customQuery, c).requests
      ensures AnalyzeRoute.Prompt(t, Str(r.productQuery), Str("United Kingdom"), oracles.numberText).Ok?
      ensures forall p | p in AnalyzeRoute.HandlePost(t, Ok(RequestJson(r)), apiKey, oracles).modelCalls ::
        p == AnalyzeRoute.Prompt(t, Str(r.productQuery), Str("United Kingdom"), oracles.numberText).value
    {
      var body := RequestJson(r);
      assert "location" !in body.props;
      assert AnalyzeRoute.Field(body, "productQuery") == Str(r.productQuery);
      AnalyzeRoute.ModelCalledOnce(t, Ok(body), apiKey, oracles);
      AnalyzeRoute.PromptLocation(t, Str(r.productQuery), Undefined, oracles.numberText);
    }
  }

  /** The route itself as the page's `fetch`, with prompt template `t` (the
      deployed route's is `AnalyzeRoute.AuditTemplate`): `ok` is a 2xx status
      and the body is the route's JSON. */
  function RouteFetch(t: AnalyzeRoute.Template, apiKey: Option<string>, oracles: AnalyzeRoute.Oracles): (f: RequestBody -> FetchReply)
    ensures forall r: RequestBody ::
      && f(r).Reply?
      && f(r).json.Ok?
      && (f(r).ok <==>
            AnalyzeRoute.HandlePost(t, Ok(RequestJson(r)), apiKey, oracles).response.status == 200)
  {
    (r: RequestBody) =>
      var h := AnalyzeRoute.HandlePost(t, Ok(RequestJson(r)), apiKey, oracles);
      Reply(200 <= h.response.status < 300, Ok(h.response.body))
  }

  /** Against the route with no credential, every search that is sent ends
      with "Search failed.", no result and no history row. */
  lemma MissingKeyEndsInSearchFailed(
    s: PageState, customQuery: Option<string>, insert: HistoryRow -> Option<string>, now: string,
    t: AnalyzeRoute.Template, apiKey: Option<string>, oracles: AnalyzeRoute.Oracles)
    requires !AnalyzeRoute.KeyPresent(apiKey)
    requires EffectiveQuery(customQuery, s.query) != ""
    ensures var run := HandleSearch(s, customQuery, Collaborators(RouteFetch(t, apiKey, oracles), insert, now));
      && run.final.error == Some(SearchFailed)
      && run.final.analysis == Null
      && run.inserts == []
  {
    var r := RequestBody(EffectiveQuery(customQuery, s.query), UserId(s.user));
    AnalyzeRoute.KeyMissingShortCircuits(t, Ok(RequestJson(r)), apiKey, oracles);
  }

  /** The bar's event handled by the page: a query update, `handleSearch()`
      with no custom query, or nothing. */
  function OnBarEvent(s: PageState, e: SearchBar.BarEvent, c: Collaborators): (run: SearchRun)
    ensures run.requests != [] ==> !s.isAnalyzing
  {
    match SearchBar.React(s.query, s.isAnalyzing, e)
    case Ignore => SearchRun(s, s, [], [])
    case SetQuery(v) => var t := s.(query := v); SearchRun(t, t, [], [])
    case Submit => HandleSearch(s, None, c)
  }

  /** Which bar events reach the route: Enter with any non-empty query, or the
      button with a query that is not all whitespace, and neither while a
      search is in flight. The request carries the query as typed. */
  lemma BarEventsThatReachTheRoute(s: PageState, e: SearchBar.BarEvent, c: Collaborators)
    ensures var run := OnBarEvent(s, e, c);
      && (|run.requests| == 1 <==>
            !s.isAnalyzing
            && ((e == SearchBar.KeyDown("Enter") && s.query != "")
                || (e == SearchBar.SearchClicked && !AllWhitespace(s.query))))
      && (|run.requests| == 1 ==> run.requests[0].productQuery == s.query)
  {
    SearchBar.SubmitIff(s.query, s.isAnalyzing, e);
    OnlyEmptyQueryIsRejected(s, None, c);
  }

  /** Enter with "" does nothing, while Enter with "   " sends "   ". */
  lemma EnterSendsBlankQueries(s: PageState, c: Collaborators)
    requires !s.isAnalyzing
    ensures OnBarEvent(s.(query := ""), SearchBar.KeyDown("Enter"), c).requests == []
    ensures OnBarEvent(s.(query := "   "), SearchBar.KeyDown("Enter"), c).requests
      == [RequestBody("   ", UserId(s.user))]
    ensures OnBarEvent(s.(query := "   "), SearchBar.SearchClicked, c).requests == []
  {
    BarEventsThatReachTheRoute(s.(query := "   "), SearchBar.SearchClicked, c);
    assert AllWhitespace("   ");
  }

  /** A history entry as the sidebar reads it back: the inserted columns
      under their table names, plus whatever columns the database adds. */
  function StoredRow(row: HistoryRow, added: map<string, JsValue>): JsValue {
    Obj(added + map[
      "user_id" := Str(row.userId),
      "product_name" := row.productName,
      "analysis_summary" := row.analysisSummary,
      "durability_score" := row.durabilityScore,
      "result" := row.result,
      "metadata" := Obj(map["timestamp" := Str(row.timestamp)])])
  }

  /** A history click as written: the sidebar passes `item.result` and the
      page stores that value's `.result`. A read that throws in the click
      handler leaves the state unchanged. */
  function SelectHistory(s: PageState, item: JsValue): (r: PageState)
    ensures r == s || r == s.(analysis := r.analysis)
  {
    match GetProp(item, "result")
    case Throw(_) => s
    case Ok(historicalData) =>
      match GetProp(historicalData, "result")
      case Throw(_) => s
      case Ok(a) => s.(analysis := a)
  }

  /** The hand-off as intended: the value the sidebar passes is shown. */
  function SelectHistoryIntended(s: PageState, item: JsValue): (r: PageState)
    ensures r == s || r == s.(analysis := r.analysis)
  {
    match GetProp(item, "result")
    case Throw(_) => s
    case Ok(historicalData) => s.(analysis := historicalData)
  }

  /** As written, picking the row a search just saved shows `undefined`
      instead of that search's result whenever the result has no `result`
      key of its own, as no audit body does. */
  lemma SelectHistoryLosesResult(
    s: PageState, customQuery: Option<string>, c: Collaborators,
    added: map<string, JsValue>, any: PageState)
    requires var run := HandleSearch(s, customQuery, c);
      |run.inserts| == 1 && run.final.analysis.Obj? && "result" !in run.final.analysis.props
    ensures var run := HandleSearch(s, customQuery, c);
      && SelectHistory(any, StoredRow(run.inserts[0], added)).analysis == Undefined
      && run.final.analysis != Undefined
  {
    HistoryRowContents(s, customQuery, c);
  }

  /** With the intended hand-off, picking the row a search saved shows
      exactly the result that search displayed. */
  lemma SelectHistoryRestoresResult(
    s: PageState, customQuery: Option<string>, c: Collaborators,
    added: map<string, JsValue>, any: PageState)
    requires |HandleSearch(s, customQuery, c).inserts| == 1
    ensures var run := HandleSearch(s, customQuery, c);
      SelectHistoryIntended(any, StoredRow(run.inserts[0], added))
        == any.(analysis := run.final.analysis)
  {
    HistoryRowContents(s, customQuery, c);
  }
}
