/** The `POST` handler of the audit endpoint (app/api/analyze/route.ts:6-77):
    read the request body, check the model credential, build the prompt, make
    one model call, clean and extract the JSON block, parse it, and answer.
    The model call, `JSON.parse` and number formatting are oracles passed in;
    the handler never retries. */
module AnalyzeRoute {
  import opened JsValues
  import opened ResponseCleaner

  /** `NextResponse.json(body, { status })`. */
  datatype Response = Response(status: int, body: JsValue)

  /** The collaborators the handler cannot see: the generative model
      (`generateContent` followed by `response.text()`), `JSON.parse`, and
      the engine's rendering of numbers inside template literals. */
  datatype Oracles = Oracles(
    generate: string -> Result<string>,
    parseJson: string -> Result<JsValue>,
    numberText: real -> string)

  /** A handled request: the response, the prompts sent to the model, and the
      texts handed to `JSON.parse`, each in call order. */
  datatype Handled = Handled(response: Response, modelCalls: seq<string>, parsed: seq<string>)

  const DefaultLocation := "United Kingdom"
  const KeyMissing := "API Key missing"
  const NoDataBlock := "AI failed to generate a valid data block."
  const AuditFailed := "Audit failed: "

  /** The fixed text of a prompt around its two interpolations: `lead` comes
      before the quoted query, `instructions` after the location. */
  datatype Template = Template(lead: string, instructions: string)

  /** The template written in the route. */
  const AuditTemplate := Template(
    "\n      Perform a deep market audit for: ",
      ".\n"
      + "      \n"
      + "      INSTRUCTIONS:\n"
      + "      1. PUBLIC SUMMARY: Provide a 250-word objective summary of the product based on manufacturer specs and top tech reviews.\n"
      + "      2. MAIN IMAGE: Find a direct, high-quality URL for the main product image.\n"
      + "      3. VENDOR LINKS: Find EXACT product page links and prices at Amazon.co.uk, Argos.co.uk, and Currys.\n"
      + "      4. USED DEALS: Find search results for eBay.co.uk and BackMarket.\n"
      + "      5. COMPETITORS: Find 2 rival products. For each, provide: Name, Price, a direct IMAGE URL, a Star Rating (1-5), and 3 short topics on why they are competitors.\n"
      + "      6. SUITS ME REASON: Write 3 paragraphs for a registered user analyzing value, longevity (durability), and personalized fit.\n"
      + "      \n"
      + "      CRITICAL: You must respond ONLY with a valid JSON object. Use \\n for newlines.\n"
      + "      \n"
      + "      JSON STRUCTURE:\n"
      + "      {\n"
      + "        \"main_product\": {\n"
      + "          \"name\": \"Full Product Name\",\n"
      + "          \"image\": \"DIRECT_IMAGE_URL\",\n"
      + "          \"public_summary\": \"250-word summary...\",\n"
      + "          \"stars\": 4.8,\n"
      + "          \"durability\": 85,\n"
      + "          \"qualities\": [\"Feature 1\", \"Feature 2\"],\n"
      + "          \"new_deals\": [{\"vendor\": \"Amazon\", \"price\": \"\U{A3}XX.XX\", \"url\": \"DIRECT_URL\"}],\n"
      + "          \"used_deals\": [{\"vendor\": \"eBay\", \"price\": \"\U{A3}XX.XX\", \"url\": \"DIRECT_URL\"}],\n"
      + "          \"competitors\": [\n"
      + "            {\n"
      + "              \"name\": \"Competitor Name\", \n"
      + "              \"price\": \"\U{A3}XX.XX\", \n"
      + "              \"image\": \"URL\", \n"
      + "              \"stars\": 4.5, \n"
      + "              \"highlights\": [\"Point 1\", \"Point 2\", \"Point 3\"],\n"
      + "              \"url\": \"DIRECT_URL\"\n"
      + "            }\n"
      + "          ]\n"
      + "        },\n"
      + "        \"suits_me_reason\": \"3-paragraph analysis for premium users.\"\n"
      + "      }\n"
      + "    ")

  /** The response for an error `message`. */
  function ErrorResponse(message: string): Response {
    Response(500, Obj(map["error" := Str(message)]))
  }

  /** The text of the TypeError V8 raises when destructuring `undefined` or `null`. */
  function DestructureError(v: JsValue): string {
    "Cannot destructure property 'productQuery' of '(intermediate value)' as it is "
      + (if v == Null then "null" else "undefined") + "."
  }

  /** `!apiKey` is false: the variable is set and not empty. */
  predicate KeyPresent(apiKey: Option<string>) {
    apiKey.Some? && apiKey.value != ""
  }

  /** A destructured field of a body that is neither `undefined` nor `null`. */
  function Field(v: JsValue, key: string): JsValue {
    match GetProp(v, key)
    case Ok(x) => x
    case Throw(_) => Undefined
  }

  /** The prompt: the query interpolated inside double quotes, then the
      location or, when that is falsy, "United Kingdom". Each interpolation
      applies ToString, which throws for an object with its own `toString`
      key; the query is converted first. */
  function Prompt(t: Template, productQuery: JsValue, location: JsValue, numberText: real -> string): (r: Result<string>)
    ensures r.Ok? <==> Convertible(productQuery) && Convertible(Or(location, Str(DefaultLocation)))
    ensures r.Throw? ==> r.message == ConvertError
  {
    match ToJsString(productQuery, numberText)
    case Throw(m) => Throw(m)
    case Ok(q) =>
      match ToJsString(Or(location, Str(DefaultLocation)), numberText)
      case Throw(m) => Throw(m)
      case Ok(l) => Ok(t.lead + "\"" + q + "\" in " + l + t.instructions)
  }

  /** The query and location of a destructured body both convert to strings. */
  predicate PromptFieldsConvert(v: JsValue) {
    Convertible(Field(v, "productQuery")) && Convertible(Or(Field(v, "location"), Str(DefaultLocation)))
  }

  /** The whole handler, with the prompt written from template `t` (the
      route uses `AuditTemplate`). `body` is the outcome of `req.json()`;
      `apiKey` is `process.env.GEMINI_API_KEY`. Every exception is caught and
      answered with status 500 and "Audit failed: " before its message. */
  function HandlePost(t: Template, body: Result<JsValue>, apiKey: Option<string>, oracles: Oracles): (h: Handled)
    ensures |h.modelCalls| <= 1
    ensures |h.parsed| <= |h.modelCalls|
    ensures h.response.status == 200 || h.response.status == 500
    ensures |h.parsed| == 1 ==>
      var b := h.parsed[0]; |b| >= 2 && b[0] == '{' && b[|b| - 1] == '}'
  {
    match body
    case Throw(m) => Handled(ErrorResponse(AuditFailed + m), [], [])
    case Ok(v) =>
      if v == Undefined || v == Null then
        Handled(ErrorResponse(AuditFailed + DestructureError(v)), [], [])
      else if !KeyPresent(apiKey) then
        Handled(ErrorResponse(KeyMissing), [], [])
      else
        AnswerRequest(t, v, oracles)
  }

  /** The handler's steps once the body `v` is destructured and the
      credential checked: build the prompt, call the model once, and answer
      its reply. */
  function AnswerRequest(t: Template, v: JsValue, oracles: Oracles): (h: Handled)
    ensures |h.modelCalls| <= 1
    ensures |h.parsed| <= |h.modelCalls|
    ensures h.response.status == 200 || h.response.status == 500
    ensures |h.parsed| == 1 ==>
      var b := h.parsed[0]; |b| >= 2 && b[0] == '{' && b[|b| - 1] == '}'
  {
    match Prompt(t, Field(v, "productQuery"), Field(v, "location"), oracles.numberText)
    case Throw(m) => Handled(ErrorResponse(AuditFailed + m), [], [])
    case Ok(prompt) =>
      match oracles.generate(prompt)
      case Throw(m) => Handled(ErrorResponse(AuditFailed + m), [prompt], [])
      case Ok(text) => AnswerReply(prompt, text, oracles.parseJson)
  }

  /** The handler's steps after the model answered `prompt` with `text`:
      clean, extract the block, parse it. Only an extracted block is parsed. */
  function AnswerReply(prompt: string, text: string, parseJson: string -> Result<JsValue>): (h: Handled)
    ensures h.modelCalls == [prompt]
    ensures h.parsed == [] <==> MatchBlock(Clean(text)).None?
    ensures h.parsed != [] ==> h.parsed == [MatchBlock(Clean(text)).value]
    ensures |h.parsed| == 1 ==>
      var b := h.parsed[0]; |b| >= 2 && b[0] == '{' && b[|b| - 1] == '}'
    ensures h.response.status == 200 || h.response.status == 500
  {
    match MatchBlock(Clean(text))
    case None => Handled(ErrorResponse(AuditFailed + NoDataBlock), [prompt], [])
    case Some(block) =>
      match parseJson(block)
      case Throw(m) => Handled(ErrorResponse(AuditFailed + m), [prompt], [block])
      case Ok(data) => Handled(Response(200, data), [prompt], [block])
  }

  /** A body that can be destructured. */
  predicate Destructurable(body: Result<JsValue>) {
    body.Ok? && body.value != Undefined && body.value != Null
  }

  /** The `error` string of an error response. */
  predicate IsErrorWith(r: Response, message: string) {
    r.status == 500 && r.body == Obj(map["error" := Str(message)])
  }

  /** Without a credential the handler never calls the model. The body is
      read and destructured before the key is checked: a body that can be
      destructured (neither `null` nor `undefined`) gets 500 "API Key
      missing", a `null` or `undefined` body gets the destructuring TypeError,
      and a body `req.json()` could not read gets its error, both after
      "Audit failed: ". */
  lemma KeyMissingShortCircuits(t: Template, body: Result<JsValue>, apiKey: Option<string>, oracles: Oracles)
    requires !KeyPresent(apiKey)
    ensures var h := HandlePost(t, body, apiKey, oracles);
      && h.modelCalls == []
      && (Destructurable(body) ==> IsErrorWith(h.response, KeyMissing))
      && (body.Ok? && (body.value == Null || body.value == Undefined) ==>
            IsErrorWith(h.response, AuditFailed + DestructureError(body.value)))
      && (body.Throw? ==> IsErrorWith(h.response, AuditFailed + body.message))
  {
  }

  /** The model is called exactly once when the body is readable, the
      credential is present and the body's `productQuery` and `location`
      convert to strings, with the prompt built from them; otherwise not at
      all. */
  lemma ModelCalledOnce(t: Template, body: Result<JsValue>, apiKey: Option<string>, oracles: Oracles)
    ensures var h := HandlePost(t, body, apiKey, oracles);
      && (|h.modelCalls| == 1 <==>
            Destructurable(body) && KeyPresent(apiKey) && PromptFieldsConvert(body.value))
      && (|h.modelCalls| == 1 ==>
            h.modelCalls[0] == Prompt(t, Field(body.value, "productQuery"),
                                      Field(body.value, "location"), oracles.numberText).value)
  {
  }

  /** A query or location that ToString cannot convert (an object with its
      own `toString` key, directly or inside arrays) is answered with the
      TypeError's message, and the model is never called. */
  lemma UnconvertibleFieldIsAuditFailure(t: Template, body: Result<JsValue>, apiKey: Option<string>, oracles: Oracles)
    requires Destructurable(body) && KeyPresent(apiKey)
    requires !PromptFieldsConvert(body.value)
    ensures var h := HandlePost(t, body, apiKey, oracles);
      IsErrorWith(h.response, AuditFailed + ConvertError) && h.modelCalls == []
  {
  }

  /** The body `{"productQuery": {"toString": 1}}` stops the route before the
      model call, as does the same object one array deep. */
  lemma OwnToStringStopsTheRoute(t: Template, oracles: Oracles)
    ensures var q := Obj(map["toString" := Num(1.0)]);
      && HandlePost(t, Ok(Obj(map["productQuery" := q])), Some("k"), oracles).modelCalls == []
      && HandlePost(t, Ok(Obj(map["productQuery" := Str("x"), "location" := Arr([Null, q])])),
                    Some("k"), oracles).modelCalls == []
  {
    var q := Obj(map["toString" := Num(1.0)]);
    UnconvertibleFieldIsAuditFailure(t, Ok(Obj(map["productQuery" := q])), Some("k"), oracles);
    var b := Obj(map["productQuery" := Str("x"), "location" := Arr([Null, q])]);
    assert !Convertible(Arr([Null, q])) by { assert Arr([Null, q]).items[1] == q; }
    UnconvertibleFieldIsAuditFailure(t, Ok(b), Some("k"), oracles);
  }

  /** A status-200 answer is exactly what `JSON.parse` made of the one text it
      was given, and that text opens with `{` and closes with `}`. */
  lemma SuccessIsParsedBlock(t: Template, body: Result<JsValue>, apiKey: Option<string>, oracles: Oracles)
    ensures var h := HandlePost(t, body, apiKey, oracles);
      && (h.response.status == 200 ==>
            |h.parsed| == 1 && oracles.parseJson(h.parsed[0]) == Ok(h.response.body))
      && (|h.parsed| == 1 ==>
            var b := h.parsed[0]; |b| >= 2 && b[0] == '{' && b[|b| - 1] == '}')
  {
    if HandlePost(t, body, apiKey, oracles).response.status == 200 {
      SuccessComesFromParse(t, body, apiKey, oracles);
    }
  }

  /** Status 200 is only ever the answer of a successful parse. */
  lemma SuccessComesFromParse(t: Template, body: Result<JsValue>, apiKey: Option<string>, oracles: Oracles)
    requires HandlePost(t, body, apiKey, oracles).response.status == 200
    ensures var h := HandlePost(t, body, apiKey, oracles);
      |h.parsed| == 1 && oracles.parseJson(h.parsed[0]) == Ok(h.response.body)
  {
    var v := body.value;
    var prompt := Prompt(t, Field(v, "productQuery"), Field(v, "location"), oracles.numberText).value;
    var text := oracles.generate(prompt).value;
    var block := MatchBlock(Clean(text)).value;
    assert HandlePost(t, body, apiKey, oracles)
      == Handled(Response(200, oracles.parseJson(block).value), [prompt], [block]);
  }

  /** Every other answer is status 500 whose `error` is "API Key missing" or
      starts with "Audit failed: ". */
  lemma FailuresAreReported(t: Template, body: Result<JsValue>, apiKey: Option<string>, oracles: Oracles)
    ensures var r := HandlePost(t, body, apiKey, oracles).response;
      r.status != 200 ==>
        exists m :: IsErrorWith(r, m) && (m == KeyMissing || AuditFailed <= m)
  {
    var h := HandlePost(t, body, apiKey, oracles);
    if h.response.status != 200 {
      if !Destructurable(body) {
        var m := if body.Throw? then body.message else DestructureError(body.value);
        assert IsErrorWith(h.response, AuditFailed + m);
        assert AuditFailed <= AuditFailed + m;
      } else if !KeyPresent(apiKey) {
        assert IsErrorWith(h.response, KeyMissing);
      } else {
        var v := body.value;
        var built := Prompt(t, Field(v, "productQuery"), Field(v, "location"), oracles.numberText);
        var m;
        if built.Throw? {
          m := ConvertError;
        } else if oracles.generate(built.value).Throw? {
          m := oracles.generate(built.value).message;
        } else {
          var text := oracles.generate(built.value).value;
          if MatchBlock(Clean(text)).None? {
            m := NoDataBlock;
          } else {
            m := oracles.parseJson(MatchBlock(Clean(text)).value).message;
          }
        }
        assert IsErrorWith(h.response, AuditFailed + m);
        assert AuditFailed <= AuditFailed + m;
      }
    }
  }

  /** A reply in which no `}` follows a `{` once cleaned is answered with the
      fixed message, and nothing is parsed. */
  lemma NoBlockIsAuditFailure(t: Template, body: Result<JsValue>, apiKey: Option<string>, oracles: Oracles, text: string)
    requires Destructurable(body) && KeyPresent(apiKey)
    requires PromptFieldsConvert(body.value)
    requires oracles.generate(Prompt(t, Field(body.value, "productQuery"),
                                     Field(body.value, "location"), oracles.numberText).value) == Ok(text)
    requires forall i, j | 0 <= i < j < |Clean(text)| :: !(Clean(text)[i] == '{' && Clean(text)[j] == '}')
    ensures var h := HandlePost(t, body, apiKey, oracles);
      IsErrorWith(h.response, AuditFailed + NoDataBlock) && h.parsed == []
  {
    MatchBlockIsRegexMatch(Clean(text));
  }

  /** A parse failure is answered with its message after "Audit failed: ". */
  lemma ParseFailureIsAuditFailure(t: Template, body: Result<JsValue>, apiKey: Option<string>, oracles: Oracles)
    ensures var h := HandlePost(t, body, apiKey, oracles);
      |h.parsed| == 1 && oracles.parseJson(h.parsed[0]).Throw? ==>
        IsErrorWith(h.response, AuditFailed + oracles.parseJson(h.parsed[0]).message)
  {
  }

  /** A string query always converts, so the prompt is built exactly when the
      location converts; the query then sits verbatim between double quotes
      right after the template's lead. */
  lemma PromptQuotesQuery(t: Template, q: string, location: JsValue, numberText: real -> string)
    ensures var p := Prompt(t, Str(q), location, numberText); var o := |t.lead|;
      && (p.Ok? <==> Convertible(Or(location, Str(DefaultLocation))))
      && (p.Ok? ==> o + |q| + 2 <= |p.value| && p.value[o..o + |q| + 2] == "\"" + q + "\"")
  {
    var p := Prompt(t, Str(q), location, numberText);
    if p.Ok? {
      var o := |t.lead|;
      var pre := t.lead + "\"" + q + "\"";
      var l := ToJsString(Or(location, Str(DefaultLocation)), numberText).value;
      assert ToJsString(Str(q), numberText) == Ok(q);
      assert p.value == pre + " in " + l + t.instructions;
      assert p.value[..|pre|] == pre;
      assert pre[o..] == "\"" + q + "\"";
      assert p.value[o..o + |q| + 2] == pre[o..];
    }
  }

  /** Different queries give different prompts for the same template and location. */
  lemma PromptDeterminesQuery(t: Template, q1: string, q2: string, location: JsValue, numberText: real -> string)
    requires Prompt(t, Str(q1), location, numberText).Ok?
    requires Prompt(t, Str(q1), location, numberText) == Prompt(t, Str(q2), location, numberText)
    ensures q1 == q2
  {
    var p := Prompt(t, Str(q1), location, numberText).value;
    var o := |t.lead|;
    assert |q1| == |q2|;
    PromptQuotesQuery(t, q1, location, numberText);
    PromptQuotesQuery(t, q2, location, numberText);
    assert q1 == p[o + 1..o + 1 + |q1|] == q2;
  }

  /** A falsy location (absent, null, "", 0, false) asks for the United
      Kingdom; a non-empty location string is used as given. */
  lemma PromptLocation(t: Template, productQuery: JsValue, location: JsValue, numberText: real -> string)
    ensures !Truthy(location) ==>
      Prompt(t, productQuery, location, numberText)
        == Prompt(t, productQuery, Str("United Kingdom"), numberText)
    ensures location.Str? && location.s != "" && Convertible(productQuery) ==>
      var p := Prompt(t, productQuery, location, numberText);
      var at := |t.lead| + |ToJsString(productQuery, numberText).value| + 2;
      && p.Ok?
      && at + 4 + |location.s| <= |p.value|
      && p.value[at..at + 4 + |location.s|] == " in " + location.s
  {
    if location.Str? && location.s != "" && Convertible(productQuery) {
      var p := Prompt(t, productQuery, location, numberText).value;
      var pre := t.lead + "\"" + ToJsString(productQuery, numberText).value + "\"";
      assert p == pre + " in " + location.s + t.instructions;
      assert p[|pre|..|pre| + 4 + |location.s|] == " in " + location.s;
    }
  }
}
