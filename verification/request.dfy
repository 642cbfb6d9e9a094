/** The decisions `makeRequest` takes around its one HTTP exchange, as pure
    functions. The exchange itself is a parameter: a `FetchResult` says
    whether `fetch` rejected, or what status came back and whether the body
    parsed as JSON. */
module Request {
  import opened Js
  import opened Entries
  import opened FormatBody
  import opened BaseUrl
  import opened WireBody

  /** The client's immutable configuration. */
  datatype Client = Client(port: nat, token: Option<string>, apiBaseUrl: string)

  /** The constructor: trims the base URL with the constructor's loop, then
      appends the port. */
  method NewClient(port: nat, token: Option<string>, baseUrl: string) returns (c: Client)
    ensures c.port == port && c.token == token
    ensures SplitApiBaseUrl(c.apiBaseUrl) == Some((TrimTrailingSlashes(baseUrl), port))
    ensures c.apiBaseUrl[..|TrimTrailingSlashes(baseUrl)|] <= baseUrl
    ensures c.apiBaseUrl == ApiBaseUrl(baseUrl, port)
  {
    var b := TrimLoop(baseUrl);
    c := Client(port, token, b + ":" + NatToString(port));
    assert c.apiBaseUrl[..|b|] == b;
    ApiBaseUrlRoundTrip(baseUrl, port);
  }

  datatype HttpMethod = GET | POST | PUT | DELETE | PATCH

  /** The part of a fetch `Response` the acceptability predicates read. */
  datatype Response = Response(status: int) {
    /** `res.ok`: the status is in the range 200 to 299. */
    predicate Ok() {
      200 <= status <= 299
    }
  }

  /** One call of `makeRequest`: endpoint, method, body, `includeAuth` and
      `responseIsOkValidator` (None for the default `r => r.ok`). */
  datatype Call = Call(
    endpoint: string,
    verb: HttpMethod,
    body: Option<Value>,
    includeAuth: bool,
    isOk: Option<Response -> bool>)

  /** What is handed to `fetch`. */
  datatype Outgoing = Outgoing(
    apiBaseUrl: string,
    endpoint: string,
    verb: HttpMethod,
    headers: seq<(string, string)>,
    body: Option<Value>)

  /** What `res.json()` gave: a value, well-formed as every parsed value is
      (`WellFormed`), or the message of the SyntaxError it threw. */
  datatype ParsedBody = Parsed(json: Value) | Unparsable(message: string)

  /** How the exchange ended: `fetch` rejected (with a TypeError, as it
      does on a network error), or a response arrived and `res.json()` did
      or did not parse. */
  datatype FetchResult =
    | Rejected(message: string, cause: Cause)
    | Fulfilled(response: Response, body: ParsedBody)

  const AuthHeader: string := "X-FRM-Authorization"
  const TokenMissing: JsError := Error("Token was not provided")
  const NoErrorMessage: string := "No error message provided in response body"
  const ConnectionRefusedCode: string := "ECONNREFUSED"
  const ServerHint: string :=
    ". \U{1B}[31mIs the Ficsit Remote Monitoring server running?\U{1B}[0m"

  /** `this.token` is truthy: present and not the empty string. */
  predicate HasToken(c: Client)
  {
    c.token.Some? && c.token.value != ""
  }

  /** Headers and request, or the configuration error thrown before any
      request is made. */
  function Prepare(c: Client, call: Call): (r: Result<Outgoing>)
    ensures r.Failure? <==> call.includeAuth && !HasToken(c)
    ensures r.Failure? ==> r.error == TokenMissing
    ensures r.Success? && call.includeAuth ==> r.value.headers == [(AuthHeader, c.token.value)]
    ensures r.Success? && !call.includeAuth ==> r.value.headers == []
    ensures r.Success? ==> r.value.body == call.body && r.value.endpoint == call.endpoint
                           && r.value.verb == call.verb && r.value.apiBaseUrl == c.apiBaseUrl
  {
    if call.includeAuth && !HasToken(c) then Failure(TokenMissing)
    else
      var headers := if call.includeAuth then [(AuthHeader, c.token.value)] else [];
      Success(Outgoing(c.apiBaseUrl, call.endpoint, call.verb, headers, call.body))
  }

  /** The caller's acceptability predicate applied to the response; without
      one, the response must be `ok`. */
  predicate Accepts(call: Call, res: Response)
  {
    match call.isOk
    case None => res.Ok()
    case Some(p) => p(res)
  }

  predicate Nullish(v: Value)
  {
    v.Null? || v.Undefined?
  }

  /** The message of a request error: the body's `error` property unless it
      is missing, null or undefined, in which case a fixed fallback text.
      Reading a property of null or undefined throws. */
  function ErrorMessageOf(body: Value): (r: Result<Value>)
    ensures r.Failure? <==> Nullish(body)
    ensures r.Failure? ==> r.error.TypeError? && r.error.cause == NoCause
    ensures r.Success? && body.Obj? && Lookup(body.fields, "error").Some?
            && !Nullish(Lookup(body.fields, "error").value)
            ==> r.value == Lookup(body.fields, "error").value
    ensures r.Success? && !(body.Obj? && Lookup(body.fields, "error").Some?
                            && !Nullish(Lookup(body.fields, "error").value))
            ==> r.value == Str(NoErrorMessage)
  {
    match body
    case Null => Failure(TypeError("Cannot read properties of null (reading 'error')", NoCause))
    case Undefined => Failure(TypeError("Cannot read properties of undefined (reading 'error')", NoCause))
    case Obj(fields) =>
      (match Lookup(fields, "error")
       case Some(m) => if Nullish(m) then Success(Str(NoErrorMessage)) else Success(m)
       case None => Success(Str(NoErrorMessage)))
    case _ => Success(Str(NoErrorMessage))
  }

  /** The message is the value the body's `error` property was last set
      to, unless that is null or undefined. */
  lemma ErrorMessageOfPut(fields: seq<Field>, m: Value)
    ensures !Nullish(m) ==> ErrorMessageOf(Obj(Put(fields, "error", m))) == Success(m)
    ensures Nullish(m) ==> ErrorMessageOf(Obj(Put(fields, "error", m))) == Success(Str(NoErrorMessage))
  {
    PutLookup(fields, "error", m, "error");
  }

  /** Whether a template literal can turn the value into a string. A parsed
      object converts through the inherited `toString` unless it has an own
      property of that name: that property is not callable, the inherited
      `valueOf` returns the object itself, and the conversion throws. An
      array converts by joining its elements, converting each of them. */
  predicate Renders(v: Value)
    decreases v
  {
    match v
    case Obj(fields) => "toString" !in KeySet(fields)
    case Arr(items) => forall i :: 0 <= i < |items| ==> Renders(items[i])
    case _ => true
  }

  /** What the conversion of a message that does not render throws. */
  const NoPrimitive: JsError := TypeError("Cannot convert object to primitive value", NoCause)

  /** The checks on a parsed body: a body that is not of type object, or a
      response the predicate refuses, raises a request error, whose message
      is converted to a string as the error is built; otherwise the body is
      normalised. */
  function Classify(call: Call, res: Response, body: Value): (r: Result<Value>)
    ensures r.Success? ==> Typeof(body) == "object" && Accepts(call, res) && !body.Null?
    ensures r.Failure? && r.error.RequestError? ==>
      && (Typeof(body) != "object" || !Accepts(call, res))
      && r.error.code == res.status && r.error.rawBody == body
      && Renders(r.error.errorMessage)
    ensures Typeof(body) == "object" && Accepts(call, res) ==> r == Format(body)
  {
    if Typeof(body) != "object" || !Accepts(call, res) then
      var message :- ErrorMessageOf(body);
      if Renders(message) then Failure(RequestError(res.status, message, body))
      else Failure(NoPrimitive)
    else
      Format(body)
  }

  /** A `TypeError` whose cause is an AggregateError with code ECONNREFUSED. */
  predicate IsConnectionRefused(e: JsError)
  {
    e.TypeError? && e.cause.Aggregate? && e.cause.code == Some(ConnectionRefusedCode)
  }

  /** The `catch` block: a refused connection is rethrown as a TypeError
      with the hint appended and the same cause; anything else unchanged. */
  function Relabel(e: JsError): (r: JsError)
    ensures IsConnectionRefused(e) ==> r.TypeError? && r.cause == e.cause
    ensures IsConnectionRefused(e) ==>
      |r.message| == |e.message| + |ServerHint|
      && r.message[..|e.message|] == e.message && r.message[|e.message|..] == ServerHint
    ensures !IsConnectionRefused(e) ==> r == e
  {
    if IsConnectionRefused(e) then TypeError(e.message + ServerHint, e.cause) else e
  }

  /** `makeRequest` without a validation schema: the configuration check,
      the exchange, the checks on the parsed body, and the relabelling of
      whatever was thrown after the configuration check. */
  function MakeRequest(c: Client, call: Call, fetched: FetchResult): (r: Result<Value>)
    ensures call.includeAuth && !HasToken(c) ==> r == Failure(TokenMissing)
    ensures r.Success? ==>
      && fetched.Fulfilled? && fetched.body.Parsed?
      && Typeof(fetched.body.json) == "object" && Accepts(call, fetched.response)
      && r == Format(fetched.body.json)
    ensures fetched.Rejected? && !(call.includeAuth && !HasToken(c)) ==>
      r == Failure(Relabel(TypeError(fetched.message, fetched.cause)))
  {
    match Prepare(c, call)
    case Failure(e) => Failure(e)
    case Success(_) =>
      match fetched
      case Rejected(m, cause) => Failure(Relabel(TypeError(m, cause)))
      case Fulfilled(_, Unparsable(m)) => Failure(Relabel(SyntaxError(m)))
      case Fulfilled(res, Parsed(body)) =>
        match Classify(call, res, body)
        case Success(v) => Success(v)
        case Failure(e) => Failure(Relabel(e))
  }

  /** With auth requested and no token, the call fails with the same
      configuration error whatever the network would have done. */
  lemma AuthFailsBeforeRequest(c: Client, call: Call, fetched: FetchResult)
    requires call.includeAuth && !HasToken(c)
    ensures MakeRequest(c, call, fetched) == Failure(TokenMissing)
  {
  }

  /** A body that is not null or undefined is rejected with a request error
      carrying the response's status exactly when it is not of type object or
      the predicate refuses the response, and its message converts to a
      string; when the message does not convert, building the error throws
      instead; an accepted body is normalised. */
  lemma ClassifyRejects(call: Call, res: Response, body: Value)
    requires !Nullish(body)
    ensures ErrorMessageOf(body).Success?
    ensures ((Typeof(body) != "object" || !Accepts(call, res)) && Renders(ErrorMessageOf(body).value))
        <==> Classify(call, res, body).Failure? && Classify(call, res, body).error.RequestError?
    ensures (Typeof(body) != "object" || !Accepts(call, res)) && Renders(ErrorMessageOf(body).value) ==>
      Classify(call, res, body)
        == Failure(RequestError(res.status, ErrorMessageOf(body).value, body))
    ensures (Typeof(body) != "object" || !Accepts(call, res)) && !Renders(ErrorMessageOf(body).value) ==>
      Classify(call, res, body) == Failure(NoPrimitive)
    ensures !(Typeof(body) != "object" || !Accepts(call, res)) ==>
      Classify(call, res, body) == Format(body)
  {
  }

  /** Once the token check passes, a response whose body parsed ends
      exactly as the checks on the body decide: nothing thrown there is
      relabelled. */
  lemma MakeRequestParsed(c: Client, call: Call, res: Response, body: Value)
    requires !(call.includeAuth && !HasToken(c))
    ensures MakeRequest(c, call, Fulfilled(res, Parsed(body))) == Classify(call, res, body)
  {
    if Classify(call, res, body).Failure? {
      ClassifyErrorsKept(call, res, body);
    }
  }

  /** A body that does not parse rethrows the SyntaxError unchanged, never
      a request error, whatever the status. */
  lemma MakeRequestUnparsable(c: Client, call: Call, res: Response, m: string)
    requires !(call.includeAuth && !HasToken(c))
    ensures MakeRequest(c, call, Fulfilled(res, Unparsable(m))) == Failure(SyntaxError(m))
  {
  }

  /** A `null` body gets past the object check and always ends in a
      TypeError: from reading its `error` property when the response is
      refused, from `Object.entries(null)` when it is accepted. */
  lemma ClassifyNull(call: Call, res: Response)
    ensures Classify(call, res, Null).Failure? && Classify(call, res, Null).error.TypeError?
    ensures !Accepts(call, res) ==> Classify(call, res, Null).error == ErrorMessageOf(Null).error
    ensures Accepts(call, res) ==> Classify(call, res, Null).error == Format(Null).error
  {
  }

  /** The errors raised after a response arrived are not relabelled. */
  lemma ClassifyErrorsKept(call: Call, res: Response, body: Value)
    requires Classify(call, res, body).Failure?
    ensures !IsConnectionRefused(Classify(call, res, body).error)
  {
  }

  /** A request error always carries the status of the response that
      caused it. */
  lemma RequestErrorCarriesStatus(c: Client, call: Call, fetched: FetchResult)
    requires MakeRequest(c, call, fetched).Failure?
    requires MakeRequest(c, call, fetched).error.RequestError?
    ensures fetched.Fulfilled? && fetched.body.Parsed?
    ensures MakeRequest(c, call, fetched).error.code == fetched.response.status
    ensures MakeRequest(c, call, fetched).error.rawBody == fetched.body.json
  {
  }

  /** What `makeRequest` returns is already normalised, so the second
      `formatBodyRaw` the endpoint methods apply to it changes nothing. */
  lemma MakeRequestResultIsNormal(c: Client, call: Call, fetched: FetchResult)
    requires MakeRequest(c, call, fetched).Success?
    ensures Normal(MakeRequest(c, call, fetched).value)
    ensures Format(MakeRequest(c, call, fetched).value) == MakeRequest(c, call, fetched)
  {
    var body := fetched.body.json;
    FormatYieldsNormal(body);
    FormatFixesNormal(Format(body).value);
  }

  /** `ping` accepts every response whose status is below 500. */
  predicate PingAcceptable(r: Response)
  {
    r.status < 500
  }

  function PingCall(): Call
  {
    Call("ping", GET, None, false, Some(PingAcceptable))
  }

  /** `ping()` up to its latency measurement: succeeds or throws. It
      succeeds only on a response below status 500 whose body is a null-free
      object or array. */
  function Ping(c: Client, fetched: FetchResult): (r: Result<()>)
    ensures r.Success? ==>
      && fetched.Fulfilled? && fetched.response.status < 500
      && fetched.body.Parsed? && NullFree(fetched.body.json)
      && (fetched.body.json.Obj? || fetched.body.json.Arr?)
    ensures fetched.Rejected? ==> r.Failure?
  {
    match MakeRequest(c, PingCall(), fetched)
    case Success(_) =>
      FormatSucceedsIffNullFree(fetched.body.json);
      Success(())
    case Failure(e) => Failure(e)
  }

  /** A ping needs no token, succeeds on any status below 500 with an
      object body free of null, and fails from 500 up: with a request error
      carrying the status, or with the conversion error when the body's
      `error` property does not convert to a string. */
  lemma PingOutcome(c: Client, status: int, body: Value)
    requires NullFree(body) && (body.Obj? || body.Arr?)
    ensures status < 500 ==> Ping(c, Fulfilled(Response(status), Parsed(body))) == Success(())
    ensures status >= 500 && Renders(ErrorMessageOf(body).value) ==>
      Ping(c, Fulfilled(Response(status), Parsed(body)))
        == Failure(RequestError(status, ErrorMessageOf(body).value, body))
    ensures status >= 500 && !Renders(ErrorMessageOf(body).value) ==>
      Ping(c, Fulfilled(Response(status), Parsed(body))) == Failure(NoPrimitive)
  {
    FormatSucceedsIffNullFree(body);
  }

  /** The server answers `/ping` with 404 and an error body; the ping
      still succeeds, where a default call would have failed. */
  lemma PingNotFound(c: Client)
    ensures Ping(c, Fulfilled(Response(404), Parsed(Obj([Field("error", Str("No matching endpoint found."))]))))
         == Success(())
    ensures MakeRequest(c, Call("ping", GET, None, false, None),
                        Fulfilled(Response(404), Parsed(Obj([Field("error", Str("No matching endpoint found."))]))))
         == Failure(RequestError(404, Str("No matching endpoint found."),
                                 Obj([Field("error", Str("No matching endpoint found."))])))
  {
    var body := Obj([Field("error", Str("No matching endpoint found."))]);
    assert NullFree(body) by {
      assert body.fields[0].val == Str("No matching endpoint found.");
    }
    PingOutcome(c, 404, body);
  }

  /** A refused connection makes `ping` reject with the original message
      followed by the hint, keeping the cause. */
  lemma PingConnectionRefused(c: Client, message: string)
    ensures Ping(c, Rejected(message, Aggregate(Some(ConnectionRefusedCode))))
         == Failure(TypeError(message + ServerHint, Aggregate(Some(ConnectionRefusedCode))))
  {
  }

  /** `setEnabled(id, status)` up to the response schema check. */
  function SetEnabled(c: Client, id: string, status: bool, fetched: FetchResult): (r: Result<Value>)
    ensures !HasToken(c) ==> r == Failure(TokenMissing)
    ensures r.Success? ==>
      && fetched.Fulfilled? && fetched.response.Ok() && fetched.body.Parsed?
      && Normal(r.value)
  {
    var call := Call("setEnabled", POST, Some(SetEnabledBody(id, status)), true, None);
    var r := MakeRequest(c, call, fetched);
    if r.Success? then MakeRequestResultIsNormal(c, call, fetched); r else r
  }

  /** `setSwitches(params)` up to the response schema check, including its
      second `formatBodyRaw`. */
  function SetSwitches(c: Client, params: MaybeArray<seq<Field>>, fetched: FetchResult): (r: Result<Value>)
    ensures r == MakeRequest(c, Call("setSwitches", POST, Some(SetSwitchesBody(params)), true, None), fetched)
  {
    var response :- MakeRequest(c, Call("setSwitches", POST, Some(SetSwitchesBody(params)), true, None), fetched);
    MakeRequestResultIsNormal(c, Call("setSwitches", POST, Some(SetSwitchesBody(params)), true, None), fetched);
    Format(response)
  }

  /** The `setEnabled` exchange of the test suite: the server's
      `[{ID, Status}]` comes back as `[{id, status}]`. */
  lemma SetEnabledFixture(c: Client, id: string, status: bool)
    requires HasToken(c)
    ensures SetEnabled(c, id, status,
              Fulfilled(Response(200), Parsed(Arr([Obj([Field("ID", Str(id)), Field("Status", Bool(status))])]))))
         == Success(Arr([Obj([Field("id", Str(id)), Field("status", Bool(status))])]))
  {
    var inner := [Field("ID", Str(id)), Field("Status", Bool(status))];
    var out := [Field("id", Str(id)), Field("status", Bool(status))];
    KeyCase.SwitchFixtureKeys();
    FormatRenamesKeys(inner, out);
    assert FormatItems([Obj(inner)]).value == [Obj(out)];
  }
}
