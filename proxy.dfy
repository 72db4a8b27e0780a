/**
 * The Gemini proxy endpoint: CORS headers, method gate, API-key check, prompt
 * validation, and the sequential fallback over candidate models that returns
 * the first non-empty generated text.
 */
module GeminiProxy {
  import opened Wrappers
  import opened Extraction

  /** The `prompt` field of the request body, by what `typeof` and truthiness see. */
  datatype Prompt = Absent | NonString | Str(value: string)

  /**
   * The request body. `Unreadable` is a body (undefined or null) on which
   * logging or destructuring throws; `message` is the thrown error's message.
   * `models` is `None` when the field is missing or falsy.
   */
  datatype Body = Unreadable(message: string) | Fields(prompt: Prompt, models: Option<seq<string>>)

  /** An incoming request: its HTTP method (`req.method`) and its body. */
  datatype Request = Request(verb: string, body: Body)

  /**
   * What one upstream `fetch` gives the loop: `Failed` for a non-ok status or
   * a thrown error (network, JSON parsing), `Ok` with the parsed reply otherwise.
   */
  datatype Outcome = Failed | Ok(data: Option<Reply>)

  /** The upstream service for one request: the outcome of the attempt at a list position for a model. */
  type Upstream = (nat, string) -> Outcome

  /** A response body: `end()` with none, or one of the JSON objects the handler sends. */
  datatype Payload = NoBody | Succeeded(text: string, model: string) | Failure(error: string)

  datatype Response = Response(status: int, payload: Payload)

  /** A response together with the models sent to the upstream service, in call order. */
  datatype Trace = Trace(response: Response, attempted: seq<string>)

  const DefaultModels: seq<string> := ["gemini-2.0-flash-lite", "gemini-flash-lite-latest"]

  const MethodNotAllowed := "Method not allowed"
  const MissingKey := "Missing GEMINI_API_KEY environment variable. Please set it in your .env file or Vercel dashboard."
  const InvalidPrompt := "Invalid prompt"
  const AllFailed := "All Gemini models failed to respond"
  const InternalErrorPrefix := "Internal server error: "

  /** The CORS headers, in the order the handler sets them on every response. */
  const CorsHeaders: seq<(string, string)> := [
    ("Access-Control-Allow-Credentials", "true"),
    ("Access-Control-Allow-Origin", "*"),
    ("Access-Control-Allow-Methods", "GET,OPTIONS,PATCH,DELETE,POST,PUT"),
    ("Access-Control-Allow-Headers", "X-CSRF-Token, X-Requested-With, Accept, Accept-Version, Content-Length, Content-MD5, Content-Type, Date, X-Api-Version")
  ]

  /** The headers after `setHeader` is called with each pair in turn, a later call replacing an earlier one. */
  function SetAll(headers: map<string, string>, pairs: seq<(string, string)>): (h: map<string, string>)
    ensures pairs != [] ==> pairs[|pairs| - 1].0 in h && h[pairs[|pairs| - 1].0] == pairs[|pairs| - 1].1
  {
    if pairs == [] then headers
    else SetAll(headers, pairs[..|pairs| - 1])[pairs[|pairs| - 1].0 := pairs[|pairs| - 1].1]
  }

  /**
   * After the calls every named header is present with the value of the last
   * call that names it, and a header no call names keeps its value.
   */
  lemma {:induction false} SetAllValues(headers: map<string, string>, pairs: seq<(string, string)>)
    ensures var h := SetAll(headers, pairs);
      && h.Keys == headers.Keys + (set i | 0 <= i < |pairs| :: pairs[i].0)
      && (forall i :: 0 <= i < |pairs| && (forall j :: i < j < |pairs| ==> pairs[j].0 != pairs[i].0) ==>
            h[pairs[i].0] == pairs[i].1)
      && (forall n :: n in headers && (forall i :: 0 <= i < |pairs| ==> pairs[i].0 != n) ==> h[n] == headers[n])
  {
    if pairs != [] {
      var init := pairs[..|pairs| - 1];
      SetAllValues(headers, init);
      assert forall i :: 0 <= i < |init| ==> init[i] == pairs[i];
      assert (set i | 0 <= i < |pairs| :: pairs[i].0) == (set i | 0 <= i < |init| :: init[i].0) + {pairs[|pairs| - 1].0};
    }
  }

  /** After the CORS calls every CORS header has its fixed value, whatever was set before. */
  lemma CorsHeadersSet(headers: map<string, string>)
    ensures forall i :: 0 <= i < |CorsHeaders| ==>
      CorsHeaders[i].0 in SetAll(headers, CorsHeaders) && SetAll(headers, CorsHeaders)[CorsHeaders[i].0] == CorsHeaders[i].1
  {
    // The four names first differ right after their shared prefix "Access-Control-Allow-".
    var tags := "COMH";
    forall i | 0 <= i < |CorsHeaders|
      ensures 21 < |CorsHeaders[i].0| && CorsHeaders[i].0[21] == tags[i]
    {
    }
    assert forall i, j :: 0 <= i < j < |CorsHeaders| ==> CorsHeaders[i].0 != CorsHeaders[j].0 by {
      forall i, j | 0 <= i < j < |CorsHeaders| ensures CorsHeaders[i].0 != CorsHeaders[j].0 {
        assert tags[i] != tags[j];
      }
    }
    SetAllValues(headers, CorsHeaders);
    forall i | 0 <= i < |CorsHeaders|
      ensures CorsHeaders[i].0 in SetAll(headers, CorsHeaders)
    {
      assert CorsHeaders[i].0 in (set k | 0 <= k < |CorsHeaders| :: CorsHeaders[k].0);
    }
  }

  /** `!GEMINI_API_KEY` is false: the variable is set and not empty. */
  predicate KeyPresent(key: Option<string>)
    ensures key.None? || key == Some([]) ==> !KeyPresent(key)
    ensures key.Some? && key.value != [] ==> KeyPresent(key)
  {
    key.Some? && key.value != []
  }

  /** `!prompt || typeof prompt !== 'string'` is false: a non-empty string. */
  predicate ValidPrompt(p: Prompt)
    ensures p.Absent? || p.NonString? || p == Str([]) ==> !ValidPrompt(p)
    ensures p.Str? && p.value != [] ==> ValidPrompt(p)
  {
    p.Str? && p.value != []
  }

  /** `models || [...]`: the caller's list, even an empty one, else the built-in default. */
  function Candidates(models: Option<seq<string>>): (cands: seq<string>)
    ensures models.None? ==> cands == DefaultModels
    ensures models.Some? ==> cands == models.value
  {
    models.GetOr(DefaultModels)
  }

  /** An attempt that ends the loop: an ok reply whose extracted text is not empty. */
  predicate Usable(ws: Whitespace, o: Outcome)
    ensures Usable(ws, o) ==> o.Ok?
  {
    o.Ok? && ExtractText(ws, o.data) != []
  }

  /**
   * An attempt wins exactly when its reply is ok and some part of the reply's
   * first candidate holds a non-whitespace character.
   */
  lemma UsableIff(ws: Whitespace, o: Outcome)
    ensures Usable(ws, o) <==>
      (o.Ok? && exists i, j :: 0 <= i < |PartsOf(o.data)| && 0 <= j < |PartText(PartsOf(o.data)[i])|
                               && !ws(PartText(PartsOf(o.data)[i])[j]))
  {
    if o.Ok? {
      ExtractTextSource(ws, o.data);
    }
  }

  /** The position of the first usable attempt at or after `from`, if any. */
  function FirstUsable(ws: Whitespace, upstream: Upstream, cands: seq<string>, from: nat): (r: Option<nat>)
    requires from <= |cands|
    ensures r.Some? ==> from <= r.value < |cands| && Usable(ws, upstream(r.value, cands[r.value]))
    ensures forall j :: from <= j < |cands| && (r.None? || j < r.value) ==> !Usable(ws, upstream(j, cands[j]))
    decreases |cands| - from
  {
    if from == |cands| then None
    else if Usable(ws, upstream(from, cands[from])) then Some(from)
    else FirstUsable(ws, upstream, cands, from + 1)
  }

  /**
   * The outcome of the candidate loop: 200 with the first usable candidate's
   * text and name after trying exactly the candidates up to it, or 503 after
   * trying every candidate.
   */
  function Fallback(ws: Whitespace, upstream: Upstream, cands: seq<string>): (t: Trace)
    ensures |t.attempted| <= |cands| && t.attempted == cands[..|t.attempted|]
    ensures t.response.status == 200 || t.response == Response(503, Failure(AllFailed))
    ensures t.response.status == 200 <==> exists k :: 0 <= k < |cands| && Usable(ws, upstream(k, cands[k]))
    ensures t.response.status == 200 ==>
      var k := |t.attempted| - 1;
      && 0 <= k
      && Usable(ws, upstream(k, cands[k]))
      && t.response.payload == Succeeded(ExtractText(ws, upstream(k, cands[k]).data), cands[k])
      && (forall j :: 0 <= j < k ==> !Usable(ws, upstream(j, cands[j])))
    ensures t.response.status != 200 ==> t.attempted == cands
  {
    match FirstUsable(ws, upstream, cands, 0)
    case Some(k) =>
      Trace(Response(200, Succeeded(ExtractText(ws, upstream(k, cands[k]).data), cands[k])), cands[..k + 1])
    case None =>
      Trace(Response(503, Failure(AllFailed)), cands)
  }

  /**
   * The whole handler as a function of the request, the `GEMINI_API_KEY`
   * variable and the upstream service.
   */
  function Handle(req: Request, key: Option<string>, ws: Whitespace, upstream: Upstream): (t: Trace)
    ensures req.verb == "OPTIONS" ==> t == Trace(Response(200, NoBody), [])
    ensures req.verb != "OPTIONS" && req.verb != "POST" ==>
      t == Trace(Response(405, Failure(MethodNotAllowed)), [])
    ensures req.verb == "POST" && !KeyPresent(key) ==> t == Trace(Response(500, Failure(MissingKey)), [])
    ensures req.verb == "POST" && KeyPresent(key) && req.body.Fields? && !ValidPrompt(req.body.prompt) ==>
      t == Trace(Response(400, Failure(InvalidPrompt)), [])
    ensures req.verb == "POST" && KeyPresent(key) && req.body.Unreadable? ==>
      t == Trace(Response(500, Failure(InternalErrorPrefix + req.body.message)), [])
    ensures t.attempted != [] ==>
      req.verb == "POST" && KeyPresent(key) && req.body.Fields? && ValidPrompt(req.body.prompt)
    ensures req.verb == "POST" && KeyPresent(key) && req.body.Fields? && ValidPrompt(req.body.prompt) ==>
      t == Fallback(ws, upstream, Candidates(req.body.models))
    ensures t.response.status in {200, 400, 405, 500, 503}
    ensures req.body.Fields? ==>
      var cands := Candidates(req.body.models);
      |t.attempted| <= |cands| && t.attempted == cands[..|t.attempted|]
    ensures t.response.payload.Succeeded? ==>
      && t.response.status == 200
      && t.response.payload.text != []
      && !ws(t.response.payload.text[0])
      && !ws(t.response.payload.text[|t.response.payload.text| - 1])
      && t.attempted != [] && t.response.payload.model == t.attempted[|t.attempted| - 1]
  {
    if req.verb == "OPTIONS" then Trace(Response(200, NoBody), [])
    else if req.verb != "POST" then Trace(Response(405, Failure(MethodNotAllowed)), [])
    else if !KeyPresent(key) then Trace(Response(500, Failure(MissingKey)), [])
    else
      match req.body
      case Unreadable(message) => Trace(Response(500, Failure(InternalErrorPrefix + message)), [])
      case Fields(prompt, models) =>
        if !ValidPrompt(prompt) then Trace(Response(400, Failure(InvalidPrompt)), [])
        else Fallback(ws, upstream, Candidates(models))
  }

  /**
   * The `for...of` loop over the candidates: each is sent upstream once, in
   * order; a failed call or an empty text moves on, the first text returns.
   */
  method TryCandidates(ws: Whitespace, upstream: Upstream, cands: seq<string>) returns (t: Trace)
    ensures t == Fallback(ws, upstream, cands)
  {
    var attempted: seq<string> := [];
    var i := 0;
    while i < |cands|
      invariant 0 <= i <= |cands|
      invariant attempted == cands[..i]
      invariant FirstUsable(ws, upstream, cands, i) == FirstUsable(ws, upstream, cands, 0)
    {
      var model := cands[i];
      attempted := attempted + [model];
      var outcome := upstream(i, model);
      i := i + 1;
      if outcome.Failed? {
        continue;
      }
      var text := ExtractText(ws, outcome.data);
      if text != [] {
        return Trace(Response(200, Succeeded(text, model)), attempted);
      }
    }
    return Trace(Response(503, Failure(AllFailed)), attempted);
  }

  /** The part of the host's response object the handler uses. */
  class ServerResponse {
    var headers: map<string, string>
    var statusCode: int
    /** The body once `json` or `end` has sent it. */
    var sent: Option<Payload>

    constructor ()
      ensures headers == map[] && statusCode == 200 && sent == None
    {
      headers := map[];
      statusCode := 200;
      sent := None;
    }

    method SetHeader(name: string, value: string)
      modifies this
      ensures headers == old(headers)[name := value]
      ensures statusCode == old(statusCode) && sent == old(sent)
    {
      headers := headers[name := value];
    }

    method Status(code: int)
      modifies this
      ensures statusCode == code
      ensures headers == old(headers) && sent == old(sent)
    {
      statusCode := code;
    }

    method Json(payload: Payload)
      requires sent == None
      modifies this
      ensures sent == Some(payload)
      ensures headers == old(headers) && statusCode == old(statusCode)
    {
      sent := Some(payload);
    }

    method End()
      requires sent == None
      modifies this
      ensures sent == Some(NoBody)
      ensures headers == old(headers) && statusCode == old(statusCode)
    {
      sent := Some(NoBody);
    }
  }

  /** Lines 8-11: the CORS headers, set before any other work. */
  method SetCorsHeaders(res: ServerResponse)
    modifies res
    ensures res.headers == SetAll(old(res.headers), CorsHeaders)
    ensures res.statusCode == old(res.statusCode) && res.sent == old(res.sent)
  {
    ghost var before := res.headers;
    assert CorsHeaders[..0] == [];
    res.SetHeader("Access-Control-Allow-Credentials", "true");
    assert res.headers == SetAll(before, CorsHeaders[..1]) by { assert CorsHeaders[..1][..0] == []; }
    res.SetHeader("Access-Control-Allow-Origin", "*");
    assert res.headers == SetAll(before, CorsHeaders[..2]) by { assert CorsHeaders[..2][..1] == CorsHeaders[..1]; }
    res.SetHeader("Access-Control-Allow-Methods", "GET,OPTIONS,PATCH,DELETE,POST,PUT");
    assert res.headers == SetAll(before, CorsHeaders[..3]) by { assert CorsHeaders[..3][..2] == CorsHeaders[..2]; }
    res.SetHeader("Access-Control-Allow-Headers", "X-CSRF-Token, X-Requested-With, Accept, Accept-Version, Content-Length, Content-MD5, Content-Type, Date, X-Api-Version");
    assert CorsHeaders[..4] == CorsHeaders;
  }

  /**
   * The decision part of the handler: the gates in their order (preflight,
   * method, key, body, prompt), then the candidate loop.
   */
  method Route(req: Request, key: Option<string>, ws: Whitespace, upstream: Upstream) returns (t: Trace)
    ensures t == Handle(req, key, ws, upstream)
  {
    if req.verb == "OPTIONS" {
      return Trace(Response(200, NoBody), []);
    }
    if req.verb != "POST" {
      return Trace(Response(405, Failure(MethodNotAllowed)), []);
    }
    if !KeyPresent(key) {
      return Trace(Response(500, Failure(MissingKey)), []);
    }
    match req.body
    case Unreadable(message) =>
      return Trace(Response(500, Failure(InternalErrorPrefix + message)), []);
    case Fields(prompt, models) =>
      if !ValidPrompt(prompt) {
        return Trace(Response(400, Failure(InvalidPrompt)), []);
      }
      t := TryCandidates(ws, upstream, Candidates(models));
  }

  /**
   * The handler: sets the CORS headers, writes exactly one response to `res`
   * (`end()` for the preflight, `json(...)` otherwise) and returns the models
   * it sent upstream.
   */
  method Handler(req: Request, key: Option<string>, ws: Whitespace, upstream: Upstream, res: ServerResponse)
    returns (attempted: seq<string>)
    requires res.sent == None
    modifies res
    ensures res.headers == SetAll(old(res.headers), CorsHeaders)
    ensures res.statusCode == Handle(req, key, ws, upstream).response.status
    ensures res.sent == Some(Handle(req, key, ws, upstream).response.payload)
    ensures attempted == Handle(req, key, ws, upstream).attempted
  {
    SetCorsHeaders(res);
    var t := Route(req, key, ws, upstream);
    res.Status(t.response.status);
    if t.response.payload == NoBody {
      res.End();
    } else {
      res.Json(t.response.payload);
    }
    attempted := t.attempted;
  }

  /**
   * Order is respected: when the first `n` candidates fail and the next one
   * gives text, that one is reported and exactly the first `n + 1` were tried.
   */
  lemma FallbackPicksFirstUsable(ws: Whitespace, upstream: Upstream, cands: seq<string>, n: nat)
    requires n < |cands|
    requires forall j :: 0 <= j < n ==> !Usable(ws, upstream(j, cands[j]))
    requires Usable(ws, upstream(n, cands[n]))
    ensures Fallback(ws, upstream, cands) ==
      Trace(Response(200, Succeeded(ExtractText(ws, upstream(n, cands[n]).data), cands[n])), cands[..n + 1])
  {
    FirstUsableAt(ws, upstream, cands, 0, n);
  }

  /** The scan from `from` stops at `n` when `n` is the first usable candidate from there on. */
  lemma {:induction false} FirstUsableAt(ws: Whitespace, upstream: Upstream, cands: seq<string>, from: nat, n: nat)
    requires from <= n < |cands|
    requires forall j :: from <= j < n ==> !Usable(ws, upstream(j, cands[j]))
    requires Usable(ws, upstream(n, cands[n]))
    ensures FirstUsable(ws, upstream, cands, from) == Some(n)
    decreases n - from
  {
    if from < n {
      FirstUsableAt(ws, upstream, cands, from + 1, n);
    }
  }

  /** A supplied empty list is used as it is: nothing is tried and the answer is 503. */
  lemma EmptyListExhausts(key: Option<string>, ws: Whitespace, upstream: Upstream, p: string)
    requires KeyPresent(key) && p != []
    ensures Handle(Request("POST", Fields(Str(p), Some([]))), key, ws, upstream) ==
      Trace(Response(503, Failure(AllFailed)), [])
  {
  }

  /** The text of a 200 response is already trimmed: trimming it again changes nothing. */
  lemma SuccessTextTrimmed(req: Request, key: Option<string>, ws: Whitespace, upstream: Upstream)
    ensures var t := Handle(req, key, ws, upstream);
      t.response.payload.Succeeded? ==> Trim(ws, t.response.payload.text) == t.response.payload.text
  {
    var t := Handle(req, key, ws, upstream);
    if t.response.payload.Succeeded? {
      var cands := Candidates(req.body.models);
      assert t == Fallback(ws, upstream, cands);
      var k := |t.attempted| - 1;
      assert t.response.payload.text == ExtractText(ws, upstream(k, cands[k]).data);
      ExtractTextTrimmed(ws, upstream(k, cands[k]).data);
    }
  }
}
