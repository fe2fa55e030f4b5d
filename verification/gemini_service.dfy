/** The browser's call wrapper `analyzeSolarImage`: strip a data-URL prefix,
    POST `{ imageBase64 }` to the relay, reject on a non-ok status, and
    resolve with the response body as is. */
module GeminiService {
  import opened Outcomes
  import opened Text
  import opened JsonValues
  import Relay

  /** Why the returned promise rejects: `fetch` itself failed, or the relay
      answered with a status outside 200..299. */
  datatype CallError = NetworkError | BackendError(message: string)

  const BackendFailedMessage: string := "Backend analysis failed"

  /** What `fetch` produced: no response at all, or a status and JSON body. */
  datatype HttpOutcome = NoResponse | Answered(status: int, body: Json)

  /** `response.ok`: the status is in the 2xx class. */
  predicate IsOk(status: int)
    ensures IsOk(status) <==> status / 100 == 2
  {
    200 <= status <= 299
  }

  /** `s.split(",")[1] || s`: the second comma-separated piece when there is
      one and it is not empty, otherwise the whole input. */
  function Strip(s: string): (r: string)
    ensures ',' !in s ==> r == s
    ensures r == s || (',' !in r && r != "" && |r| < |s|)
    ensures r == "" <==> s == ""
  {
    var pieces := Split(s, ',');
    if ',' !in s then
      SplitWithoutSeparator(s, ',');
      s
    else if |pieces| > 1 && pieces[1] != "" then
      JoinSplit(s, ',');
      StripShorter(pieces);
      pieces[1]
    else s
  }

  /** The second piece of a join of two or more pieces is shorter than the join. */
  lemma StripShorter(pieces: seq<string>)
    requires |pieces| > 1
    ensures |pieces[1]| < |Join(pieces, ',')|
  {
    var rest := pieces[1..];
    assert rest[0] == pieces[1];
    if |rest| > 1 {
      assert Join(rest, ',') == rest[0] + [','] + Join(rest[1..], ',');
    }
  }

  /** With a first comma after `p`: the text up to the next comma (or the
      end) when that text is not empty, otherwise the input unchanged. So
      `"abc,"` and `"a,,b"` are sent whole, and `"a,b,c"` sends `"b"`, not
      `"b,c"`. */
  lemma {:induction false} StripCharacterized(p: string, q: string, t: string)
    requires ',' !in p && ',' !in q
    ensures Strip(p + "," + q) == (if q != "" then q else p + "," + q)
    ensures Strip(p + "," + q + "," + t) == (if q != "" then q else p + "," + q + "," + t)
  {
    SplitAfterPiece(p, q, ',');
    SplitWithoutSeparator(q, ',');
    assert p + "," + q + "," + t == p + [','] + (q + [','] + t);
    SplitAfterPiece(p, q + [','] + t, ',');
    SplitAfterPiece(q, t, ',');
    assert ',' in p + "," + q by { assert (p + "," + q)[|p|] == ','; }
    assert ',' in p + "," + q + "," + t by { assert (p + "," + q + "," + t)[|p|] == ','; }
  }

  /** Stripping twice is stripping once, so the component that strips before
      calling and the wrapper that strips again send the same text. */
  lemma {:induction false} StripIdempotent(s: string)
    ensures Strip(Strip(s)) == Strip(s)
  {
    var r := Strip(s);
    if r != s {
      assert ',' !in r;
    }
  }

  /** The JSON request body `{ imageBase64: cleanBase64 }`. */
  function RequestBody(clean: string): (body: Json)
    ensures Prop(body, "imageBase64") == Some(JStr(clean))
  {
    JObj(map["imageBase64" := JStr(clean)])
  }

  /** `analyzeSolarImage(base64Image)`, with `fetch` given as the outcome of
      posting a request body to the relay. */
  function AnalyzeSolarImage(base64: string, fetch: Json -> HttpOutcome): (r: Result<Json, CallError>)
    ensures var answer := fetch(RequestBody(Strip(base64)));
      && (r.Ok? <==> answer.Answered? && IsOk(answer.status))
      && (r.Ok? ==> r.value == answer.body)
      && (answer.Answered? && !IsOk(answer.status) ==> r == Err(BackendError(BackendFailedMessage)))
  {
    match fetch(RequestBody(Strip(base64)))
    case NoResponse => Err(NetworkError)
    case Answered(status, body) =>
      if !IsOk(status) then Err(BackendError(BackendFailedMessage)) else Ok(body)
  }

  /** Posting to the relay, given the model's and the parser's outcomes and
      the relay's clock. */
  function ViaRelay(upstream: Json -> Option<string>, parse: string -> Option<Json>, now: int): Json -> HttpOutcome
  {
    request =>
      var reply := Relay.Handle(request, upstream, parse, now);
      Answered(reply.response.status, reply.response.body)
  }

  /** Through the relay, the call rejects exactly when the input is empty:
      only the empty string strips to an empty image, which the relay answers
      with 400. Otherwise it resolves, with a model verdict or the canned one,
      and the model is called with the stripped text. */
  lemma {:induction false} RelayRejectsOnlyEmpty(s: string, upstream: Json -> Option<string>, parse: string -> Option<Json>, now: int)
    ensures var r := AnalyzeSolarImage(s, ViaRelay(upstream, parse, now));
      r.Err? <==> s == ""
    ensures s == "" ==> AnalyzeSolarImage(s, ViaRelay(upstream, parse, now)) == Err(BackendError(BackendFailedMessage))
    ensures s != "" ==> Relay.Handle(RequestBody(Strip(s)), upstream, parse, now).forwarded == Some(JStr(Strip(s)))
  {
    var request := RequestBody(Strip(s));
    var reply := Relay.Handle(request, upstream, parse, now);
    assert Relay.MissingImage(request) <==> Strip(s) == "";
    assert reply.response.status == 400 <==> s == "";
  }
}
