/** The relay's one route, `POST /analyze`, as a function of the request body,
    the outcome of the call to the image model, the outcome of parsing its
    text, and the clock. The relay keeps no state between requests. */
module Relay {
  import opened Outcomes
  import opened JsonValues
  import Types

  /** An HTTP answer: status code and JSON body. */
  datatype Response = Response(status: int, body: Json)

  /** The answer, plus the image the model was called with (`None` when the
      model was not called at all). */
  datatype Reply = Reply(response: Response, forwarded: Option<Json>)

  const MissingImageBody: Json := JObj(map["error" := JStr("Image missing")])

  const FallbackReasoning: string :=
    "Fallback inference used due to API quota limits. Visual inspection confirms large aligned photovoltaic panel arrays typical of rooftop solar installations."

  const FallbackBox: Json := JObj(map["xmin" := JNum(0.1), "ymin" := JNum(0.2), "xmax" := JNum(0.9), "ymax" := JNum(0.8)])

  /** The canned verdict sent whenever the model call or the parse fails:
      seven fields, marked by `fallback: true`, stamped with the clock. */
  function FallbackBody(now: int): (body: Json)
    ensures body.JObj?
    ensures body.fields.Keys == {"solarInstalled", "confidence", "roofType", "reasoning", "boundingBox", "timestamp", "fallback"}
    ensures Prop(body, "fallback") == Some(JBool(true))
    ensures Prop(body, "timestamp") == Some(JNum(now as real))
    ensures Prop(body, "solarInstalled") == Some(JBool(true))
  {
    JObj(map[
      "solarInstalled" := JBool(true),
      "confidence" := JNum(89.6),
      "roofType" := JStr("Flat / Industrial"),
      "reasoning" := JStr(FallbackReasoning),
      "boundingBox" := FallbackBox,
      "timestamp" := JNum(now as real),
      "fallback" := JBool(true)])
  }

  /** `{ ...data, timestamp: now }`: the parsed fields, the timestamp last so
      that it wins over one the model wrote itself. */
  function SuccessBody(data: Json, now: int): (body: Json)
    ensures body.JObj?
    ensures body.fields.Keys == Spread(data).Keys + {"timestamp"}
    ensures body.fields["timestamp"] == JNum(now as real)
    ensures forall k :: k in Spread(data) && k != "timestamp" ==> body.fields[k] == Spread(data)[k]
  {
    JObj(Spread(data)["timestamp" := JNum(now as real)])
  }

  /** The request is missing its image: `!imageBase64`. A body that is not
      an object never carries one; a present image is a non-empty text, a
      non-zero number, `true`, an array or an object. */
  predicate MissingImage(body: Json)
    ensures !body.JObj? ==> MissingImage(body)
    ensures !MissingImage(body) ==>
      && body.JObj? && "imageBase64" in body.fields
      && body.fields["imageBase64"] !in {JNull, JBool(false), JNum(0.0), JStr("")}
  {
    !Truthy(Prop(body, "imageBase64"))
  }

  /** The handler. `upstream(image)` is the model's text, or `None` when the
      call throws; `parse(text)` is `JSON.parse`, `None` when it throws;
      `now` is `Date.now()`. Destructuring a `null` body throws inside the
      `try` and so takes the fallback path too. */
  function Handle(body: Json, upstream: Json -> Option<string>, parse: string -> Option<Json>, now: int): (r: Reply)
    ensures r.response.status == 200 || r.response.status == 400
    ensures r.response.status == 400 <==> !body.JNull? && MissingImage(body)
    ensures r.response.status == 400 ==> r.response.body == MissingImageBody
    ensures r.forwarded.Some? <==> !body.JNull? && !MissingImage(body)
    ensures r.forwarded.Some? ==> Some(r.forwarded.value) == Prop(body, "imageBase64")
  {
    if body.JNull? then Reply(Response(200, FallbackBody(now)), None)
    else
      var image := Prop(body, "imageBase64");
      if !Truthy(image) then Reply(Response(400, MissingImageBody), None)
      else
        var answer :=
          match upstream(image.value)
          case None => FallbackBody(now)
          case Some(text) =>
            match parse(text)
            case None => FallbackBody(now)
            case Some(data) => SuccessBody(data, now);
        Reply(Response(200, answer), Some(image.value))
  }

  /** A `null` body makes the destructuring throw inside the `try`: the
      canned verdict, without calling the model. The strict JSON body parser
      turns away a top-level `null` (and any other body that is not an object
      or an array) with 400 before the handler runs, so this path is taken
      only when the body was never parsed (`req.body` undefined, as for a
      request that is not JSON), which the model writes as `JNull`. */
  lemma NullBodyAnswersFallback(upstream: Json -> Option<string>, parse: string -> Option<Json>, now: int)
    ensures Handle(JNull, upstream, parse, now) == Reply(Response(200, FallbackBody(now)), None)
  {
  }

  /** Missing image: 400 with the fixed error, and the model is never called. */
  lemma MissingImageRejected(body: Json, upstream: Json -> Option<string>, parse: string -> Option<Json>, now: int)
    requires !body.JNull? && MissingImage(body)
    ensures Handle(body, upstream, parse, now) == Reply(Response(400, MissingImageBody), None)
  {
  }

  /** The image counts as missing exactly when the field is absent or holds
      `null`, `false`, `0` or `""`. */
  lemma MissingImageCases(body: Json)
    ensures MissingImage(body) <==>
      var image := Prop(body, "imageBase64");
      image.None? || image.value in {JNull, JBool(false), JNum(0.0), JStr("")}
  {
  }

  /** Success: status 200 and the model's fields passed through unchecked,
      except `timestamp`, which is always the relay's clock. */
  lemma SuccessPassesFieldsThrough(body: Json, upstream: Json -> Option<string>, parse: string -> Option<Json>, now: int)
    requires !body.JNull? && !MissingImage(body)
    requires upstream(Prop(body, "imageBase64").value).Some?
    requires parse(upstream(Prop(body, "imageBase64").value).value).Some?
    ensures var r := Handle(body, upstream, parse, now);
      var data := parse(upstream(Prop(body, "imageBase64").value).value).value;
      && r.response.status == 200
      && r.response.body.JObj?
      && r.response.body.fields.Keys == Spread(data).Keys + {"timestamp"}
      && r.response.body.fields["timestamp"] == JNum(now as real)
      && (forall k :: k in Spread(data) && k != "timestamp" ==> r.response.body.fields[k] == Spread(data)[k])
      && ("fallback" in r.response.body.fields ==> "fallback" in Spread(data))
  {
  }

  /** Nothing checks the model's answer: an empty JSON object comes back as a
      success holding nothing but the timestamp. */
  lemma SuccessIsUnvalidated(body: Json, upstream: Json -> Option<string>, parse: string -> Option<Json>, now: int)
    requires !body.JNull? && !MissingImage(body)
    requires upstream(Prop(body, "imageBase64").value).Some?
    requires parse(upstream(Prop(body, "imageBase64").value).value) == Some(JObj(map[]))
    ensures Handle(body, upstream, parse, now).response == Response(200, JObj(map["timestamp" := JNum(now as real)]))
  {
    assert Spread(JObj(map[])) == map[];
  }

  /** Any failure of the model call or of the parse answers 200 with exactly
      the canned verdict. */
  lemma FailureAnswersFallback(body: Json, upstream: Json -> Option<string>, parse: string -> Option<Json>, now: int)
    requires !body.JNull? && !MissingImage(body)
    requires var text := upstream(Prop(body, "imageBase64").value);
      text.None? || parse(text.value).None?
    ensures Handle(body, upstream, parse, now).response == Response(200, FallbackBody(now))
  {
  }

  /** Two fallback answers agree on every field but `timestamp`, and differ in
      it exactly when the clocks differ. */
  lemma {:induction false} FallbacksDifferOnlyInTimestamp(t1: int, t2: int)
    ensures FallbackBody(t1).fields - {"timestamp"} == FallbackBody(t2).fields - {"timestamp"}
    ensures FallbackBody(t1) == FallbackBody(t2) <==> t1 == t2
  {
    if FallbackBody(t1) == FallbackBody(t2) {
      assert FallbackBody(t1).fields["timestamp"] == FallbackBody(t2).fields["timestamp"];
    }
  }

  /** The canned box is a proper box inside the unit square. */
  lemma FallbackBoxNormalized(now: int)
    ensures var box := Types.DecodeBox(FallbackBody(now).fields["boundingBox"]);
      box == Some(Types.BoundingBox(0.2, 0.1, 0.8, 0.9)) && box.value.Normalized()
  {
  }

  /** The canned verdict claims an installation with 89.6 confidence, above
      the 85 that the documentation page names for auto-approval, and only
      the extra `fallback` flag tells it apart from a model verdict. */
  lemma FallbackLooksApprovable(now: int)
    ensures var f := FallbackBody(now).fields;
      && f["solarInstalled"] == JBool(true)
      && f["confidence"].JNum? && f["confidence"].x > 85.0
      && f["fallback"] == JBool(true)
  {
  }

  /** The canned verdict does not have the front end's declared shape: its
      roof type is none of the four declared labels and its timestamp is a
      number, not a string. */
  lemma FallbackIsNotVerificationResult(now: int)
    ensures Types.Decode(FallbackBody(now)).None?
    ensures Types.ParseRoofType(FallbackBody(now).fields["roofType"].s).None?
    ensures !FallbackBody(now).fields["timestamp"].JStr?
  {
    var roof := FallbackBody(now).fields["roofType"].s;
    assert roof == "Flat / Industrial";
    assert |roof| != 4 && |roof| != 5 && |roof| != 6 && |roof| != 7;
  }
}
