/** The single-image view: its state (image, loading flag, result, the two
    coordinate text fields), the handlers that change it, and the audit
    record it offers for download. */
module SingleVerification {
  import opened Outcomes
  import opened JsonValues
  import Types
  import GeminiService
  import Relay

  /** The downloaded audit: the coordinates as typed (null when empty) and
      the result's fields as read from the stored answer (`None` where the
      answer has no such field). */
  datatype AuditRecord = AuditRecord(
    latitude: Option<string>,
    longitude: Option<string>,
    timestamp: Option<Json>,
    solarInstalled: Option<Json>,
    confidence: Option<Json>,
    roofType: Option<Json>,
    reasoning: Option<Json>,
    boundingBox: Json)

  /** `text || null` on a text field: null exactly for the empty text, the
      raw text otherwise (no number parsing). */
  function OrNull(text: string): (r: Option<string>)
    ensures r.None? <==> text == ""
    ensures r.Some? ==> r.value == text
  {
    if text == "" then None else Some(text)
  }

  /** The audit object built from a stored answer and the coordinate fields:
      five fields copied from whatever the answer holds, checked or not. */
  function MakeAudit(result: Json, lat: string, lng: string): (a: AuditRecord)
    ensures a.timestamp == Prop(result, "timestamp")
    ensures a.solarInstalled == Prop(result, "solarInstalled")
    ensures a.confidence == Prop(result, "confidence")
    ensures a.roofType == Prop(result, "roofType")
    ensures a.reasoning == Prop(result, "reasoning")
    ensures a.latitude.None? <==> lat == ""
    ensures a.longitude.None? <==> lng == ""
    ensures a.latitude.Some? ==> a.latitude.value == lat
    ensures a.longitude.Some? ==> a.longitude.value == lng
    ensures a.boundingBox == JNull <==> Nullish(Prop(result, "boundingBox"))
    ensures !Nullish(Prop(result, "boundingBox")) ==> Some(a.boundingBox) == Prop(result, "boundingBox")
  {
    var box := Prop(result, "boundingBox");
    AuditRecord(
      OrNull(lat), OrNull(lng),
      Prop(result, "timestamp"), Prop(result, "solarInstalled"), Prop(result, "confidence"),
      Prop(result, "roofType"), Prop(result, "reasoning"),
      if Nullish(box) then JNull else box.value)
  }

  /** The single field `key: v`, or nothing when `v` is undefined (which
      `JSON.stringify` leaves out). */
  function Defined(key: string, v: Option<Json>): map<string, Json>
  {
    if v.Some? then map[key := v.value] else map[]
  }

  /** The fields of the downloaded object. */
  function AuditFields(a: AuditRecord): map<string, Json>
  {
    map[
      "latitude" := (if a.latitude.Some? then JStr(a.latitude.value) else JNull),
      "longitude" := (if a.longitude.Some? then JStr(a.longitude.value) else JNull),
      "boundingBox" := a.boundingBox]
    + Defined("timestamp", a.timestamp)
    + Defined("solarInstalled", a.solarInstalled)
    + Defined("confidence", a.confidence)
    + Defined("roofType", a.roofType)
    + Defined("reasoning", a.reasoning)
  }

  lemma AuditFixedFields(a: AuditRecord)
    ensures var f := AuditFields(a);
      && "latitude" in f && f["latitude"] == (if a.latitude.Some? then JStr(a.latitude.value) else JNull)
      && "longitude" in f && f["longitude"] == (if a.longitude.Some? then JStr(a.longitude.value) else JNull)
      && "boundingBox" in f && f["boundingBox"] == a.boundingBox
  {
  }

  /** The downloaded object has no keys but the eight the literal names. */
  lemma AuditKeys(a: AuditRecord)
    ensures AuditFields(a).Keys <= {"latitude", "longitude", "timestamp", "solarInstalled", "confidence", "roofType", "reasoning", "boundingBox"}
  {
    var names := {"latitude", "longitude", "timestamp", "solarInstalled", "confidence", "roofType", "reasoning", "boundingBox"};
    assert Defined("timestamp", a.timestamp).Keys <= names;
    assert Defined("solarInstalled", a.solarInstalled).Keys <= names;
    assert Defined("confidence", a.confidence).Keys <= names;
    assert Defined("roofType", a.roofType).Keys <= names;
    assert Defined("reasoning", a.reasoning).Keys <= names;
  }

  /** Adding a possibly undefined field leaves every other key as it was. */
  lemma DefinedKeeps(m: map<string, Json>, key: string, v: Option<Json>, other: string)
    requires other != key
    ensures Prop(JObj(m + Defined(key, v)), other) == Prop(JObj(m), other)
  {
  }

  /** The key of a possibly undefined field afterwards holds it, if it is
      defined. */
  lemma DefinedSets(m: map<string, Json>, key: string, v: Option<Json>)
    requires key !in m
    ensures Prop(JObj(m + Defined(key, v)), key) == v
  {
  }

  lemma AuditOptionalFields(a: AuditRecord)
    ensures var j := JObj(AuditFields(a));
      && Prop(j, "timestamp") == a.timestamp && Prop(j, "solarInstalled") == a.solarInstalled
      && Prop(j, "confidence") == a.confidence && Prop(j, "roofType") == a.roofType
      && Prop(j, "reasoning") == a.reasoning
  {
    var m0 := map[
      "latitude" := (if a.latitude.Some? then JStr(a.latitude.value) else JNull),
      "longitude" := (if a.longitude.Some? then JStr(a.longitude.value) else JNull),
      "boundingBox" := a.boundingBox];
    var m1 := m0 + Defined("timestamp", a.timestamp);
    var m2 := m1 + Defined("solarInstalled", a.solarInstalled);
    var m3 := m2 + Defined("confidence", a.confidence);
    var m4 := m3 + Defined("roofType", a.roofType);
    var m5 := m4 + Defined("reasoning", a.reasoning);
    assert m5 == AuditFields(a);
    DefinedSets(m0, "timestamp", a.timestamp);
    DefinedKeeps(m1, "solarInstalled", a.solarInstalled, "timestamp");
    DefinedKeeps(m2, "confidence", a.confidence, "timestamp");
    DefinedKeeps(m3, "roofType", a.roofType, "timestamp");
    DefinedKeeps(m4, "reasoning", a.reasoning, "timestamp");
    DefinedKeeps(m0, "timestamp", a.timestamp, "solarInstalled");
    DefinedSets(m1, "solarInstalled", a.solarInstalled);
    DefinedKeeps(m2, "confidence", a.confidence, "solarInstalled");
    DefinedKeeps(m3, "roofType", a.roofType, "solarInstalled");
    DefinedKeeps(m4, "reasoning", a.reasoning, "solarInstalled");
    DefinedKeeps(m0, "timestamp", a.timestamp, "confidence");
    DefinedKeeps(m1, "solarInstalled", a.solarInstalled, "confidence");
    DefinedSets(m2, "confidence", a.confidence);
    DefinedKeeps(m3, "roofType", a.roofType, "confidence");
    DefinedKeeps(m4, "reasoning", a.reasoning, "confidence");
    DefinedKeeps(m0, "timestamp", a.timestamp, "roofType");
    DefinedKeeps(m1, "solarInstalled", a.solarInstalled, "roofType");
    DefinedKeeps(m2, "confidence", a.confidence, "roofType");
    DefinedSets(m3, "roofType", a.roofType);
    DefinedKeeps(m4, "reasoning", a.reasoning, "roofType");
    DefinedKeeps(m0, "timestamp", a.timestamp, "reasoning");
    DefinedKeeps(m1, "solarInstalled", a.solarInstalled, "reasoning");
    DefinedKeeps(m2, "confidence", a.confidence, "reasoning");
    DefinedKeeps(m3, "roofType", a.roofType, "reasoning");
    DefinedSets(m4, "reasoning", a.reasoning);
  }

  /** The JSON object the downloaded file holds: the coordinates and the box
      always (null when absent), each of the other five fields only when it
      is defined, since `JSON.stringify` drops undefined values. */
  function AuditJson(a: AuditRecord): (j: Json)
    ensures j.JObj?
    ensures j.fields.Keys <= {"latitude", "longitude", "timestamp", "solarInstalled", "confidence", "roofType", "reasoning", "boundingBox"}
    ensures Prop(j, "latitude") == Some(if a.latitude.Some? then JStr(a.latitude.value) else JNull)
    ensures Prop(j, "longitude") == Some(if a.longitude.Some? then JStr(a.longitude.value) else JNull)
    ensures Prop(j, "boundingBox") == Some(a.boundingBox)
    ensures Prop(j, "timestamp") == a.timestamp && Prop(j, "solarInstalled") == a.solarInstalled
    ensures Prop(j, "confidence") == a.confidence && Prop(j, "roofType") == a.roofType
    ensures Prop(j, "reasoning") == a.reasoning
  {
    AuditFixedFields(a);
    AuditOptionalFields(a);
    AuditKeys(a);
    JObj(AuditFields(a))
  }

  /** The audit of a well-typed answer holds its six fields. */
  lemma AuditOfEncoded(r: Types.VerificationResult, lat: string, lng: string)
    ensures MakeAudit(Types.Encode(r), lat, lng) == AuditRecord(
      OrNull(lat), OrNull(lng),
      Some(JStr(r.timestamp)), Some(JBool(r.solarInstalled)), Some(JNum(r.confidence)),
      Some(JStr(Types.RoofTypeName(r.roofType))), Some(JStr(r.reasoning)),
      Types.Encode(r).fields["boundingBox"])
  {
  }

  /** The downloaded object agrees with the answer on the six result fields. */
  lemma AuditJsonKeepsResultFields(r: Types.VerificationResult, lat: string, lng: string)
    ensures Types.SameResultFields(AuditJson(MakeAudit(Types.Encode(r), lat, lng)).fields, Types.Encode(r).fields)
  {
    AuditOfEncoded(r, lat, lng);
    var e := Types.Encode(r).fields;
    var f := AuditJson(MakeAudit(Types.Encode(r), lat, lng)).fields;
    assert Types.SameField(f, e, "solarInstalled");
    assert Types.SameField(f, e, "confidence");
    assert Types.SameField(f, e, "roofType");
    assert Types.SameField(f, e, "boundingBox");
    assert Types.SameField(f, e, "reasoning");
    assert Types.SameField(f, e, "timestamp");
  }

  /** For an answer with the declared shape, every result field is copied
      unchanged, an absent box becomes null, and reading the downloaded
      object back as a result gives the same result. */
  lemma {:induction false} AuditRoundTrip(r: Types.VerificationResult, lat: string, lng: string)
    ensures var a := MakeAudit(Types.Encode(r), lat, lng);
      && a.timestamp == Some(JStr(r.timestamp))
      && a.solarInstalled == Some(JBool(r.solarInstalled))
      && a.confidence == Some(JNum(r.confidence))
      && a.roofType == Some(JStr(Types.RoofTypeName(r.roofType)))
      && a.reasoning == Some(JStr(r.reasoning))
      && (a.boundingBox == JNull <==> r.boundingBox.None?)
      && Types.Decode(AuditJson(a)) == Some(r)
  {
    AuditOfEncoded(r, lat, lng);
    var a := MakeAudit(Types.Encode(r), lat, lng);
    AuditJsonKeepsResultFields(r, lat, lng);
    Types.DecodeReadsResultFields(AuditJson(a).fields, Types.Encode(r).fields);
    Types.DecodeEncode(r);
  }

  /** For any stored answer object, checked or not, the downloaded object
      agrees with it on `timestamp`, `solarInstalled`, `confidence`,
      `roofType` and `reasoning`, and holds its box when that is present and
      not null. */
  lemma AuditKeepsAnswerFields(f: map<string, Json>, lat: string, lng: string)
    ensures var g := AuditJson(MakeAudit(JObj(f), lat, lng)).fields;
      && Types.SameField(g, f, "timestamp") && Types.SameField(g, f, "solarInstalled")
      && Types.SameField(g, f, "confidence") && Types.SameField(g, f, "roofType")
      && Types.SameField(g, f, "reasoning")
      && ("boundingBox" in f && !f["boundingBox"].JNull? ==> g["boundingBox"] == f["boundingBox"])
  {
  }

  /** Whenever the stored answer has a `boundingBox` key, the downloaded
      object reads as a result exactly when the answer does, and as the
      same result. (An answer without the key reads as no result; its audit
      holds a null box and may read as one.) */
  lemma {:induction false} AuditDecodesAsAnswer(f: map<string, Json>, lat: string, lng: string)
    requires "boundingBox" in f
    ensures Types.Decode(AuditJson(MakeAudit(JObj(f), lat, lng))) == Types.Decode(JObj(f))
  {
    var g := AuditJson(MakeAudit(JObj(f), lat, lng)).fields;
    AuditKeepsAnswerFields(f, lat, lng);
    if f["boundingBox"].JNull? {
      assert g["boundingBox"] == JNull;
    }
    assert Types.SameField(g, f, "boundingBox");
    Types.DecodeReadsResultFields(g, f);
  }

  /** The audit of a relay success carries the relay's numeric clock as its
      timestamp, whatever the model wrote, so it never reads back as a
      declared result. */
  lemma SuccessAudit(data: Json, now: int, lat: string, lng: string)
    ensures MakeAudit(Relay.SuccessBody(data, now), lat, lng).timestamp == Some(JNum(now as real))
    ensures Types.Decode(AuditJson(MakeAudit(Relay.SuccessBody(data, now), lat, lng))).None?
  {
    var audit := MakeAudit(Relay.SuccessBody(data, now), lat, lng);
    assert audit.timestamp == Some(JNum(now as real));
    assert Prop(AuditJson(audit), "timestamp") == Some(JNum(now as real));
  }

  /** The audit of the canned verdict carries the canned box and the clock,
      does not read back as a declared result, and drops the `fallback`
      marker: nothing in the downloaded file shows that the verdict was
      canned. */
  lemma FallbackAudit(now: int, lat: string, lng: string)
    ensures var a := MakeAudit(Relay.FallbackBody(now), lat, lng);
      a.boundingBox == Relay.FallbackBox && a.timestamp == Some(JNum(now as real))
    ensures Types.Decode(AuditJson(MakeAudit(Relay.FallbackBody(now), lat, lng))).None?
    ensures "fallback" !in AuditJson(MakeAudit(Relay.FallbackBody(now), lat, lng)).fields
  {
    var audit := MakeAudit(Relay.FallbackBody(now), lat, lng);
    assert audit.timestamp == Some(JNum(now as real));
    assert Prop(AuditJson(audit), "timestamp") == Some(JNum(now as real));
    assert "fallback" !in {"latitude", "longitude", "timestamp", "solarInstalled", "confidence", "roofType", "reasoning", "boundingBox"};
  }

  /** What the file input reports: nothing chosen, or a chosen file together
      with what the reader produced (`None` when reading failed and its
      result is null). */
  datatype FileSelection = NoFile | Picked(read: Option<string>)

  /** The view's state. */
  class Panel {
    var image: Option<string>
    var loading: bool
    var result: Option<Json>
    var lat: string
    var lng: string

    /** The view as first shown. */
    constructor ()
      ensures image == None && !loading && result == None && lat == "" && lng == ""
    {
      image, loading, result, lat, lng := None, false, None, "", "";
    }

    /** `image` is truthy. */
    predicate HasImage()
      reads this
      ensures HasImage() <==> image != None && image != Some("")
    {
      image.Some? && image.value != ""
    }

    /** The Run button is enabled: an image is present and no analysis is
        pending. */
    predicate CanRun()
      reads this
      ensures CanRun() ==> image.Some? && image.value != "" && !loading
      ensures image.Some? && image.value != "" && !loading ==> CanRun()
    {
      HasImage() && !loading
    }

    /** Typing in the latitude field. */
    method SetLat(text: string)
      modifies this
      ensures lat == text
      ensures image == old(image) && loading == old(loading) && result == old(result) && lng == old(lng)
    {
      lat := text;
    }

    /** Typing in the longitude field. */
    method SetLng(text: string)
      modifies this
      ensures lng == text
      ensures image == old(image) && loading == old(loading) && result == old(result) && lat == old(lat)
    {
      lng := text;
    }

    /** `handleFileChange`: with no file nothing changes; otherwise, once
        the reader is done, the image becomes what it read and any earlier
        result is cleared. */
    method HandleFileChange(selection: FileSelection)
      modifies this
      ensures selection.NoFile? ==>
        image == old(image) && result == old(result)
      ensures selection.Picked? ==> image == selection.read && result == None
      ensures loading == old(loading) && lat == old(lat) && lng == old(lng)
    {
      if selection.NoFile? {
        return;
      }
      image := selection.read;
      result := None;
    }

    /** `handleAnalyze`, with `fetch` the relay's answer to a posted body.
        Without an image nothing happens and nothing is posted. Otherwise the
        image is stripped here and again inside the call, and the body posted
        holds the once-stripped image; success stores the answer, failure
        keeps the previous result, and either way loading ends false. */
    method HandleAnalyze(fetch: Json -> GeminiService.HttpOutcome) returns (posted: Option<Json>)
      modifies this
      ensures !old(HasImage()) ==>
        posted == None && loading == old(loading) && result == old(result)
      ensures old(HasImage()) ==>
        var outcome := fetch(GeminiService.RequestBody(GeminiService.Strip(old(image).value)));
        && posted == Some(GeminiService.RequestBody(GeminiService.Strip(old(image).value)))
        && !loading
        && result == (if outcome.Answered? && GeminiService.IsOk(outcome.status) then Some(outcome.body) else old(result))
      ensures image == old(image) && lat == old(lat) && lng == old(lng)
    {
      if !HasImage() {
        return None;
      }
      loading := true;
      var base64 := GeminiService.Strip(image.value);
      var analysis := GeminiService.AnalyzeSolarImage(base64, fetch);
      GeminiService.StripIdempotent(image.value);
      posted := Some(GeminiService.RequestBody(GeminiService.Strip(base64)));
      if analysis.Ok? {
        result := Some(analysis.value);
      }
      loading := false;
    }

    /** `downloadAudit`: nothing without a result, otherwise the audit of the
        stored answer and the current coordinate fields. */
    method DownloadAudit() returns (audit: Option<AuditRecord>)
      ensures audit.None? <==> !Truthy(result)
      ensures audit.Some? ==> audit.value == MakeAudit(result.value, lat, lng)
    {
      if !Truthy(result) {
        return None;
      }
      audit := Some(MakeAudit(result.value, lat, lng));
    }
  }

  /** Choosing a file that reads successfully, while no analysis is pending,
      enables the Run button and leaves no stale result on screen. */
  method SelectThenRunnable(panel: Panel, dataUrl: string)
    requires dataUrl != "" && !panel.loading
    modifies panel
    ensures panel.CanRun() && panel.result == None
  {
    panel.HandleFileChange(Picked(Some(dataUrl)));
  }
}
