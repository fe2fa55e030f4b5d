/** The front end's declared data types: bounding box, verification result,
    batch item and its status, with the JSON shape a well-typed result has on
    the wire. Nothing on the wire is checked against these types: the
    components keep whatever JSON the relay answered (see `BatchItem.result`
    and `Relay.FallbackIsNotVerificationResult`). */
module Types {
  import opened Outcomes
  import opened JsonValues

  datatype BoundingBox = BoundingBox(ymin: real, xmin: real, ymax: real, xmax: real)
  {
    /** A non-empty box inside the unit square of normalised image coordinates. */
    predicate Normalized()
    {
      0.0 <= xmin < xmax <= 1.0 && 0.0 <= ymin < ymax <= 1.0
    }
  }

  datatype RoofType = Flat | Sloped | Other | Unknown

  datatype VerificationResult = VerificationResult(
    solarInstalled: bool,
    confidence: real,
    roofType: RoofType,
    boundingBox: Option<BoundingBox>,
    reasoning: string,
    timestamp: string)

  datatype Status = Pending | Processing | Completed | Failed

  /** A batch entry. `result` holds the value the analysis call resolved
      with, which is the relay's JSON as is, not a checked
      `VerificationResult`. */
  datatype BatchItem = BatchItem(id: string, lat: real, lng: real, status: Status, result: Option<Json>)

  /** The label a status carries in the table and in the export. */
  function StatusName(s: Status): (name: string)
    ensures ',' !in name && '\n' !in name
    ensures name != ""
  {
    match s
    case Pending => "Pending"
    case Processing => "Processing"
    case Completed => "Completed"
    case Failed => "Failed"
  }

  function RoofTypeName(t: RoofType): string
  {
    match t
    case Flat => "Flat"
    case Sloped => "Sloped"
    case Other => "Other"
    case Unknown => "Unknown"
  }

  /** The roof type a label names, if it is one of the four declared ones. */
  function ParseRoofType(s: string): (t: Option<RoofType>)
    ensures t.Some? <==> s in {"Flat", "Sloped", "Other", "Unknown"}
    ensures t.Some? ==> RoofTypeName(t.value) == s
  {
    if s == "Flat" then Some(Flat)
    else if s == "Sloped" then Some(Sloped)
    else if s == "Other" then Some(Other)
    else if s == "Unknown" then Some(Unknown)
    else None
  }

  function EncodeBox(b: BoundingBox): Json
  {
    JObj(map["ymin" := JNum(b.ymin), "xmin" := JNum(b.xmin), "ymax" := JNum(b.ymax), "xmax" := JNum(b.xmax)])
  }

  /** The number stored under `key`, if there is one. */
  function NumField(fields: map<string, Json>, key: string): Option<real>
  {
    if key in fields && fields[key].JNum? then Some(fields[key].x) else None
  }

  function DecodeBox(v: Json): Option<BoundingBox>
  {
    if !v.JObj? then None
    else
      var f := v.fields;
      match (NumField(f, "ymin"), NumField(f, "xmin"), NumField(f, "ymax"), NumField(f, "xmax"))
      case (Some(ymin), Some(xmin), Some(ymax), Some(xmax)) => Some(BoundingBox(ymin, xmin, ymax, xmax))
      case _ => None
  }

  /** A result as JSON; an absent box is `null`. */
  function Encode(r: VerificationResult): Json
  {
    JObj(map[
      "solarInstalled" := JBool(r.solarInstalled),
      "confidence" := JNum(r.confidence),
      "roofType" := JStr(RoofTypeName(r.roofType)),
      "boundingBox" := (if r.boundingBox.Some? then EncodeBox(r.boundingBox.value) else JNull),
      "reasoning" := JStr(r.reasoning),
      "timestamp" := JStr(r.timestamp)])
  }

  /** Whether a JSON value has the declared shape: an object whose six
      fields have the declared types (extra fields are ignored). */
  function Decode(v: Json): (r: Option<VerificationResult>)
    ensures !v.JObj? ==> r.None?
    ensures r.Some? ==>
      && "solarInstalled" in v.fields && v.fields["solarInstalled"] == JBool(r.value.solarInstalled)
      && "confidence" in v.fields && v.fields["confidence"] == JNum(r.value.confidence)
      && "roofType" in v.fields && v.fields["roofType"] == JStr(RoofTypeName(r.value.roofType))
      && "reasoning" in v.fields && v.fields["reasoning"] == JStr(r.value.reasoning)
      && "timestamp" in v.fields && v.fields["timestamp"] == JStr(r.value.timestamp)
      && "boundingBox" in v.fields && (v.fields["boundingBox"] == JNull <==> r.value.boundingBox.None?)
  {
    if !v.JObj? then None
    else
      var f := v.fields;
      if !("solarInstalled" in f && f["solarInstalled"].JBool?) then None
      else if !("confidence" in f && f["confidence"].JNum?) then None
      else if !("roofType" in f && f["roofType"].JStr? && ParseRoofType(f["roofType"].s).Some?) then None
      else if !("boundingBox" in f && (f["boundingBox"].JNull? || DecodeBox(f["boundingBox"]).Some?)) then None
      else if !("reasoning" in f && f["reasoning"].JStr?) then None
      else if !("timestamp" in f && f["timestamp"].JStr?) then None
      else
        var box := if f["boundingBox"].JNull? then None else Some(DecodeBox(f["boundingBox"]).value);
        Some(VerificationResult(
          f["solarInstalled"].b, f["confidence"].x, ParseRoofType(f["roofType"].s).value,
          box, f["reasoning"].s, f["timestamp"].s))
  }

  /** Two field maps agree on `key`: both lack it or both hold the same value. */
  predicate SameField(f: map<string, Json>, g: map<string, Json>, key: string)
  {
    (key in f <==> key in g) && (key in f ==> f[key] == g[key])
  }

  /** Two field maps agree on the six fields a result declares. */
  predicate SameResultFields(f: map<string, Json>, g: map<string, Json>)
  {
    && SameField(f, g, "solarInstalled") && SameField(f, g, "confidence")
    && SameField(f, g, "roofType") && SameField(f, g, "boundingBox")
    && SameField(f, g, "reasoning") && SameField(f, g, "timestamp")
  }

  /** Decoding looks at the six declared fields and nothing else. */
  lemma DecodeReadsResultFields(f: map<string, Json>, g: map<string, Json>)
    requires SameResultFields(f, g)
    ensures Decode(JObj(f)) == Decode(JObj(g))
  {
  }

  /** Every well-typed result survives the wire unchanged. */
  lemma DecodeEncode(r: VerificationResult)
    ensures Decode(Encode(r)) == Some(r)
  {
    var f := Encode(r).fields;
    assert ParseRoofType(RoofTypeName(r.roofType)) == Some(r.roofType) by {
      match r.roofType
      case Flat =>
      case Sloped =>
      case Other =>
      case Unknown =>
    }
    if r.boundingBox.Some? {
      var b := r.boundingBox.value;
      assert DecodeBox(EncodeBox(b)) == Some(b);
    }
  }
}
