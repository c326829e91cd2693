/** The CAP message envelope: building, recognising and decoding it
    (libs/cap-core/src/utils/cap-message-envelope.util.ts, cap-message-id.util.ts). */
module Envelope {
  import opened Basics

  /** A JavaScript value as far as these functions can tell values apart. `Obj` lists the own
      properties; `plain` says whether the prototype is that of an object literal. `Opaque`
      stands for functions, symbols and big integers. */
  datatype JsValue =
    | Undefined
    | Null
    | Bool(value: bool)
    | Num(number: real)
    | NonFinite
    | Str(text: string)
    | Date(time: Option<int>)
    | Arr(items: seq<JsValue>)
    | Obj(fields: map<string, JsValue>, plain: bool)
    | Opaque

  type Headers = map<string, JsValue>

  const KIND := "cap.message"
  const VERSION := Num(1.0)
  const MESSAGE_ID := "cap-message-id"

  // ---------------------------------------------------------------- shapes of values

  /** Objects other than arrays; dates are objects without own properties. */
  predicate IsRecord(v: JsValue) {
    v.Obj? || v.Date?
  }

  function Own(v: JsValue): map<string, JsValue> {
    if v.Obj? then v.fields else map[]
  }

  predicate IsPlainRecord(v: JsValue) {
    v.Obj? && v.plain
  }

  predicate IsJson(v: JsValue) {
    match v
    case Null => true
    case Bool(_) => true
    case Num(_) => true
    case Str(_) => true
    case Arr(items) => forall x <- items :: IsJson(x)
    case Obj(fields, plain) => plain && forall k <- fields :: IsJson(fields[k])
    case _ => false
  }

  predicate IsHeaderValue(v: JsValue) {
    v.Str? || v.Bool? || v.Num? || (v.Date? && v.time.Some?)
  }

  predicate AreHeaders(h: Headers) {
    forall k <- h :: IsHeaderValue(h[k])
  }

  predicate IsCapHeaders(v: JsValue) {
    IsRecord(v) && AreHeaders(Own(v))
  }

  /** Absent, undefined or valid headers. */
  predicate HeadersAllowed(v: JsValue) {
    "headers" in Own(v) && !Own(v)["headers"].Undefined? ==> IsCapHeaders(Own(v)["headers"])
  }

  predicate IsExplicitKind(v: JsValue) {
    && IsRecord(v) && "$cap" in Own(v)
    && IsRecord(Own(v)["$cap"])
    && "kind" in Own(Own(v)["$cap"]) && Own(Own(v)["$cap"])["kind"] == Str(KIND)
  }

  /** `isCapMessageEnvelopeV1`. */
  predicate IsEnvelopeV1(v: JsValue) {
    && IsRecord(v) && "$cap" in Own(v)
    && var marker := Own(v)["$cap"];
    && IsRecord(marker)
    && "kind" in Own(marker) && Own(marker)["kind"] == Str(KIND)
    && "version" in Own(marker) && Own(marker)["version"] == VERSION
    && "payload" in Own(v) && IsJson(Own(v)["payload"])
    && HeadersAllowed(v)
  }

  predicate IsStrictLegacy(v: JsValue) {
    && IsRecord(v) && "$cap" !in Own(v)
    && "payload" in Own(v) && IsJson(Own(v)["payload"])
    && (forall k <- Own(v) :: k == "payload" || k == "headers")
    && HeadersAllowed(v)
  }

  // ---------------------------------------------------------------- building and decoding

  function CreateEnvelope(payload: JsValue, headers: Option<Headers>): JsValue {
    var fields := map["$cap" := Obj(map["kind" := Str(KIND), "version" := VERSION], true), "payload" := payload];
    Obj(if headers.None? then fields else fields["headers" := Obj(headers.value, true)], true)
  }

  datatype Problem = MissingVersion | UnsupportedVersion(version: JsValue) | MissingPayload | PayloadNotJson
    | InvalidHeaders | LegacyRejected

  datatype Result<+T> = Ok(value: T) | Err(problem: Problem)

  datatype Decoded = Decoded(payload: JsValue, headers: Option<Headers>, version: Option<JsValue>, legacy: bool)

  datatype Mode = Accept | Warn | Reject

  function NonEmpty(h: Headers): Option<Headers> {
    if h == map[] then None else Some(h)
  }

  /** `mergeHeaders`: the second argument wins; nothing at all becomes absent. */
  function Merge(lower: Headers, higher: Option<Headers>): Option<Headers> {
    NonEmpty(lower + higher.UnwrapOr(map[]))
  }

  /** Each header comes from the second argument if it is there and from the first otherwise;
      no headers at all are absent headers. */
  lemma MergePrefersHigher(lower: Headers, higher: Option<Headers>, key: string)
    ensures var merged, h := Merge(lower, higher), higher.UnwrapOr(map[]);
      && (key in merged.UnwrapOr(map[]) <==> key in h || key in lower)
      && (key in h ==> merged.UnwrapOr(map[])[key] == h[key])
      && (key in lower && key !in h ==> merged.UnwrapOr(map[])[key] == lower[key])
      && (merged.None? <==> h == map[] && lower == map[])
  {
    var h := higher.UnwrapOr(map[]);
    if lower + h == map[] { assert (lower + h).Keys == lower.Keys + h.Keys; }
  }

  function EnvelopeHeaders(v: JsValue): Headers {
    if "headers" in Own(v) then Own(Own(v)["headers"]) else map[]
  }

  /** `validateExplicitEnvelope`, in the order of its checks. */
  function Problems(v: JsValue): Option<Problem>
    requires IsExplicitKind(v)
  {
    var marker := Own(Own(v)["$cap"]);
    if "version" !in marker then Some(MissingVersion)
    else if marker["version"] != VERSION then Some(UnsupportedVersion(marker["version"]))
    else if "payload" !in Own(v) then Some(MissingPayload)
    else if !IsJson(Own(v)["payload"]) then Some(PayloadNotJson)
    else if "headers" in Own(v) && !Own(v)["headers"].Undefined? && !IsCapHeaders(Own(v)["headers"]) then Some(InvalidHeaders)
    else None
  }

  /** `decodeCapMessage`. */
  function Decode(v: JsValue, explicit: Option<Headers>, mode: Mode): Result<Decoded> {
    if IsExplicitKind(v) then
      var problem := Problems(v);
      if problem.Some? then Err(problem.value)
      else Ok(Decoded(Own(v)["payload"], Merge(EnvelopeHeaders(v), explicit), Some(VERSION), false))
    else if IsStrictLegacy(v) then
      if mode == Reject then Err(LegacyRejected)
      else Ok(Decoded(Own(v)["payload"], Merge(EnvelopeHeaders(v), explicit), None, true))
    else Ok(Decoded(v, NonEmpty(explicit.UnwrapOr(map[])), None, false))
  }

  // ---------------------------------------------------------------- what they promise

  /** A value that declares the envelope kind decodes exactly when it is a valid version 1
      envelope, and then as one. */
  lemma ExplicitDecodesIffValid(v: JsValue, explicit: Option<Headers>, mode: Mode)
    ensures IsEnvelopeV1(v) <==> IsExplicitKind(v) && Decode(v, explicit, mode).Ok?
    ensures IsEnvelopeV1(v) ==> Decode(v, explicit, mode).value.version == Some(VERSION)
    ensures !IsExplicitKind(v) ==> (Decode(v, explicit, mode).Err? <==> mode == Reject && IsStrictLegacy(v))
  {
  }

  /** Building gives a valid envelope exactly for JSON payloads with valid headers. */
  lemma CreatedIsValidIff(payload: JsValue, headers: Option<Headers>)
    ensures IsEnvelopeV1(CreateEnvelope(payload, headers))
       <==> IsJson(payload) && (headers.Some? ==> AreHeaders(headers.value))
  {
  }

  /** Decoding takes off exactly the layer that building put on, whatever the payload looks
      like itself. */
  lemma DecodeUndoesCreate(payload: JsValue, headers: Option<Headers>, explicit: Option<Headers>, mode: Mode)
    requires IsJson(payload) && (headers.Some? ==> AreHeaders(headers.value))
    ensures Decode(CreateEnvelope(payload, headers), explicit, mode)
         == Ok(Decoded(payload, Merge(headers.UnwrapOr(map[]), explicit), Some(VERSION), false))
  {
  }

  /** Decoding a value that is no envelope of either kind leaves it alone; decoding one that is
      never gives the value itself back. */
  lemma DecodeKeepsIff(v: JsValue, explicit: Option<Headers>, mode: Mode)
    ensures Decode(v, explicit, mode).Ok? && Decode(v, explicit, mode).value.payload == v
       <==> !IsExplicitKind(v) && !IsStrictLegacy(v)
  {
    if IsRecord(v) && "payload" in Own(v) { PropertyIsNotWhole(v, "payload"); }
  }

  /** No value is one of its own properties. */
  lemma PropertyIsNotWhole(v: JsValue, key: string)
    requires v.Obj? && key in v.fields
    ensures v.fields[key] != v
  {
  }

  // ---------------------------------------------------------------- the kinds of values, by their properties

  /** `x` is the value itself or somewhere inside it. */
  ghost predicate Within(x: JsValue, v: JsValue) {
    || x == v
    || (v.Arr? && exists i :: 0 <= i < |v.items| && Within(x, v.items[i]))
    || (v.Obj? && exists k :: k in v.fields && Within(x, v.fields[k]))
  }

  predicate HasJsonForm(x: JsValue) {
    x.Null? || x.Bool? || x.Num? || x.Str? || x.Arr? || (x.Obj? && x.plain)
  }

  /** A value is JSON exactly when nothing inside it, at whatever depth, is undefined, a number
      that is not finite, a date, a function or the like, or an object of a class. */
  lemma {:induction false} JsonIsJsonInside(v: JsValue)
    ensures IsJson(v) <==> forall x :: Within(x, v) ==> HasJsonForm(x)
  {
    assert Within(v, v);
    match v
    case Arr(items) =>
      forall i | 0 <= i < |items| ensures IsJson(items[i]) <==> forall x :: Within(x, items[i]) ==> HasJsonForm(x) {
        assert items[i] in items;
        JsonIsJsonInside(items[i]);
      }
      forall x, i | 0 <= i < |items| && Within(x, items[i]) ensures Within(x, v) { }
    case Obj(fields, plain) =>
      forall k <- fields ensures IsJson(fields[k]) <==> forall x :: Within(x, fields[k]) ==> HasJsonForm(x) {
        JsonIsJsonInside(fields[k]);
      }
      forall x, k | k in fields && Within(x, fields[k]) ensures Within(x, v) { }
    case _ =>
  }

  /** Strings, booleans, finite numbers and valid dates. */
  predicate IsText(x: JsValue) {
    x.Str? || x.Bool? || x.Num? || (x.Date? && x.time != None)
  }

  /** The `headers` property is absent, undefined, a date, or an object of such values. */
  ghost predicate HeadersFit(v: JsValue)
    requires v.Obj?
  {
    "headers" in v.fields ==>
      var h := v.fields["headers"];
      h == Undefined || h.Date? || (h.Obj? && forall k <- h.fields :: IsText(h.fields[k]))
  }

  function BodyHeaders(v: JsValue): Headers
    requires v.Obj?
  {
    if "headers" in v.fields && v.fields["headers"].Obj? then v.fields["headers"].fields else map[]
  }

  /** An object with an own JSON payload, perhaps headers, and nothing else. */
  ghost predicate LooksLegacy(v: JsValue) {
    v.Obj? && "payload" in v.fields && IsJson(v.fields["payload"]) && v.fields.Keys <= {"payload", "headers"} && HeadersFit(v)
  }

  /** An object whose own `$cap` is an object of kind `cap.message`. */
  predicate DeclaresKind(v: JsValue) {
    && v.Obj? && "$cap" in v.fields && v.fields["$cap"].Obj?
    && "kind" in v.fields["$cap"].fields && v.fields["$cap"].fields["kind"] == Str("cap.message")
  }

  lemma KindsInFields(v: JsValue)
    ensures IsExplicitKind(v) <==> DeclaresKind(v)
    ensures IsStrictLegacy(v) <==> LooksLegacy(v)
    ensures !(DeclaresKind(v) && LooksLegacy(v))
  {
  }

  /** Each header comes from the explicit ones if it is there and from the body otherwise; none
      at all are absent. */
  ghost predicate HeadersFrom(headers: Option<Headers>, body: Headers, explicit: Option<Headers>) {
    var given, higher := headers.UnwrapOr(map[]), explicit.UnwrapOr(map[]);
    && given.Keys == body.Keys + higher.Keys && (headers == None <==> body == map[] && higher == map[])
    && forall k <- given :: given[k] == if k in higher then higher[k] else body[k]
  }

  /** A value that looks like a legacy envelope yields its payload, unless such envelopes are
      rejected. */
  lemma LegacyIsTakenApart(v: JsValue, explicit: Option<Headers>, mode: Mode)
    requires LooksLegacy(v)
    ensures mode == Reject ==> Decode(v, explicit, mode) == Err(LegacyRejected)
    ensures mode != Reject ==>
              var r := Decode(v, explicit, mode);
              && r.Ok? && r.value.payload == v.fields["payload"] && r.value.legacy && r.value.version == None
              && HeadersFrom(r.value.headers, BodyHeaders(v), explicit)
  {
    KindsInFields(v);
    MergedHeaders(BodyHeaders(v), explicit);
    assert EnvelopeHeaders(v) == BodyHeaders(v);
  }

  lemma MergedHeaders(body: Headers, explicit: Option<Headers>)
    ensures HeadersFrom(Merge(body, explicit), body, explicit)
  {
    var merged := body + explicit.UnwrapOr(map[]);
    assert merged.Keys == body.Keys + explicit.UnwrapOr(map[]).Keys;
    if merged == map[] { assert body.Keys == {} && explicit.UnwrapOr(map[]).Keys == {}; }
  }

  /** A value of neither kind is the payload itself, with the explicit headers. */
  lemma OtherValuesAreKept(v: JsValue, explicit: Option<Headers>, mode: Mode)
    requires !DeclaresKind(v) && !LooksLegacy(v)
    ensures var r := Decode(v, explicit, mode);
      && r.Ok? && r.value.payload == v && !r.value.legacy && r.value.version == None
      && HeadersFrom(r.value.headers, map[], explicit)
  {
    KindsInFields(v);
  }

  /** An explicit envelope is checked for its version, its payload and its headers, in this
      order; the first fault is the answer, and without one it yields its payload. */
  lemma ExplicitInFields(v: JsValue, explicit: Option<Headers>, mode: Mode)
    requires DeclaresKind(v)
    ensures var r, marker := Decode(v, explicit, mode), v.fields["$cap"].fields;
      if "version" !in marker then r == Err(MissingVersion)
      else if marker["version"] != Num(1.0) then r == Err(UnsupportedVersion(marker["version"]))
      else if "payload" !in v.fields then r == Err(MissingPayload)
      else if !IsJson(v.fields["payload"]) then r == Err(PayloadNotJson)
      else if !HeadersFit(v) then r == Err(InvalidHeaders)
      else
        && r.Ok? && r.value.payload == v.fields["payload"] && !r.value.legacy && r.value.version == Some(Num(1.0))
        && HeadersFrom(r.value.headers, BodyHeaders(v), explicit)
  {
    KindsInFields(v);
    MergedHeaders(BodyHeaders(v), explicit);
    assert EnvelopeHeaders(v) == BodyHeaders(v);
  }

  /** A built envelope declares its kind and version and carries the payload, a copy of the
      headers if there are any, and nothing else. */
  lemma CreatedInFields(payload: JsValue, headers: Option<Headers>)
    ensures var v := CreateEnvelope(payload, headers);
      && DeclaresKind(v) && v.plain && v.fields["$cap"] == Obj(map["kind" := Str("cap.message"), "version" := Num(1.0)], true)
      && "payload" in v.fields && v.fields["payload"] == payload
      && v.fields.Keys == {"$cap", "payload"} + (if headers.Some? then {"headers"} else {})
      && (headers.Some? ==> v.fields["headers"] == Obj(headers.value, true))
  {
  }
}
