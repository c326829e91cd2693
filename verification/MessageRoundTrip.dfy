/** A message from the engine's emit through the NestJS microservices publisher, the wire, the
    bridge and `persistReceived` (libs/cap-transport-nestjs-microservices/src,
    libs/cap-core/src/engine/cap-engine.ts). */
module MessageRoundTrip {
  import opened Basics
  import opened Envelope

  datatype Metadata = Metadata(messageId: Option<string>, dedupeKey: Option<string>)

  // ---------------------------------------------------------------- sending

  function WithMessageId(headers: Option<Headers>, id: string): Headers {
    headers.UnwrapOr(map[])[MESSAGE_ID := Str(id)]
  }

  /** What `CapMicroservicesPublisher.emit` hands to the client. An empty message id counts as
      none. */
  function Emit(payload: JsValue, headers: Option<Headers>, messageId: Option<string>): JsValue {
    var envelopeHeaders :=
      if messageId.Some? && messageId.value != "" then Some(WithMessageId(headers, messageId.value)) else headers;
    if envelopeHeaders.Some? then CreateEnvelope(payload, envelopeHeaders) else payload
  }

  /** The engine's emit of an outbox row. */
  function EngineEmit(payload: JsValue, headers: Option<Headers>, id: string): JsValue {
    Emit(payload, Some(WithMessageId(headers, id)), Some(id))
  }

  // ---------------------------------------------------------------- the wire

  /** Serialising to JSON and parsing back. `iso` renders a valid date. */
  function Wire(v: JsValue, iso: int -> string): JsValue {
    match v
    case NonFinite => Null
    case Date(time) => if time.Some? then Str(iso(time.value)) else Null
    case Arr(items) =>
      Arr(seq(|items|, i requires 0 <= i < |items| => if Survives(items[i]) then Wire(items[i], iso) else Null))
    case Obj(fields, _) => Obj(map k | k in fields && Survives(fields[k]) :: Wire(fields[k], iso), true)
    case _ => v
  }

  /** Undefined and opaque properties are dropped. */
  predicate Survives(v: JsValue) {
    !v.Undefined? && !v.Opaque?
  }

  lemma {:induction false} WireKeepsJson(v: JsValue, iso: int -> string)
    requires IsJson(v)
    ensures Survives(v) && Wire(v, iso) == v
  {
    match v
    case Arr(items) =>
      forall i | 0 <= i < |items| ensures Survives(items[i]) && Wire(items[i], iso) == items[i] {
        assert items[i] in items;
        WireKeepsJson(items[i], iso);
      }
    case Obj(fields, _) =>
      forall k <- fields ensures Survives(fields[k]) && Wire(fields[k], iso) == fields[k] {
        WireKeepsJson(fields[k], iso);
      }
    case _ =>
  }

  function WireHeaders(h: Headers, iso: int -> string): Headers {
    map k | k in h && Survives(h[k]) :: Wire(h[k], iso)
  }

  lemma WireKeepsHeaders(h: Headers, iso: int -> string)
    requires AreHeaders(h)
    ensures WireHeaders(h, iso).Keys == h.Keys && AreHeaders(WireHeaders(h, iso))
    ensures MESSAGE_ID in h && h[MESSAGE_ID].Str? ==> WireHeaders(h, iso)[MESSAGE_ID] == h[MESSAGE_ID]
  {
  }

  /** On the wire an envelope stays an envelope of the same payload. */
  lemma WireKeepsEnvelope(payload: JsValue, headers: Headers, iso: int -> string)
    requires IsJson(payload)
    ensures Wire(CreateEnvelope(payload, Some(headers)), iso) == CreateEnvelope(payload, Some(WireHeaders(headers, iso)))
  {
    var marker := Obj(map["kind" := Str(KIND), "version" := VERSION], true);
    WireKeepsJson(payload, iso);
    WireKeepsJson(marker, iso);
    WireOfHeaders(headers, iso);
    assert Wire(Obj(map[], true), iso) == Obj(map[], true);
    WireOfOneMore(map[], "$cap", marker, iso);
    WireOfOneMore(map["$cap" := marker], "payload", payload, iso);
    WireOfOneMore(map["$cap" := marker, "payload" := payload], "headers", Obj(headers, true), iso);
    hide Wire, Survives, WireHeaders, IsJson;
  }

  lemma WireOfHeaders(headers: Headers, iso: int -> string)
    ensures Survives(Obj(headers, true)) && Wire(Obj(headers, true), iso) == Obj(WireHeaders(headers, iso), true)
  {
  }

  /** One more property is one more property on the wire. */
  lemma WireOfOneMore(fields: map<string, JsValue>, key: string, x: JsValue, iso: int -> string)
    requires Survives(x)
    ensures Wire(Obj(fields[key := x], true), iso) == Obj(Wire(Obj(fields, true), iso).fields[key := Wire(x, iso)], true)
  {
    hide Survives;
    assert Wire(Obj(fields[key := x], true), iso).fields == Wire(Obj(fields, true), iso).fields[key := Wire(x, iso)];
  }

  // ---------------------------------------------------------------- the bridge

  /** `isLegacyNestjsWrapper`. */
  predicate IsLegacyWrapper(v: JsValue) {
    && IsRecord(v) && "payload" in Own(v) && "metadata" in Own(v)
    && (forall k <- Own(v) :: k == "payload" || k == "headers" || k == "metadata")
    && IsPlainRecord(Own(v)["metadata"])
    && ("headers" in Own(v) ==>
          var h := Own(v)["headers"]; h.Undefined? || h.Null? || IsPlainRecord(h))
  }

  function TextField(v: JsValue, key: string): Option<string> {
    if key in Own(v) && Own(v)[key].Str? then Some(Own(v)[key].text) else None
  }

  function OrElse<T>(first: Option<T>, second: Option<T>): Option<T> {
    if first.Some? then first else second
  }

  /** `mergeTransportMetadata`: the transport's values win. */
  function MergeMetadata(nested: Metadata, transport: Option<Metadata>): Option<Metadata> {
    var outer := transport.UnwrapOr(Metadata(None, None));
    var merged := Metadata(OrElse(outer.messageId, nested.messageId), OrElse(outer.dedupeKey, nested.dedupeKey));
    if merged == Metadata(None, None) then None else Some(merged)
  }

  datatype Dispatched = Dispatched(message: JsValue, headers: Option<Headers>, metadata: Option<Metadata>)

  /** What the bridge passes to its handlers. */
  function Dispatch(message: JsValue, headers: Option<Headers>, metadata: Option<Metadata>): Dispatched {
    if !IsLegacyWrapper(message) then Dispatched(message, headers, metadata)
    else
      var nestedHeaders := EnvelopeHeaders(message);
      var nested := Metadata(TextField(Own(message)["metadata"], "messageId"), TextField(Own(message)["metadata"], "dedupeKey"));
      Dispatched(Own(message)["payload"], Merge(nestedHeaders, headers), MergeMetadata(nested, metadata))
  }

  /** A legacy wrapper is taken apart: the payload goes on alone, each header comes from the
      transport if that has it and from the wrapper otherwise, and so does the metadata. */
  lemma WrapperIsUnwrapped(message: JsValue, headers: Option<Headers>, metadata: Option<Metadata>, key: string)
    requires IsLegacyWrapper(message)
    ensures var d, th, nh := Dispatch(message, headers, metadata), headers.UnwrapOr(map[]), EnvelopeHeaders(message);
      && d.message == Own(message)["payload"]
      && (key in d.headers.UnwrapOr(map[]) <==> key in th || key in nh)
      && (key in th ==> d.headers.UnwrapOr(map[])[key] == th[key])
      && (key in nh && key !in th ==> d.headers.UnwrapOr(map[])[key] == nh[key])
      && (d.headers.None? <==> th == map[] && nh == map[])
    ensures var d, tm, nested := Dispatch(message, headers, metadata).metadata.UnwrapOr(Metadata(None, None)),
        metadata.UnwrapOr(Metadata(None, None)), Own(message)["metadata"];
      && (tm.messageId.Some? ==> d.messageId == tm.messageId)
      && (tm.messageId.None? ==> d.messageId == TextField(nested, "messageId"))
      && (tm.dedupeKey.Some? ==> d.dedupeKey == tm.dedupeKey)
      && (tm.dedupeKey.None? ==> d.dedupeKey == TextField(nested, "dedupeKey"))
  {
    MergePrefersHigher(EnvelopeHeaders(message), headers, key);
  }

  type HandlerId = nat

  /** The bridge object: the handlers of each topic and group, and whether the warning about
      legacy wrappers has been given. */
  class CapMicroservicesBridge {
    var handlers: map<string, set<HandlerId>>
    var warned: bool

    constructor ()
      ensures handlers == map[] && !warned
    {
      handlers, warned := map[], false;
    }

    function HandlersOf(topic: string, group: string): set<HandlerId>
      reads this
    {
      if JoinKey(topic, group) in handlers then handlers[JoinKey(topic, group)] else {}
    }

    method Consume(topic: string, group: string, handler: HandlerId)
      modifies this`handlers
      ensures HandlersOf(topic, group) == old(HandlersOf(topic, group)) + {handler}
      ensures forall t, g :: JoinKey(t, g) != JoinKey(topic, group) ==> HandlersOf(t, g) == old(HandlersOf(t, g))
    {
      var key := JoinKey(topic, group);
      if key !in handlers { handlers := handlers[key := {}]; }
      handlers := handlers[key := handlers[key] + {handler}];
    }

    /** The calls made: each handler of the topic and group gets the unwrapped message. */
    method DispatchTo(topic: string, group: string, message: JsValue, headers: Option<Headers>, metadata: Option<Metadata>)
      returns (calls: map<HandlerId, Dispatched>)
      modifies this`warned
      ensures calls == map h | h in HandlersOf(topic, group) :: Dispatch(message, headers, metadata)
      ensures warned == (old(warned) || (HandlersOf(topic, group) != {} && IsLegacyWrapper(message)))
    {
      var key := JoinKey(topic, group);
      if key !in handlers || handlers[key] == {} { return map[]; }
      if IsLegacyWrapper(message) { warned := true; }
      calls := map h | h in handlers[key] :: Dispatch(message, headers, metadata);
    }
  }

  // ---------------------------------------------------------------- receiving

  datatype Record = Record(messageId: string, dedupeKey: string, payload: JsValue, headers: Option<Headers>)

  /** `getCapMessageId`; `show` renders header values that are not strings. */
  function MessageIdOf(headers: Option<Headers>, show: JsValue -> string): Option<string> {
    var h := headers.UnwrapOr(map[]);
    if MESSAGE_ID !in h || h[MESSAGE_ID].Undefined? then None
    else if h[MESSAGE_ID].Str? then Some(h[MESSAGE_ID].text)
    else Some(show(h[MESSAGE_ID]))
  }

  /** The record `persistReceived` builds, up to its own fresh id and clock. */
  function Persist(topic: string, group: string, d: Dispatched, mode: Mode, freshId: string, show: JsValue -> string): Result<Record> {
    match Decode(d.message, d.headers, mode)
    case Err(problem) => Err(problem)
    case Ok(decoded) =>
      var metadata := d.metadata.UnwrapOr(Metadata(None, None));
      var messageId := OrElse(metadata.messageId, MessageIdOf(decoded.headers, show)).UnwrapOr(freshId);
      var dedupeKey := metadata.dedupeKey.UnwrapOr(topic + "|" + group + "|" + messageId);
      Ok(Record(messageId, dedupeKey, decoded.payload, decoded.headers))
  }

  // ---------------------------------------------------------------- end to end

  /** An envelope is never mistaken for a legacy wrapper, so the bridge passes it on as it is. */
  lemma EnvelopeIsNoWrapper(payload: JsValue, headers: Option<Headers>, th: Option<Headers>, tm: Option<Metadata>)
    ensures !IsLegacyWrapper(CreateEnvelope(payload, headers))
    ensures Dispatch(CreateEnvelope(payload, headers), th, tm) == Dispatched(CreateEnvelope(payload, headers), th, tm)
  {
    assert "$cap" in Own(CreateEnvelope(payload, headers));
  }

  /** Every JSON payload, whatever it looks like, is stored unchanged, and under the outbox id
      unless the transport brings a message id of its own. */
  lemma PayloadArrives(payload: JsValue, headers: Option<Headers>, id: string, th: Option<Headers>, tm: Option<Metadata>,
                       topic: string, group: string, mode: Mode, freshId: string, iso: int -> string, show: JsValue -> string)
    requires IsJson(payload) && (headers.Some? ==> AreHeaders(headers.value))
    ensures var message := Wire(EngineEmit(payload, headers, id), iso);
      var r := Persist(topic, group, Dispatch(message, th, tm), mode, freshId, show);
      var metadata := tm.UnwrapOr(Metadata(None, None));
      && r.Ok? && r.value.payload == payload
      && r.value.headers == Some(WireHeaders(WithMessageId(headers, id), iso) + th.UnwrapOr(map[]))
      && (metadata.messageId.None? && MESSAGE_ID !in th.UnwrapOr(map[]) ==> r.value.messageId == id)
      && (metadata.dedupeKey.None? ==> r.value.dedupeKey == topic + "|" + group + "|" + r.value.messageId)
  {
    var sent := WithMessageId(headers, id);
    EmittedEnvelope(payload, headers, id);
    WireKeepsEnvelope(payload, sent, iso);
    WireKeepsHeaders(sent, iso);
    var wired := WireHeaders(sent, iso);
    EnvelopeIsNoWrapper(payload, Some(wired), th, tm);
    DecodeUndoesCreate(payload, Some(wired), th, mode);
    assert MESSAGE_ID in wired + th.UnwrapOr(map[]);
  }

  /** The engine always sends an envelope, and its message id header replaces any other. */
  lemma EmittedEnvelope(payload: JsValue, headers: Option<Headers>, id: string)
    ensures EngineEmit(payload, headers, id) == CreateEnvelope(payload, Some(WithMessageId(headers, id)))
  {
    assert WithMessageId(Some(WithMessageId(headers, id)), id) == WithMessageId(headers, id);
  }

  /** Without an envelope, that is for a publisher given neither headers nor a message id, a
      JSON payload arrives unchanged exactly when it does not look like an envelope or wrapper
      itself. */
  lemma BareArrivesIff(payload: JsValue, th: Option<Headers>, tm: Option<Metadata>,
                       topic: string, group: string, mode: Mode, freshId: string, iso: int -> string, show: JsValue -> string)
    requires IsJson(payload)
    ensures var message := Wire(Emit(payload, None, None), iso);
      var r := Persist(topic, group, Dispatch(message, th, tm), mode, freshId, show);
      (r.Ok? && r.value.payload == payload)
      <==> (!IsExplicitKind(payload) && !IsStrictLegacy(payload) && !IsLegacyWrapper(payload))
  {
    WireKeepsJson(payload, iso);
    if IsLegacyWrapper(payload) {
      var inner := Own(payload)["payload"];
      DecodedIsNotWhole(payload, inner, Merge(EnvelopeHeaders(payload), th), mode);
    } else {
      DecodeKeepsIff(payload, th, mode);
    }
  }

  /** What decoding finds inside a property is never the whole value. */
  lemma DecodedIsNotWhole(v: JsValue, inner: JsValue, h: Option<Headers>, mode: Mode)
    requires v.Obj? && "payload" in v.fields && v.fields["payload"] == inner
    ensures Decode(inner, h, mode).Ok? ==> Decode(inner, h, mode).value.payload != v
  {
  }

  // ---------------------------------------------------------------- the pieces, by their properties

  /** Without headers and without a message id the payload is sent bare; otherwise in an envelope
      whose headers are the given ones with the message id, if any, put in. */
  lemma EmitLaw(payload: JsValue, headers: Option<Headers>, messageId: Option<string>)
    ensures var given, hasId := headers.UnwrapOr(map[]), messageId.Some? && messageId.value != "";
      var sent := Emit(payload, headers, messageId);
      if headers == None && !hasId then sent == payload
      else sent == CreateEnvelope(payload, Some(if hasId then given["cap-message-id" := Str(messageId.value)] else given))
  {
  }

  /** What parsing gives back after serialising is JSON, whatever was serialised. */
  lemma {:induction false} WireIsJson(v: JsValue, iso: int -> string)
    requires Survives(v)
    ensures IsJson(Wire(v, iso))
  {
    match v
    case Arr(items) =>
      forall i | 0 <= i < |items| && Survives(items[i]) ensures IsJson(Wire(items[i], iso)) {
        assert items[i] in items;
        WireIsJson(items[i], iso);
      }
    case Obj(fields, _) =>
      forall k <- fields | Survives(fields[k]) ensures IsJson(Wire(fields[k], iso)) {
        WireIsJson(fields[k], iso);
      }
    case _ =>
  }

  /** An object with an own payload and own plain metadata, perhaps headers that are undefined,
      null or a plain object, and nothing else. */
  predicate LooksWrapped(v: JsValue) {
    && v.Obj? && {"payload", "metadata"} <= v.fields.Keys <= {"payload", "headers", "metadata"}
    && v.fields["metadata"].Obj? && v.fields["metadata"].plain
    && ("headers" in v.fields ==>
          var h := v.fields["headers"]; h == Undefined || h == Null || (h.Obj? && h.plain))
  }

  lemma WrapperInFields(v: JsValue)
    ensures IsLegacyWrapper(v) <==> LooksWrapped(v)
  {
  }

  /** Each of the two values comes from the transport if it gave it, otherwise from the wrapper
      if it has it as a string; without either there is no metadata. */
  ghost predicate MetadataFrom(m: Option<Metadata>, nested: map<string, JsValue>, transport: Option<Metadata>) {
    var given, outer := m.UnwrapOr(Metadata(None, None)), transport.UnwrapOr(Metadata(None, None));
    && ValueFrom(given.messageId, nested, "messageId", outer.messageId)
    && ValueFrom(given.dedupeKey, nested, "dedupeKey", outer.dedupeKey)
    && (m == None <==> given == Metadata(None, None))
  }

  ghost predicate ValueFrom(value: Option<string>, nested: map<string, JsValue>, key: string, outer: Option<string>) {
    if outer.Some? then value == outer
    else forall x :: value == Some(x) <==> key in nested && nested[key] == Str(x)
  }

  /** The bridge passes on the payload of a wrapper, and any other message as it is, with the
      transport's headers and metadata untouched. */
  lemma DispatchLaw(v: JsValue, headers: Option<Headers>, metadata: Option<Metadata>)
    ensures !LooksWrapped(v) ==> Dispatch(v, headers, metadata) == Dispatched(v, headers, metadata)
    ensures LooksWrapped(v) ==> Dispatch(v, headers, metadata).message == v.fields["payload"]
                                && HeadersFrom(Dispatch(v, headers, metadata).headers, BodyHeaders(v), headers)
                                && MetadataFrom(Dispatch(v, headers, metadata).metadata, v.fields["metadata"].fields, metadata)
  {
    WrapperInFields(v);
    if v.Obj? {
      MergedHeaders(BodyHeaders(v), headers);
      assert EnvelopeHeaders(v) == BodyHeaders(v);
    }
  }

  /** The message id in the decoded headers, if there is one. */
  ghost predicate CarriesId(headers: Option<Headers>, id: string, show: JsValue -> string) {
    && headers.Some? && "cap-message-id" in headers.value
    && var x := headers.value["cap-message-id"];
       x != Undefined && (x == Str(id) || (!x.Str? && id == show(x)))
  }

  /** The record keeps the decoded payload and headers. Its message id is the transport's if it
      gave one, otherwise that of the headers, otherwise a fresh one; its dedupe key is the
      transport's if it gave one, otherwise topic, group and message id joined. */
  lemma PersistLaw(topic: string, group: string, d: Dispatched, mode: Mode, freshId: string, show: JsValue -> string)
    ensures var r, decoded, m := Persist(topic, group, d, mode, freshId, show), Decode(d.message, d.headers, mode), d.metadata;
      && (decoded.Err? ==> r == Err(decoded.problem))
      && (decoded.Ok? ==>
            && r.Ok? && r.value.payload == decoded.value.payload && r.value.headers == decoded.value.headers
            && (if m.Some? && m.value.messageId.Some? then r.value.messageId == m.value.messageId.value
                else if exists id :: CarriesId(decoded.value.headers, id, show) then CarriesId(decoded.value.headers, r.value.messageId, show)
                else r.value.messageId == freshId)
            && r.value.dedupeKey == (if m.Some? && m.value.dedupeKey.Some? then m.value.dedupeKey.value
                                     else topic + "|" + group + "|" + r.value.messageId))
  {
    var decoded := Decode(d.message, d.headers, mode);
    if decoded.Ok? {
      var headers := decoded.value.headers;
      var carried := MessageIdOf(headers, show);
      if carried.Some? { assert CarriesId(headers, carried.value, show); }
    }
  }

  /** A message that looks like a legacy envelope reaches the record with the payload inside it,
      unless such envelopes are rejected; headers of the transport win over those inside. */
  lemma LegacyArrives(v: JsValue, th: Option<Headers>, tm: Option<Metadata>, topic: string, group: string,
                      mode: Mode, freshId: string, show: JsValue -> string)
    requires LooksLegacy(v)
    ensures var r := Persist(topic, group, Dispatch(v, th, tm), mode, freshId, show);
      if mode == Reject then r == Err(LegacyRejected)
      else r.Ok? && r.value.payload == v.fields["payload"] && HeadersFrom(r.value.headers, BodyHeaders(v), th)
  {
    DispatchLaw(v, th, tm);
    assert !LooksWrapped(v);
    LegacyIsTakenApart(v, th, mode);
    PersistLaw(topic, group, Dispatch(v, th, tm), mode, freshId, show);
  }
}
