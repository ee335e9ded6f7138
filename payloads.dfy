/** A dispatch row's stored message: how it is read back as a payload, which
    case of the worker's `switch (payload.type)` it takes, and the request the
    worker posts to the transport for it. */
module Payloads {
  import opened Js
  import opened Text

  /** A payload is a plain object; a key it does not have reads as undefined. */
  datatype Payload = Payload(fields: map<string, JsValue>) {
    function Field(key: string): JsValue {
      Get(fields, key)
    }
  }

  /** `{ type: 'text', text: String(raw ?? '') }`. */
  function TextPayload(raw: Option<string>): Payload {
    Payload(map["type" := Str("text"), "text" := Str(if raw.Some? then raw.value else "")])
  }

  /** What JSON.parse gave is kept only when it is an object with a truthy `type`. */
  predicate IsTypedObject(parsed: Option<JsValue>) {
    parsed.Some? && parsed.value.Obj? && Truthy(Get(parsed.value.fields, "type"))
  }

  /** `parsePayload(raw)`. `parse` stands for JSON.parse: None when it throws.
      A null message (None) parses to null, so it always takes the fallback. */
  function ParsePayload(raw: Option<string>, parse: string -> Option<JsValue>): (p: Payload)
    ensures Truthy(p.Field("type"))
    ensures raw.Some? && IsTypedObject(parse(raw.value)) ==> p.fields == parse(raw.value).value.fields
    ensures !(raw.Some? && IsTypedObject(parse(raw.value))) ==>
              p.Field("type") == Str("text") && p.Field("text") == Str(if raw.Some? then raw.value else "")
  {
    match raw
    case None => TextPayload(None)
    case Some(s) =>
      var parsed := parse(s);
      if IsTypedObject(parsed) then Payload(parsed.value.fields) else TextPayload(raw)
  }

  /** A message that JSON.parse rejects is read as a text payload whose text is the raw string. */
  lemma UnparsedMessageIsText(raw: string, parse: string -> Option<JsValue>)
    requires parse(raw).None?
    ensures ParsePayload(Some(raw), parse).Field("type") == Str("text")
    ensures ParsePayload(Some(raw), parse).Field("text") == Str(raw)
  {
  }

  /** A message that JSON.parse rejects is posted as a text message: the raw
      string rendered against the contact's variables. */
  lemma UnparsedMessagePosted(raw: string, parse: string -> Option<JsValue>, session: string, telnumber: string,
                              vars: map<string, Option<string>>)
    requires parse(raw).None?
    ensures Route(ParsePayload(Some(raw), parse), session, telnumber, vars) == Ok(SendMessage(session, telnumber, Render(raw, vars)))
  {
    UnparsedMessageIsText(raw, parse);
  }

  /** The cases of `switch (payload.type)`. */
  datatype Kind = ImageMsg | VideoMsg | AudioMsg | DocumentMsg | TextMsg

  /** The case a payload takes: the type compares with `===`, so only the exact
      strings select a media case; 'text' and anything else fall to text. */
  function KindOf(p: Payload): (k: Kind)
    ensures k == ImageMsg <==> p.Field("type") == Str("image")
    ensures k == VideoMsg <==> p.Field("type") == Str("video")
    ensures k == AudioMsg <==> p.Field("type") == Str("audio")
    ensures k == DocumentMsg <==> p.Field("type") == Str("document")
  {
    var t := p.Field("type");
    if t == Str("image") then ImageMsg
    else if t == Str("video") then VideoMsg
    else if t == Str("audio") then AudioMsg
    else if t == Str("document") then DocumentMsg
    else TextMsg
  }

  /** The body of each transport call, with the session it is posted under. */
  datatype Request =
    | SendImage(session: string, telnumber: string, imagePath: JsValue, filename: string, caption: JsValue)
    | SendVideo(session: string, telnumber: string, videoPath: JsValue, filename: string, caption: JsValue)
    | SendPtt(session: string, telnumber: string, audioPath: JsValue)
    | SendDocument(session: string, telnumber: string, filePath: JsValue, filename: string, caption: JsValue)
    | SendMessage(session: string, telnumber: string, message: string)
  {
    function Kind(): Kind {
      match this
      case SendImage(_, _, _, _, _) => ImageMsg
      case SendVideo(_, _, _, _, _) => VideoMsg
      case SendPtt(_, _, _) => AudioMsg
      case SendDocument(_, _, _, _, _) => DocumentMsg
      case SendMessage(_, _, _) => TextMsg
    }
  }

  const TransportBase := "http://localhost:3001"

  /** The URL a request is posted to. */
  function Endpoint(r: Request): string {
    var path := match r
      case SendImage(_, _, _, _, _) => "sendimage"
      case SendVideo(_, _, _, _, _) => "sendvideo"
      case SendPtt(_, _, _) => "sendptt"
      case SendDocument(_, _, _, _, _) => "senddocument"
      case SendMessage(_, _, _) => "sendmessage";
    TransportBase + "/" + r.session + "/" + path
  }

  /** `payload.text || ''`. */
  function Caption(p: Payload): (c: JsValue)
    ensures c == p.Field("text") || c == Str("")
    ensures Truthy(c) <==> Truthy(p.Field("text"))
    ensures !Truthy(c) ==> c == Str("")
  {
    Or(p.Field("text"), Str(""))
  }

  /** The request the worker builds for one payload, or the error thrown while
      building it (rendering a text whose value is not a string). */
  function Route(p: Payload, session: string, telnumber: string, vars: map<string, Option<string>>): (r: Result<Request>)
    ensures r.Err? <==> KindOf(p) == TextMsg && Truthy(p.Field("text")) && !p.Field("text").Str?
    ensures r.Err? ==> r.message != ""
    ensures r.Ok? ==> r.value.Kind() == KindOf(p) && r.value.session == session && r.value.telnumber == telnumber
    ensures r.Ok? && r.value.SendImage? ==>
              r.value.imagePath == p.Field("imageUrl") && r.value.filename == FilenameFromUrl(p.Field("imageUrl"), "imagem.jpg")
    ensures r.Ok? && r.value.SendVideo? ==>
              r.value.videoPath == p.Field("videoUrl") && r.value.filename == FilenameFromUrl(p.Field("videoUrl"), "video.mp4")
    ensures r.Ok? && r.value.SendPtt? ==> r.value.audioPath == p.Field("audioUrl")
    ensures r.Ok? && r.value.SendDocument? ==>
              r.value.filePath == p.Field("documentUrl") && r.value.filename == FilenameFromUrl(p.Field("documentUrl"), "documento")
    ensures r.Ok? && (r.value.SendImage? || r.value.SendVideo? || r.value.SendDocument?) ==>
              r.value.filename != "" &&
              (Truthy(p.Field("text")) ==> r.value.caption == p.Field("text")) &&
              (!Truthy(p.Field("text")) ==> r.value.caption == Str(""))
    ensures r.Ok? && r.value.SendMessage? ==>
              (!Truthy(p.Field("text")) ==> r.value.message == "") &&
              (p.Field("text").Str? ==> r.value.message == Render(p.Field("text").s, vars))
  {
    match KindOf(p)
    case ImageMsg =>
      Ok(SendImage(session, telnumber, p.Field("imageUrl"), FilenameFromUrl(p.Field("imageUrl"), "imagem.jpg"), Caption(p)))
    case VideoMsg =>
      Ok(SendVideo(session, telnumber, p.Field("videoUrl"), FilenameFromUrl(p.Field("videoUrl"), "video.mp4"), Caption(p)))
    case AudioMsg =>
      Ok(SendPtt(session, telnumber, p.Field("audioUrl")))
    case DocumentMsg =>
      Ok(SendDocument(session, telnumber, p.Field("documentUrl"), FilenameFromUrl(p.Field("documentUrl"), "documento"), Caption(p)))
    case TextMsg =>
      match RenderTemplate(p.Field("text"), vars)
      case Ok(message) => Ok(SendMessage(session, telnumber, message))
      case Err(e) => Err(e)
  }

  /** Each request goes to its own endpoint under the row's session. */
  lemma EndpointsDiffer(a: Request, b: Request)
    requires a.session == b.session && a.Kind() != b.Kind()
    ensures Endpoint(a) != Endpoint(b)
  {
    var prefix := TransportBase + "/" + a.session + "/";
    assert Endpoint(a)[..|prefix|] == prefix && Endpoint(b)[..|prefix|] == prefix;
    assert Endpoint(a)[|prefix| + 4] != Endpoint(b)[|prefix| + 4] || |Endpoint(a)| != |Endpoint(b)|;
  }
}
