/**
 * One synthesis round trip: the request `tts` sends and the classification of the
 * service's answer into a transport error, an error tip, or audio to deliver.
 */
module Synthesis {
  import opened Wrappers
  import opened JsString
  import opened Preferences

  const DefaultBaseUrl: string := "https://deprecatedapis.tts.quest/v2/voicevox/audio/"

  /** `(cfg.baseUrl || DefaultBaseUrl).replace(/\/$/, '/')`: replacing a final slash by a
      slash leaves the text as it was, so the configured base is used verbatim. */
  function BaseUrl(cfg: Config): (b: string)
    ensures b != []
    ensures cfg.baseUrl.Some? && cfg.baseUrl.value != [] ==> b == cfg.baseUrl.value
    ensures !(cfg.baseUrl.Some? && cfg.baseUrl.value != []) ==> b == DefaultBaseUrl
  {
    var b := if cfg.baseUrl.Some? && cfg.baseUrl.value != [] then cfg.baseUrl.value else DefaultBaseUrl;
    ReplaceFinalSlash(b)
  }

  /** `s.replace(/\/$/, '/')`. */
  function ReplaceFinalSlash(s: string): (r: string)
    ensures r == s
  {
    if s != [] && s[|s| - 1] == '/' then s[..|s| - 1] + "/" else s
  }

  /** The query of the request URL, field by field; `encodeURIComponent` and the number
      printing are left to the transport. */
  datatype SynthesisRequest = SynthesisRequest(baseUrl: string, key: string, params: Params, text: string)

  /** The answer of the service. `body` is `None` when reading it raises; `url` is the
      final URL after redirects, empty when the response does not say. */
  datatype Response = Response(ok: bool, status: int, contentType: Option<string>, body: Option<string>, url: string)

  /** The error texts the service may answer with instead of audio. */
  datatype ApiTip = InvalidApiKey | Failed | NotEnoughPoints | Echo(text: string) | NoAudio

  datatype Outcome =
    | TransportError(status: int, text: string)
    | ApiError(tip: ApiTip)
    | AudioReady
    | BodyUnreadable

  /** The tip table, looked up on the trimmed body as an own property. */
  function TipFor(key: string): Option<ApiTip> {
    if key == "invalidApiKey" then Some(InvalidApiKey)
    else if key == "failed" then Some(Failed)
    else if key == "notEnoughPoints" then Some(NotEnoughPoints)
    else None
  }

  /** The names every object literal inherits from `Object.prototype`; each resolves to
      a function (or to the prototype itself), which is truthy. */
  const PrototypeNames: set<string> := {
    "constructor", "hasOwnProperty", "isPrototypeOf", "propertyIsEnumerable", "toString",
    "toLocaleString", "valueOf", "__defineGetter__", "__defineSetter__", "__lookupGetter__",
    "__lookupSetter__", "__proto__"}

  /** The tip for a non-audio body, evidently as intended: a known error name gives its
      message, any other non-empty body is echoed, and an empty one means no audio. */
  function ClassifyBody(bodyText: string): (tip: ApiTip)
    ensures TipFor(Trim(bodyText)).Some? ==> tip == TipFor(Trim(bodyText)).value
    ensures TipFor(Trim(bodyText)).None? && bodyText != [] ==> tip == Echo(bodyText)
    ensures tip == NoAudio <==> bodyText == []
  {
    if bodyText == [] then
      assert Trim(bodyText) == [];
      NoAudio
    else
      var t := TipFor(Trim(bodyText));
      if t.Some? then t.value else Echo(bodyText)
  }

  /** As written: `map[bodyText?.trim()]` on an object literal also finds the inherited
      names, whose value is a function; the reply then renders that function. */
  datatype TipAsWritten = Tip(tip: ApiTip) | InheritedMember(name: string)

  function ClassifyBodyAsWritten(bodyText: string): TipAsWritten {
    var key := Trim(bodyText);
    if TipFor(key).Some? then Tip(TipFor(key).value)
    else if key in PrototypeNames then InheritedMember(key)
    else if bodyText != [] then Tip(Echo(bodyText))
    else Tip(NoAudio)
  }

  /** The two classifications agree on every body except the inherited names. */
  lemma AsWrittenAgreesElsewhere(bodyText: string)
    requires Trim(bodyText) !in PrototypeNames
    ensures ClassifyBodyAsWritten(bodyText) == Tip(ClassifyBody(bodyText))
  {
  }

  /** A service answering `toString` gets a function rendered instead of its text. */
  lemma ToStringBodyIsMisread()
    ensures ClassifyBodyAsWritten("toString") == InheritedMember("toString")
    ensures ClassifyBody("toString") == Echo("toString")
  {
    TrimIdentity("toString");
  }

  /** Whether the response is audio: the content type (empty when absent) mentions it. */
  predicate IsAudio(r: Response) {
    Includes(r.contentType.GetOr([]), "audio")
  }

  /** What `tts` makes of the response: a failed status echoes the body (an unreadable
      body escapes to the general error handler), a non-audio answer is classified (an
      unreadable body counts as empty), and audio goes on to delivery. */
  function Classify(r: Response): (o: Outcome)
    ensures !r.ok && r.body.Some? ==> o == TransportError(r.status, r.body.value)
    ensures !r.ok && r.body.None? ==> o == BodyUnreadable
    ensures r.ok && IsAudio(r) ==> o == AudioReady
    ensures r.ok && !IsAudio(r) ==> o == ApiError(ClassifyBody(r.body.GetOr([])))
  {
    if !r.ok then
      if r.body.Some? then TransportError(r.status, r.body.value) else BodyUnreadable
    else if !IsAudio(r) then ApiError(ClassifyBody(r.body.GetOr([])))
    else AudioReady
  }

  /** A status failure is reported whatever the content type; audio is only accepted with
      a success status. */
  lemma AudioNeedsOk(r: Response)
    ensures Classify(r) == AudioReady <==> r.ok && IsAudio(r)
  {
  }

  /** Where the audio is fetched from for delivery: `res.url || url`. */
  datatype Locator = ResponseUrl(url: string) | RequestUrl(req: SynthesisRequest)

  function LocatorOf(r: Response, req: SynthesisRequest): (l: Locator)
    ensures l.ResponseUrl? <==> r.url != []
  {
    if r.url != [] then ResponseUrl(r.url) else RequestUrl(req)
  }
}
