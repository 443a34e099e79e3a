/**
 * The `#vv` message handler: it reads the configuration, routes the trimmed message, and
 * either runs a sub-command (set the API key, set, show or reset the user's preferences,
 * list speakers) or synthesizes the text and delivers the audio.
 *
 * Everything the handler does outside its own state is an effect in the returned list:
 * a reply, the synthesis request, or a delivery attempt. The configuration file, the
 * preference store and the disk are objects the handler updates. The speaker table,
 * `parseFloat`, `toLowerCase`, the HTTP call and the faults of the store, the
 * configuration write and the delivery steps are parameters collected in `Env`.
 */
module VoiceVox {
  import opened Wrappers
  import opened JsString
  import opened Preferences
  import opened Dispatch
  import opened SpeakerList
  import opened Synthesis
  import opened Delivery

  /** The message event: its text, whether the sender is the bot's master, and the
      sender's id on the event and on its `sender` object. */
  datatype Event = Event(msg: string, isMaster: bool, userId: Option<string>, senderUserId: Option<string>)

  /** `e.user_id || e.sender?.user_id`, as it appears in the store key: `||` takes the
      sender's id as it is, even when empty, and an absent id prints as `undefined`. */
  function UserIdOf(ev: Event): (uid: string)
    ensures ev.userId.Some? && ev.userId.value != [] ==> uid == ev.userId.value
    ensures !(ev.userId.Some? && ev.userId.value != []) ==>
      uid == if ev.senderUserId.Some? then ev.senderUserId.value else "undefined"
  {
    if ev.userId.Some? && ev.userId.value != [] then ev.userId.value
    else if ev.senderUserId.Some? then ev.senderUserId.value
    else "undefined"
  }

  datatype Reply =
    | NoPermission
    | SetKeyUsage
    | KeyUpdated
    | SpeakUsage
    | NeedApiKey
    | Synthesizing
    | SynthesisFailed(status: int, text: string)
    | ApiFailed(tip: ApiTip)
    | Voice(tier: Tier)
    | InternalError
    | SetUsage
    | SetRejected(error: SetError)
    | SpeakerSet(id: int)
    | ValueSet(param: string, value: Option<real>)
    | SaveFailed
    | NoPrefsYet
    | PrefsShown(params: Params)
    | ResetDone
    | ResetFailed
    | Listing(list: ListReply)

  datatype Effect = Say(reply: Reply) | Fetch(req: SynthesisRequest) | Upload(tier: Tier)

  /** The outside world. `fetch` answers `None` when the request raises. */
  datatype Env = Env(
    findSpeaker: string -> Option<int>,
    parseFloat: string -> Option<real>,
    toLower: string -> string,
    speakers: seq<Speaker>,
    fetch: SynthesisRequest -> Option<Response>,
    storeGetFails: bool,
    storeSetFails: bool,
    storeDelFails: bool,
    configWriteFails: bool,
    delivery: DeliveryEnv)

  /** The configuration file. `doc` is `None` when it cannot be read or does not hold a
      mapping; every message then gets the general error reply. */
  class ConfigFile {
    var doc: Option<Config>

    constructor(initial: Option<Config>)
      ensures doc == initial
    {
      doc := initial;
    }
  }

  /** The API key if one is configured (an empty key counts as none). */
  predicate HasApiKey(cfg: Config) {
    cfg.apiKey.Some? && cfg.apiKey.value != []
  }

  // ---------------------------------------------------------------------------
  // Sub-commands

  /** `#vv setkey <key>`: only the master may change the key; it is written back into the
      configuration file with every other setting kept. `before` and `after` are the
      configuration document around the command. */
  ghost predicate KeySet(ev: Event, cfg: Config, key: string, configWriteFails: bool,
                         before: Option<Config>, after: Option<Config>, reply: Reply) {
    && (!ev.isMaster ==> reply == NoPermission && after == before)
    && (ev.isMaster && key == [] ==> reply == SetKeyUsage && after == before)
    && (ev.isMaster && key != [] && configWriteFails ==> reply == InternalError && after == before)
    && (ev.isMaster && key != [] && !configWriteFails ==>
          reply == KeyUpdated && after == Some(cfg.(apiKey := Some(key))))
  }

  method HandleSetKey(ev: Event, cfg: Config, key: string, file: ConfigFile, configWriteFails: bool) returns (reply: Reply)
    modifies file
    ensures KeySet(ev, cfg, key, configWriteFails, old(file.doc), file.doc, reply)
  {
    if !ev.isMaster {
      return NoPermission;
    }
    if key == [] {
      return SetKeyUsage;
    }
    if configWriteFails {
      return InternalError;
    }
    file.doc := Some(cfg.(apiKey := Some(key)));
    return KeyUpdated;
  }

  /** `handleSetPrefs`: read the user's record, parse and validate, write the whole
      record back, and confirm. `before` and `after` are the store's entries around it. */
  ghost predicate PrefsSet(uid: string, raw: string, env: Env,
                           before: map<string, PrefRecord>, after: map<string, PrefRecord>, reply: Reply) {
    && (ParseSet(raw).None? ==> reply == SetUsage && after == before)
    && (ParseSet(raw).Some? ==>
          var args := ParseSet(raw).value;
          var base := if env.storeGetFails then NoPrefs else Stored(before, uid);
          match ApplySet(base, args.param, args.value, env.findSpeaker, env.parseFloat)
          case Rejected(err) => reply == SetRejected(err) && after == before
          case Updated(p) =>
            if env.storeSetFails then reply == SaveFailed && after == before
            else
              && after == before[PrefKey(uid) := p]
              && reply == (if AxisOf(args.param) == Some(SpeakerAxis) then SpeakerSet(p.speaker.value)
                           else ValueSet(args.param, ConfirmedValue(AxisOf(args.param).value, p))))
  }

  method HandleSetPrefs(uid: string, raw: string, store: PrefStore, env: Env) returns (reply: Reply)
    modifies store
    ensures PrefsSet(uid, raw, env, old(store.entries), store.entries, reply)
  {
    var prefs := store.GetUserPrefs(uid, env.storeGetFails);
    var parsed := ParseSet(raw);
    if parsed.None? {
      return SetUsage;
    }
    var args := parsed.value;
    var result := ApplySet(prefs, args.param, args.value, env.findSpeaker, env.parseFloat);
    match result
    case Rejected(err) =>
      return SetRejected(err);
    case Updated(p) =>
      var ok := store.SetUserPrefs(uid, p, env.storeSetFails);
      if !ok {
        return SaveFailed;
      }
      if AxisOf(args.param) == Some(SpeakerAxis) {
        return SpeakerSet(p.speaker.value);
      }
      return ValueSet(args.param, ConfirmedValue(AxisOf(args.param).value, p));
  }

  /** `handleGetPrefs`: nothing stored (or the read failed) gives the hint to set
      something; otherwise the values the next synthesis would use are shown. */
  ghost predicate PrefsGot(uid: string, cfg: Config, entries: map<string, PrefRecord>, storeGetFails: bool, reply: Reply) {
    && (storeGetFails ==> reply == NoPrefsYet)
    && (!storeGetFails && IsEmpty(Stored(entries, uid)) ==> reply == NoPrefsYet)
    && (!storeGetFails && !IsEmpty(Stored(entries, uid)) ==> reply == PrefsShown(Resolve(Stored(entries, uid), cfg)))
  }

  method HandleGetPrefs(uid: string, cfg: Config, store: PrefStore, storeGetFails: bool) returns (reply: Reply)
    ensures PrefsGot(uid, cfg, store.entries, storeGetFails, reply)
  {
    var prefs := store.GetUserPrefs(uid, storeGetFails);
    if IsEmpty(prefs) {
      return NoPrefsYet;
    }
    return PrefsShown(Resolve(prefs, cfg));
  }

  /** `handleResetPrefs`: the user's record is deleted, unless the delete fails. */
  ghost predicate PrefsReset(uid: string, storeDelFails: bool,
                             before: map<string, PrefRecord>, after: map<string, PrefRecord>, reply: Reply) {
    && (storeDelFails ==> reply == ResetFailed && after == before)
    && (!storeDelFails ==> reply == ResetDone && after == before - {PrefKey(uid)})
  }

  method HandleResetPrefs(uid: string, store: PrefStore, storeDelFails: bool) returns (reply: Reply)
    modifies store
    ensures PrefsReset(uid, storeDelFails, old(store.entries), store.entries, reply)
  {
    var ok := store.DelUserPrefs(uid, storeDelFails);
    reply := if ok then ResetDone else ResetFailed;
  }

  // ---------------------------------------------------------------------------
  // Synthesis

  /** The parameters of a synthesis: the cascade over the user's record and the
      configuration, with the speaker replaced when the text names one first. */
  function RequestFor(prefs: PrefRecord, cfg: Config, content: string, findSpeaker: string -> Option<int>): SynthesisRequest
    requires HasApiKey(cfg)
  {
    var params := Resolve(prefs, cfg);
    var (speaker, text) := SpeakerOverride(content, findSpeaker);
    SynthesisRequest(BaseUrl(cfg), cfg.apiKey.value,
                     if speaker.Some? then params.(speaker := speaker.value) else params, text)
  }

  /** What `#vv` shows under `get` is what a synthesis without a leading speaker word
      sends: both read the same record through the same cascade. */
  lemma {:induction false} ShownIsSent(prefs: PrefRecord, cfg: Config, content: string, findSpeaker: string -> Option<int>)
    requires HasApiKey(cfg)
    requires SpeakerOverride(content, findSpeaker).0.None?
    ensures RequestFor(prefs, cfg, content, findSpeaker).params == Resolve(prefs, cfg)
    ensures RequestFor(prefs, cfg, content, findSpeaker).text == content
  {
  }

  /** A leading speaker word changes only the speaker: pitch, intonation and speed still
      come from the cascade. */
  lemma OverrideTouchesOnlySpeaker(prefs: PrefRecord, cfg: Config, content: string, findSpeaker: string -> Option<int>)
    requires HasApiKey(cfg)
    requires SpeakerOverride(content, findSpeaker).0.Some?
    ensures RequestFor(prefs, cfg, content, findSpeaker).params ==
      Resolve(prefs, cfg).(speaker := SpeakerOverride(content, findSpeaker).0.value)
  {
  }

  /** The effects that follow a delivery: each tier tried, then the voice reply, or the
      general error reply when the last tier failed too. */
  function DeliveryEffects(attempts: seq<Tier>, delivered: bool): (es: seq<Effect>)
    requires attempts != []
    ensures |es| == |attempts| + 1 && es[|es| - 1].Say?
    ensures forall i :: 0 <= i < |attempts| ==> es[i] == Upload(attempts[i])
    ensures es[|es| - 1] == Say(InternalError) <==> !delivered
  {
    Uploads(attempts) + [Say(if delivered then Voice(attempts[|attempts| - 1]) else InternalError)]
  }

  function Uploads(attempts: seq<Tier>): (es: seq<Effect>)
    ensures |es| == |attempts| && forall i :: 0 <= i < |attempts| ==> es[i] == Upload(attempts[i])
  {
    if attempts == [] then [] else [Upload(attempts[0])] + Uploads(attempts[1..])
  }

  /** The synthesis path of `tts` once the user's record `prefs` is read: empty text gets
      the usage reply, a missing key the key hint, and otherwise the request is announced,
      sent, and its answer reported or delivered. `before` and `after` are the files on
      disk around it. */
  ghost predicate Synthesized(prefs: PrefRecord, cfg: Config, content: string, env: Env,
                              before: set<string>, after: set<string>, effects: seq<Effect>) {
    && (content == [] ==> effects == [Say(SpeakUsage)] && after == before)
    && (content != [] && !HasApiKey(cfg) ==> effects == [Say(NeedApiKey)] && after == before)
    && (content != [] && HasApiKey(cfg) ==>
          var req := RequestFor(prefs, cfg, content, env.findSpeaker);
          && |effects| >= 3 && effects[0] == Say(Synthesizing) && effects[1] == Fetch(req)
          && Reported(env.fetch(req), env.delivery, before, after, effects[2..]))
  }

  /** What follows the request: the reply for each outcome of `fetch`, or, for audio, one
      upload per tier tried and then the voice reply, or the general error exactly when no
      tier succeeded. Only the delivery of audio touches the disk. */
  ghost predicate Reported(resp: Option<Response>, delivery: DeliveryEnv,
                           before: set<string>, after: set<string>, tail: seq<Effect>) {
    && (!(resp.Some? && Classify(resp.value).AudioReady?) ==> after == before)
    && (resp.None? ==> tail == [Say(InternalError)])
    && (resp.Some? && Classify(resp.value).TransportError? ==>
          tail == [Say(SynthesisFailed(resp.value.status, Classify(resp.value).text))])
    && (resp.Some? && Classify(resp.value).ApiError? ==> tail == [Say(ApiFailed(Classify(resp.value).tip))])
    && (resp.Some? && Classify(resp.value).BodyUnreadable? ==> tail == [Say(InternalError)])
    && (resp.Some? && Classify(resp.value).AudioReady? ==>
          && tail == DeliveryEffects(Attempts(delivery), Delivered(delivery))
          && tail[0] == Upload(UploadUrl)
          && (tail[|tail| - 1] == Say(InternalError) <==> !Delivered(delivery))
          && after == DiskAfter(delivery, before))
  }

  method Synthesize(prefs: PrefRecord, cfg: Config, content: string, disk: Disk, env: Env) returns (effects: seq<Effect>)
    modifies disk
    ensures effects != [] && effects[|effects| - 1].Say?
    ensures forall i :: 0 <= i < |effects| && effects[i].Fetch? ==>
      i == 1 && HasApiKey(cfg) && effects[0] == Say(Synthesizing)
    ensures disk.files != old(disk.files) ==> content != [] && HasApiKey(cfg)
    ensures Synthesized(prefs, cfg, content, env, old(disk.files), disk.files, effects)
  {
    if content == [] {
      return [Say(SpeakUsage)];
    }
    if !HasApiKey(cfg) {
      return [Say(NeedApiKey)];
    }
    var req := RequestFor(prefs, cfg, content, env.findSpeaker);
    var tail := Report(env.fetch(req), disk, env.delivery);
    effects := [Say(Synthesizing), Fetch(req)] + tail;
    assert effects[2..] == tail;
    forall i | 2 <= i < |effects| ensures !effects[i].Fetch? {
      assert effects[i] == tail[i - 2];
    }
  }

  method Report(resp: Option<Response>, disk: Disk, delivery: DeliveryEnv) returns (tail: seq<Effect>)
    modifies disk
    ensures tail != [] && tail[|tail| - 1].Say?
    ensures forall i :: 0 <= i < |tail| ==> !tail[i].Fetch?
    ensures Reported(resp, delivery, old(disk.files), disk.files, tail)
  {
    if resp.None? {
      return [Say(InternalError)];
    }
    var outcome := Classify(resp.value);
    match outcome
    case TransportError(status, text) =>
      tail := [Say(SynthesisFailed(status, text))];
    case BodyUnreadable =>
      tail := [Say(InternalError)];
    case ApiError(tip) =>
      tail := [Say(ApiFailed(tip))];
    case AudioReady =>
      var attempts, delivered := Deliver(delivery, disk);
      tail := DeliveryEffects(attempts, delivered);
  }

  // ---------------------------------------------------------------------------
  // The handler

  /** Runs one routed command with the configuration `cfg` read from `file`. */
  method Run(ev: Event, cfg: Config, raw: string, cmd: Command, file: ConfigFile, store: PrefStore, disk: Disk, env: Env)
    returns (effects: seq<Effect>)
    modifies file, store, disk
    requires cmd != NotMine
    requires cmd.SetPrefs? ==> raw == Trim(ev.msg)
    ensures effects != [] && effects[|effects| - 1].Say?
    ensures file.doc != old(file.doc) ==>
      ev.isMaster && cmd.SetKey? && file.doc == Some(cfg.(apiKey := Some(cmd.key)))
    ensures store.entries != old(store.entries) ==> cmd == SetPrefs || cmd == ResetPrefs
    ensures disk.files != old(disk.files) ==> cmd.Speak?
    ensures forall i :: 0 <= i < |effects| && effects[i].Fetch? ==>
      HasApiKey(cfg) && i == 1 && effects[0] == Say(Synthesizing)
    ensures cmd.Speak? && cmd.content != [] && HasApiKey(cfg) ==>
      var prefs := if env.storeGetFails then NoPrefs else Stored(old(store.entries), UserIdOf(ev));
      |effects| >= 2 && effects[1] == Fetch(RequestFor(prefs, cfg, cmd.content, env.findSpeaker))
    ensures cmd.Speak? ==>
      var prefs := if env.storeGetFails then NoPrefs else Stored(old(store.entries), UserIdOf(ev));
      Synthesized(prefs, cfg, cmd.content, env, old(disk.files), disk.files, effects)
    ensures !cmd.Speak? ==>
      && |effects| == 1 && effects[0].Say?
      && Answered(ev, cfg, raw, cmd, env, old(file.doc), file.doc, old(store.entries), store.entries, effects[0].reply)
  {
    // `Speak`'s and `Answer`'s contracts carry everything stated here.
    hide *;
    if cmd.Speak? {
      effects := Speak(UserIdOf(ev), cfg, cmd.content, store, disk, env);
    } else {
      var reply := Answer(ev, cfg, raw, cmd, file, store, env);
      effects := [Say(reply)];
    }
  }

  /** `#vv <text>`: the user's record is read, then the text is synthesised with it. */
  method Speak(uid: string, cfg: Config, content: string, store: PrefStore, disk: Disk, env: Env)
    returns (effects: seq<Effect>)
    modifies disk
    ensures effects != [] && effects[|effects| - 1].Say?
    ensures forall i :: 0 <= i < |effects| && effects[i].Fetch? ==>
      HasApiKey(cfg) && i == 1 && effects[0] == Say(Synthesizing)
    ensures content != [] && HasApiKey(cfg) ==>
      var prefs := if env.storeGetFails then NoPrefs else Stored(store.entries, uid);
      |effects| >= 2 && effects[1] == Fetch(RequestFor(prefs, cfg, content, env.findSpeaker))
    ensures Synthesized(if env.storeGetFails then NoPrefs else Stored(store.entries, uid),
                        cfg, content, env, old(disk.files), disk.files, effects)
  {
    var prefs := store.GetUserPrefs(uid, env.storeGetFails);
    effects := Synthesize(prefs, cfg, content, disk, env);
  }

  /** The sub-commands other than speech, each answered by one reply as its handler
      states it; `setkey` changes only the configuration document, `set` and `reset` only
      the store's entries, and `get` and `list` neither. */
  ghost predicate Answered(ev: Event, cfg: Config, raw: string, cmd: Command, env: Env,
                           docBefore: Option<Config>, docAfter: Option<Config>,
                           before: map<string, PrefRecord>, after: map<string, PrefRecord>, reply: Reply) {
    var uid := UserIdOf(ev);
    match cmd
    case SetKey(key) => KeySet(ev, cfg, key, env.configWriteFails, docBefore, docAfter, reply) && after == before
    case SetPrefs => PrefsSet(uid, raw, env, before, after, reply) && docAfter == docBefore
    case GetPrefs => PrefsGot(uid, cfg, before, env.storeGetFails, reply) && after == before && docAfter == docBefore
    case ResetPrefs => PrefsReset(uid, env.storeDelFails, before, after, reply) && docAfter == docBefore
    case ListSpeakers(term) =>
      && reply.Listing? && Listed(env.speakers, term, env.toLower, reply.list)
      && after == before && docAfter == docBefore
    case NotMine => false
    case Speak(_) => false
  }

  method Answer(ev: Event, cfg: Config, raw: string, cmd: Command, file: ConfigFile, store: PrefStore, env: Env)
    returns (reply: Reply)
    modifies file, store
    requires cmd != NotMine && !cmd.Speak?
    requires cmd.SetPrefs? ==> raw == Trim(ev.msg)
    ensures file.doc != old(file.doc) ==>
      ev.isMaster && cmd.SetKey? && file.doc == Some(cfg.(apiKey := Some(cmd.key)))
    ensures store.entries != old(store.entries) ==> cmd == SetPrefs || cmd == ResetPrefs
    ensures Answered(ev, cfg, raw, cmd, env, old(file.doc), file.doc, old(store.entries), store.entries, reply)
  {
    var uid := UserIdOf(ev);
    match cmd
    case SetKey(key) =>
      reply := HandleSetKey(ev, cfg, key, file, env.configWriteFails);
    case SetPrefs =>
      reply := HandleSetPrefs(uid, raw, store, env);
    case GetPrefs =>
      reply := HandleGetPrefs(uid, cfg, store, env.storeGetFails);
    case ResetPrefs =>
      reply := HandleResetPrefs(uid, store, env.storeDelFails);
    case ListSpeakers(term) =>
      var listing := HandleSpeakerList(env.speakers, term, env.toLower);
      reply := Listing(listing);
  }

  /** `tts`. `handled` is false only when the message does not start with the configured
      prefix. Every handled message ends with a reply; only a master's `setkey` changes the
      configuration file, only `set` and `reset` change the store, and only a synthesis
      whose audio is delivered through the temporary file touches the disk. */
  method Tts(ev: Event, file: ConfigFile, store: PrefStore, disk: Disk, env: Env) returns (handled: bool, effects: seq<Effect>)
    modifies file, store, disk
    ensures old(file.doc).None? ==> handled && effects == [Say(InternalError)]
    ensures old(file.doc).Some? ==> (!handled <==> CommandOf(ev, old(file.doc).value) == NotMine)
    ensures !handled ==> effects == []
    ensures handled ==> effects != [] && effects[|effects| - 1].Say?
    ensures file.doc != old(file.doc) ==>
      && old(file.doc).Some?
      && ev.isMaster
      && CommandOf(ev, old(file.doc).value).SetKey?
      && file.doc == Some(old(file.doc).value.(apiKey := Some(CommandOf(ev, old(file.doc).value).key)))
    ensures store.entries != old(store.entries) ==>
      old(file.doc).Some? && CommandOf(ev, old(file.doc).value) in {SetPrefs, ResetPrefs}
    ensures disk.files != old(disk.files) ==> old(file.doc).Some? && CommandOf(ev, old(file.doc).value).Speak?
    ensures forall i :: 0 <= i < |effects| && effects[i].Fetch? ==>
      old(file.doc).Some? && HasApiKey(old(file.doc).value) && i == 1 && effects[0] == Say(Synthesizing)
    ensures old(file.doc).Some? ==>
      var cfg := old(file.doc).value;
      var cmd := CommandOf(ev, cfg);
      var prefs := if env.storeGetFails then NoPrefs else Stored(old(store.entries), UserIdOf(ev));
      cmd.Speak? && cmd.content != [] && HasApiKey(cfg) ==>
        |effects| >= 2 && effects[1] == Fetch(RequestFor(prefs, cfg, cmd.content, env.findSpeaker))
    ensures old(file.doc).Some? && CommandOf(ev, old(file.doc).value).Speak? ==>
      var prefs := if env.storeGetFails then NoPrefs else Stored(old(store.entries), UserIdOf(ev));
      Synthesized(prefs, old(file.doc).value, CommandOf(ev, old(file.doc).value).content, env,
                  old(disk.files), disk.files, effects)
    ensures old(file.doc).Some? && CommandOf(ev, old(file.doc).value) != NotMine
            && !CommandOf(ev, old(file.doc).value).Speak? ==>
      && |effects| == 1 && effects[0].Say?
      && Answered(ev, old(file.doc).value, Trim(ev.msg), CommandOf(ev, old(file.doc).value), env,
                  old(file.doc), file.doc, old(store.entries), store.entries, effects[0].reply)
  {
    // Everything below follows from `Run`'s contract as stated; the definitions behind it
    // are not needed here.
    hide *;
    if file.doc.None? {
      return true, [Say(InternalError)];
    }
    var cfg := file.doc.value;
    var raw := Trim(ev.msg);
    var cmd := CommandOf(ev, cfg);
    if cmd == NotMine {
      return false, [];
    }
    effects := Run(ev, cfg, raw, cmd, file, store, disk, env);
    handled := true;
  }

  /** The command a message carries under a configuration. */
  function CommandOf(ev: Event, cfg: Config): Command {
    Route(Trim(ev.msg), Prefix(cfg))
  }
}
