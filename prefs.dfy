/**
 * Per-user synthesis preferences: the stored record, the `??` cascade that turns stored
 * preferences and the configuration into synthesis parameters, the key-value store that
 * holds one record per user and can fail, and the validation of `#vv set <param> <value>`.
 */
module Preferences {
  import opened Wrappers
  import opened JsString

  /** The stored preference object. A field that was never set is `None`; the record
      with every field `None` is the empty object `{}`. */
  datatype PrefRecord = PrefRecord(
    speaker: Option<int>,
    pitch: Option<real>,
    speed: Option<real>,
    intonationScale: Option<real>)

  const NoPrefs := PrefRecord(None, None, None, None)

  /** `Object.keys(userPrefs).length === 0`. */
  predicate IsEmpty(prefs: PrefRecord) {
    prefs == NoPrefs
  }

  /** The fields of the plugin configuration file the core reads. A missing or `null`
      entry is `None`. */
  datatype Config = Config(
    apiKey: Option<string>,
    baseUrl: Option<string>,
    command: Option<string>,
    speaker: Option<int>,
    pitch: Option<real>,
    speed: Option<real>,
    intonationScale: Option<real>)

  // ---------------------------------------------------------------------------
  // The `??` cascade

  /** `a ?? b ?? ... ?? default`: the first tier that is present, else the default. */
  function Cascade<T>(tiers: seq<Option<T>>, default: T): (r: T)
    ensures (forall i :: 0 <= i < |tiers| ==> tiers[i].None?) ==> r == default
    ensures forall i :: 0 <= i < |tiers| && tiers[i].Some? && (forall j :: 0 <= j < i ==> tiers[j].None?) ==>
      r == tiers[i].value
  {
    if tiers == [] then default
    else if tiers[0].Some? then tiers[0].value
    else
      var r := Cascade(tiers[1..], default);
      assert forall i :: 1 <= i < |tiers| ==> tiers[i] == tiers[1..][i - 1];
      r
  }

  /** The parameters one synthesis request carries. */
  datatype Params = Params(speaker: int, pitch: real, intonationScale: real, speed: real)

  /** Stored preference, then configuration, then the built-in default (speaker 0,
      pitch 0, intonation 1, speed 1), axis by axis. */
  function Resolve(prefs: PrefRecord, cfg: Config): Params {
    Params(
      Cascade([prefs.speaker, cfg.speaker], 0),
      Cascade([prefs.pitch, cfg.pitch], 0.0),
      Cascade([prefs.intonationScale, cfg.intonationScale], 1.0),
      Cascade([prefs.speed, cfg.speed], 1.0))
  }

  /** A stored value wins on its axis even when it is zero (`??` rather than `||`); an
      unset axis falls back to the configuration, and then to the default. */
  lemma {:induction false} ResolvePrecedence(prefs: PrefRecord, cfg: Config)
    ensures prefs.speaker.Some? ==> Resolve(prefs, cfg).speaker == prefs.speaker.value
    ensures prefs.pitch.Some? ==> Resolve(prefs, cfg).pitch == prefs.pitch.value
    ensures prefs.speed.Some? ==> Resolve(prefs, cfg).speed == prefs.speed.value
    ensures prefs.intonationScale.Some? ==> Resolve(prefs, cfg).intonationScale == prefs.intonationScale.value
    ensures prefs.speaker.None? ==> Resolve(prefs, cfg).speaker == cfg.speaker.GetOr(0)
    ensures prefs.pitch.None? ==> Resolve(prefs, cfg).pitch == cfg.pitch.GetOr(0.0)
    ensures prefs.speed.None? ==> Resolve(prefs, cfg).speed == cfg.speed.GetOr(1.0)
    ensures prefs.intonationScale.None? ==> Resolve(prefs, cfg).intonationScale == cfg.intonationScale.GetOr(1.0)
  {
    CascadeOfTwo(prefs.speaker, cfg.speaker, 0);
    CascadeOfTwo(prefs.pitch, cfg.pitch, 0.0);
    CascadeOfTwo(prefs.speed, cfg.speed, 1.0);
    CascadeOfTwo(prefs.intonationScale, cfg.intonationScale, 1.0);
  }

  lemma CascadeOfTwo<T>(a: Option<T>, b: Option<T>, default: T)
    ensures Cascade([a, b], default) == if a.Some? then a.value else b.GetOr(default)
  {
    var tiers := [a, b];
    if a.None? && b.Some? {
      assert tiers[0].None? && tiers[1].Some?;
    }
  }

  // ---------------------------------------------------------------------------
  // The store

  /** `getUserPrefKey`. */
  function PrefKey(userId: string): (key: string)
    ensures |key| == |userId| + 20
    ensures StartsWith(key, "voicevox:user:") && key[14..14 + |userId|] == userId && key[14 + |userId|..] == ":prefs"
  {
    "voicevox:user:" + userId + ":prefs"
  }

  /** Distinct users have distinct keys, so no user's record can shadow another's. */
  lemma PrefKeyInjective(a: string, b: string)
    requires PrefKey(a) == PrefKey(b)
    ensures a == b
  {
    assert a == PrefKey(a)[14..14 + |a|];
    assert b == PrefKey(b)[14..14 + |b|];
  }

  /** What a successful read returns: the stored record, or `{}` when nothing is stored. */
  function Stored(entries: map<string, PrefRecord>, userId: string): PrefRecord {
    var key := PrefKey(userId);
    if key in entries then entries[key] else NoPrefs
  }

  /** Writing one user's record leaves every other user's record as it was. */
  lemma OtherUsersUnaffected(entries: map<string, PrefRecord>, writer: string, reader: string, prefs: PrefRecord)
    requires writer != reader
    ensures Stored(entries[PrefKey(writer) := prefs], reader) == Stored(entries, reader)
  {
    if PrefKey(writer) == PrefKey(reader) {
      PrefKeyInjective(writer, reader);
      assert false;
    }
  }

  /** The key-value store, keyed by `PrefKey`. A fault stands for the store raising an
      error (or holding text that does not parse); the faults are chosen by the caller. */
  class PrefStore {
    var entries: map<string, PrefRecord>

    constructor(initial: map<string, PrefRecord>)
      ensures entries == initial
    {
      entries := initial;
    }

    /** `getUserPrefs`: the stored record, or `{}` when nothing is stored or the read fails. */
    method GetUserPrefs(userId: string, fault: bool) returns (prefs: PrefRecord)
      ensures fault ==> prefs == NoPrefs
      ensures !fault ==> prefs == Stored(entries, userId)
    {
      if fault {
        return NoPrefs;
      }
      var key := PrefKey(userId);
      if key in entries {
        prefs := entries[key];
      } else {
        prefs := NoPrefs;
      }
    }

    /** `setUserPrefs`: replaces the user's whole record; reports whether it succeeded. */
    method SetUserPrefs(userId: string, prefs: PrefRecord, fault: bool) returns (ok: bool)
      modifies this
      ensures ok == !fault
      ensures ok ==> entries == old(entries)[PrefKey(userId) := prefs]
      ensures !ok ==> entries == old(entries)
    {
      if fault {
        return false;
      }
      entries := entries[PrefKey(userId) := prefs];
      return true;
    }

    /** The delete of `handleResetPrefs`. */
    method DelUserPrefs(userId: string, fault: bool) returns (ok: bool)
      modifies this
      ensures ok == !fault
      ensures ok ==> entries == old(entries) - {PrefKey(userId)}
      ensures !ok ==> entries == old(entries)
    {
      if fault {
        return false;
      }
      entries := entries - {PrefKey(userId)};
      return true;
    }
  }

  /** After a reset the user reads `{}` and therefore synthesizes with the configuration. */
  lemma ResetRestoresConfig(entries: map<string, PrefRecord>, userId: string, cfg: Config)
    ensures Stored(entries - {PrefKey(userId)}, userId) == NoPrefs
    ensures Resolve(Stored(entries - {PrefKey(userId)}, userId), cfg) ==
      Params(cfg.speaker.GetOr(0), cfg.pitch.GetOr(0.0), cfg.intonationScale.GetOr(1.0), cfg.speed.GetOr(1.0))
  {
    ResolvePrecedence(NoPrefs, cfg);
  }

  // ---------------------------------------------------------------------------
  // `#vv set <param> <value>`

  /** ASCII upper case to lower case; `(\w+)` only captures ASCII, so this is
      `toLowerCase` on every parameter name the command can carry. */
  function LowerAscii(s: string): (r: string)
    ensures |r| == |s|
    ensures forall k :: 0 <= k < |s| ==> r[k] == if 'A' <= s[k] <= 'Z' then (s[k] as int + 32) as char else s[k]
  {
    if |s| == 0 then []
    else
      var c := s[0];
      [if 'A' <= c <= 'Z' then (c as int + 32) as char else c] + LowerAscii(s[1..])
  }

  /** The preference a parameter name designates, whatever its case. */
  datatype Axis = SpeakerAxis | PitchAxis | SpeedAxis | IntonationAxis

  function AxisOf(param: string): Option<Axis> {
    var p := LowerAscii(param);
    if p == "speaker" then Some(SpeakerAxis)
    else if p == "pitch" then Some(PitchAxis)
    else if p == "speed" then Some(SpeedAxis)
    else if p == "intonation" then Some(IntonationAxis)
    else None
  }

  /** Why a `set` is refused, one case per usage reply. */
  datatype SetError = SpeakerNotFound(value: string) | PitchNotNumber | SpeedNotPositive
                    | IntonationNotPositive | UnknownParam

  datatype SetResult = Updated(prefs: PrefRecord) | Rejected(error: SetError)

  /** The validation switch of `handleSetPrefs`. `findSpeaker` resolves a name or id;
      `parseFloat` returns `None` for NaN. */
  function ApplySet(prefs: PrefRecord, param: string, value: string,
                    findSpeaker: string -> Option<int>, parseFloat: string -> Option<real>): (r: SetResult)
    ensures AxisOf(param).None? ==> r == Rejected(UnknownParam)
    ensures r.Updated? ==> AxisOf(param).Some?
    ensures AxisOf(param) == Some(SpeakerAxis) ==> (r.Updated? <==> findSpeaker(value).Some?)
    ensures AxisOf(param) == Some(PitchAxis) ==> (r.Updated? <==> parseFloat(value).Some?)
    ensures AxisOf(param) == Some(SpeedAxis) ==>
      (r.Updated? <==> parseFloat(value).Some? && parseFloat(value).value > 0.0)
    ensures AxisOf(param) == Some(IntonationAxis) ==>
      (r.Updated? <==> parseFloat(value).Some? && parseFloat(value).value > 0.0)
  {
    match AxisOf(param)
    case None => Rejected(UnknownParam)
    case Some(SpeakerAxis) =>
      var id := findSpeaker(value);
      if id.None? then Rejected(SpeakerNotFound(value)) else Updated(prefs.(speaker := id))
    case Some(PitchAxis) =>
      var v := parseFloat(value);
      if v.None? then Rejected(PitchNotNumber) else Updated(prefs.(pitch := v))
    case Some(SpeedAxis) =>
      var v := parseFloat(value);
      if v.None? || v.value <= 0.0 then Rejected(SpeedNotPositive) else Updated(prefs.(speed := v))
    case Some(IntonationAxis) =>
      var v := parseFloat(value);
      if v.None? || v.value <= 0.0 then Rejected(IntonationNotPositive) else Updated(prefs.(intonationScale := v))
  }

  /** The value a parameter name selects in the resolved parameters. */
  function ResolvedOn(p: Params, axis: Axis): real {
    match axis
    case SpeakerAxis => p.speaker as real
    case PitchAxis => p.pitch
    case SpeedAxis => p.speed
    case IntonationAxis => p.intonationScale
  }

  /** An accepted `set` takes effect on the next synthesis: the new value is what the
      cascade resolves on its axis, whatever the configuration says, and every other
      axis resolves as it did before. */
  lemma {:induction false} SetTakesEffect(prefs: PrefRecord, param: string, value: string,
                                          findSpeaker: string -> Option<int>, parseFloat: string -> Option<real>,
                                          cfg: Config)
    requires ApplySet(prefs, param, value, findSpeaker, parseFloat).Updated?
    ensures var after := Resolve(ApplySet(prefs, param, value, findSpeaker, parseFloat).prefs, cfg);
      var before := Resolve(prefs, cfg);
      var axis := AxisOf(param).value;
      && (axis == SpeakerAxis ==> after == before.(speaker := findSpeaker(value).value))
      && (axis == PitchAxis ==> after == before.(pitch := parseFloat(value).value))
      && (axis == SpeedAxis ==> after == before.(speed := parseFloat(value).value))
      && (axis == IntonationAxis ==> after == before.(intonationScale := parseFloat(value).value))
  {
    var updated := ApplySet(prefs, param, value, findSpeaker, parseFloat).prefs;
    ResolvePrecedence(prefs, cfg);
    ResolvePrecedence(updated, cfg);
  }

  /** The handler reads the record before it writes it back whole, and a failed read
      counts as `{}`: after a failed read, a successful `set` keeps only the new field
      and drops the others the user had stored. */
  lemma {:induction false} ReadFaultDropsOtherFields(param: string, value: string,
                                                     findSpeaker: string -> Option<int>, parseFloat: string -> Option<real>)
    requires ApplySet(NoPrefs, param, value, findSpeaker, parseFloat).Updated?
    ensures var kept := ApplySet(NoPrefs, param, value, findSpeaker, parseFloat).prefs;
      FieldsSet(kept) == {AxisOf(param).value}
  {
    var kept := ApplySet(NoPrefs, param, value, findSpeaker, parseFloat).prefs;
    match AxisOf(param).value
    case SpeakerAxis => assert FieldsSet(kept) == {SpeakerAxis};
    case PitchAxis => assert FieldsSet(kept) == {PitchAxis};
    case SpeedAxis => assert FieldsSet(kept) == {SpeedAxis};
    case IntonationAxis => assert FieldsSet(kept) == {IntonationAxis};
  }

  /** The axes a record sets (`Object.keys`). */
  function FieldsSet(prefs: PrefRecord): set<Axis> {
    (if prefs.speaker.Some? then {SpeakerAxis} else {}) +
    (if prefs.pitch.Some? then {PitchAxis} else {}) +
    (if prefs.speed.Some? then {SpeedAxis} else {}) +
    (if prefs.intonationScale.Some? then {IntonationAxis} else {})
  }

  // ---------------------------------------------------------------------------
  // The confirmation reply

  /** The value the success reply of `set` echoes as written: it looks the field up
      under the parameter name exactly as typed (except the literal `intonation`), so
      `undefined` (`None`) is echoed for a name typed in another case. */
  function ConfirmedValueAsWritten(param: string, prefs: PrefRecord): Option<real> {
    if param == "intonation" then prefs.intonationScale
    else if param == "pitch" then prefs.pitch
    else if param == "speed" then prefs.speed
    else None
  }

  /** The evidently intended echo: the field the lower-cased name designates. */
  function ConfirmedValue(axis: Axis, prefs: PrefRecord): Option<real> {
    match axis
    case SpeakerAxis => if prefs.speaker.Some? then Some(prefs.speaker.value as real) else None
    case PitchAxis => prefs.pitch
    case SpeedAxis => prefs.speed
    case IntonationAxis => prefs.intonationScale
  }

  /** With the corrected echo, an accepted numeric `set` always confirms the value it
      stored. */
  lemma ConfirmationEchoesStoredValue(prefs: PrefRecord, param: string, value: string,
                                      findSpeaker: string -> Option<int>, parseFloat: string -> Option<real>)
    requires ApplySet(prefs, param, value, findSpeaker, parseFloat).Updated?
    requires AxisOf(param) != Some(SpeakerAxis)
    ensures ConfirmedValue(AxisOf(param).value, ApplySet(prefs, param, value, findSpeaker, parseFloat).prefs)
      == parseFloat(value)
  {
  }

  /** As written, `#vv set PITCH 3` stores pitch 3 and then echoes `undefined`. */
  lemma UpperCaseParamEchoesUndefined(prefs: PrefRecord, findSpeaker: string -> Option<int>,
                                      parseFloat: string -> Option<real>)
    requires parseFloat("3") == Some(3.0)
    ensures ApplySet(prefs, "PITCH", "3", findSpeaker, parseFloat) == Updated(prefs.(pitch := Some(3.0)))
    ensures ConfirmedValueAsWritten("PITCH", prefs.(pitch := Some(3.0))) == None
  {
    assert LowerAscii("PITCH") == "pitch";
  }
}
