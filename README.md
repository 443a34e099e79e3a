# voicevox-plugin, modelled in Dafny

A chat-bot plugin that turns `#vv` commands into speech.

**What it does.** A message is routed to one of six sub-commands:
- `setkey`, which stores the API key (for the master only);
- `set`, `get` and `reset`, which edit per-user voice preferences kept in a key-value store;
- `list`, which filters or groups the speaker catalogue;
- bare text, which is spoken.

To speak, the plugin:
- resolves the four voice parameters: user preference, then configuration, then a built-in default;
- lets a leading speaker token override the speaker;
- calls the VoiceVox web service and classifies its answer as a transport error, an error tip, or audio;
- delivers the audio through three fallback tiers, the last of which goes through a temporary file.

**Other parts.**
- A Chinese-to-katakana transliterator:
  - splits text into Han and non-Han runs;
  - converts Han characters one at a time through a lookup service, keeping a character whose lookup fails;
  - decodes `\uXXXX` escapes in the service's answers.
- The help screen:
  - picks its list and settings from the user's or the system configuration;
  - hides master-only groups from other senders;
  - computes each item's sprite cell from its icon number.

**How it is modelled.**
- Imperative code stays imperative:
  - the handlers are methods over small classes (`PrefStore`, `ConfigFile`, `Disk`, `HelpItem`);
  - the loops of the source (segmentation, conversion, grouping, the capped overview, the help loops) are `while`/`for` loops with invariants.
- Pure code becomes functions with lemmas.
- Collaborators the code calls but does not define are parameters of type `Env`:
  - `findSpeaker`, `parseFloat`, `fetch`, the transliteration lookup and the speaker filter's `toLowerCase` are passed as functions (the `set` parameter names are lower-cased by `Preferences.LowerAscii`, which is modelled);
  - each store, file or upload failure is passed as a flag.

**Where the code's behaviour is surprising, the model follows the code** (the handlers use the corrected behaviour only for the two defects under "Findings"; see "Left out"):
- The temporary audio file is removed only when `unlinkSync` succeeds. A `writeFileSync` that raises after creating the file leaves it behind, because the `try`/`finally` starts after the write (`Delivery.Deliver`).
- A spoken message gets two replies, "synthesising" and then the result.
- An unknown error body is echoed verbatim, and an empty one gets its own reply.
- When reading a failed response's body raises, the error reaches the generic handler.
- The grouped speaker overview is ordered by each group's first member in catalogue order, not by its smallest id.
- The sub-command patterns always use `#vv`, even when another prefix is configured (`Dispatch.OtherPrefixOnlySpeaks`).
- Nothing routes text through the transliterator.

## Model

| member | source | states |
|---|---|---|
| JsString.Trim | apps/voicevox.js:79 | `String.prototype.trim` over the JavaScript white-space set: the result has no white space at either end |
| JsString.TrimSpec | apps/voicevox.js:79 | the trimmed text is one slice of the input, and everything cut before and after it is white space |
| JsString.TrimIdentity | apps/voicevox.js:79 | trimming text that is already trimmed changes nothing |
| JsString.TrimKeepsNonWs | apps/voicevox.js:85-86 | text holding any non-white-space character does not trim to empty |
| JsString.Includes | apps/voicevox.js:157 | `includes` holds iff the needle occurs at some position |
| JsString.SplitTrimmedIsWords | apps/voicevox.js:128 | `split(/\s+/)` of non-empty trimmed text yields non-empty tokens free of white space |
| JsString.SplitJoinRoundTrip | apps/voicevox.js:133 | splitting the single-space join of such tokens gives the tokens back |
| JsString.IntToStringRoundTrip | apps/voicevox.js:313 | reading a printed integer back (optional minus sign, then digits) gives the integer |
| JsString.IntToStringInjective | apps/voicevox.js:313 | distinct ids print differently, so `id.toString() === term` matches one id |
| ChineseConverter.ContainsChinese | model/chineseConverter.js:13-20 | true iff some character lies in U+4E00–9FFF, U+3400–4DBF or U+F900–FAFF |
| ChineseConverter.HanIsNotWs | model/chineseConverter.js:18 | no Han character is white space, so trimming never removes one |
| ChineseConverter.RunsPartition | model/chineseConverter.js:36-63 | the runs concatenate to the input; each is non-empty and uniform; neighbours differ in class |
| ChineseConverter.RunPartitionUnique | model/chineseConverter.js:36-63 | any partition with those three properties is exactly the run split |
| ChineseConverter.SplitSegments | model/chineseConverter.js:36-63 | the segmentation loop returns the run split of its input, which partitions it exactly |
| ChineseConverter.DecodeUnicodeEscapes | model/chineseConverter.js:160-170 | decoding never lengthens the text |
| ChineseConverter.DecodeWithoutEscapes | model/chineseConverter.js:160-170 | text without a `\uXXXX` escape is returned unchanged |
| ChineseConverter.DecodeEscapeAll | model/chineseConverter.js:163-165 | decoding the escaped form of any BMP text gives that text back |
| ChineseConverter.DecodeEscapeAfter | model/chineseConverter.js:163-165 | in mixed text, an escape after text in which no escape starts becomes the one character it names, the text before it is kept, and decoding carries on after it |
| ChineseConverter.PieceCases | model/chineseConverter.js:101-144 | a non-Han character, or a Han character whose lookup fails, is kept as it is; with `addSpaces`, a converted one is its decoded reading followed by one space |
| ChineseConverter.PiecesAppend | model/chineseConverter.js:98-145 | conversion works character by character: converting a concatenation concatenates the conversions |
| ChineseConverter.PiecesAllFailed | model/chineseConverter.js:126-139 | when every lookup fails, the text comes back unchanged |
| ChineseConverter.ConvertSingleChinese | model/chineseConverter.js:92-153 | the loop returns the trimmed per-character conversion of its input |
| ChineseConverter.NonChineseSegmentVerbatim | model/chineseConverter.js:66-77 | a non-Han segment appears verbatim, in its place, in the reassembled text |
| ChineseConverter.ReassembleAllFailed | model/chineseConverter.js:66-77 | with every lookup failing, reassembly reproduces the segments' concatenation |
| ChineseConverter.ConvertChineseToKatakana | model/chineseConverter.js:28-85 | text without Han characters is returned untouched (not even trimmed); otherwise the result is the trimmed reassembly of the converted runs |
| ChineseConverter.ConversionWithServiceDown | model/chineseConverter.js:28-85 | with the lookup service down, the conversion is just the trimmed input |
| ChineseConverter.BatchConvertChinese | model/chineseConverter.js:177-193 | the result has the input's length; each element is converted if it holds a Han character and copied otherwise |
| Preferences.Cascade | apps/voicevox.js:122-125 | `a ?? b ?? d`: the first present tier wins, and the default applies only when every tier is absent |
| Preferences.ResolvePrecedence | apps/voicevox.js:122-125 | each axis is the user value if set (0 included), else the configured value, else 0 / 0 / 1 / 1 |
| Preferences.PrefKey | apps/voicevox.js:40-42 | the key is `voicevox:user:`, then the user id verbatim, then `:prefs` |
| Preferences.PrefKeyInjective | apps/voicevox.js:40-42 | different users get different keys |
| Preferences.OtherUsersUnaffected | apps/voicevox.js:60-68 | writing one user's record does not change what another user reads |
| Preferences.PrefStore.GetUserPrefs | apps/voicevox.js:47-55 | the stored record, or the empty record when nothing is stored or the read fails |
| Preferences.PrefStore.SetUserPrefs | apps/voicevox.js:60-68 | success iff the write does not fail; on success only this user's key changes, on failure nothing |
| Preferences.PrefStore.DelUserPrefs | apps/voicevox.js:292 | success iff the delete does not fail; on success only this user's key is removed |
| Preferences.ResetRestoresConfig | apps/voicevox.js:288-298 | after a reset, the user reads the empty record and resolves to the configured values or the defaults |
| Preferences.LowerAscii | apps/voicevox.js:218 | lower-cases `A`–`Z` and nothing else; the parameter is `\w+`, so this is exactly `toLowerCase` there |
| Preferences.ApplySet | apps/voicevox.js:218-253 | unknown parameter rejected; speaker accepted iff found; pitch iff a number; speed and intonation iff a positive number |
| Preferences.SetTakesEffect | apps/voicevox.js:224-249 | an accepted `set` changes the resolved value of its own axis to the new value and leaves the other three alone |
| Preferences.ReadFaultDropsOtherFields | apps/voicevox.js:206-255 | when the read failed, the record written holds the one field just set |
| Preferences.ConfirmationEchoesStoredValue | apps/voicevox.js:257 | the corrected confirmation shows exactly the value stored |
| Preferences.UpperCaseParamEchoesUndefined | apps/voicevox.js:218-257 | `set PITCH 3` stores pitch 3, yet the confirmation as written shows nothing |
| Dispatch.Prefix | apps/voicevox.js:77 | the configured command prefix, or `#vv` when it is empty or absent |
| Dispatch.HeadEndIsRegex | apps/voicevox.js:83-108 | `HeadEnd` finds the match of `^#vv\s+kw` (case-insensitive) exactly when the regex matches, and where |
| Dispatch.RouteSpec | apps/voicevox.js:79-118 | not starting with the prefix gives no handling; otherwise the first of setkey, set, get, reset, list and bare text whose pattern matches wins, with the arguments cut as the source cuts them |
| Dispatch.SetIsNotSetKey | apps/voicevox.js:83-95 | a message the `set` pattern accepts is never also a `setkey` one |
| Dispatch.SetKeyNeverEmpty | apps/voicevox.js:83-86 | in a trimmed message, the key after `setkey` is never empty, so the usage reply cannot be reached |
| Dispatch.OtherPrefixOnlySpeaks | apps/voicevox.js:80-118 | a message not starting with `#vv` is either not handled or spoken, whatever prefix is configured |
| Dispatch.ParseSet | apps/voicevox.js:211 | a match of `^#vv\s+set\s+(\w+)\s+(.+)$` yields a word-character parameter and a non-empty, single-line value |
| Dispatch.ParseArgs | apps/voicevox.js:211 | on the part after `set` and its white space, a match gives a non-empty word-character name and a non-empty value without line terminators |
| Dispatch.ParseSetRoundTrip | apps/voicevox.js:211-216 | `#vv set <param> <value>` parses back to that parameter and value |
| Dispatch.OverrideKeepsRemainingWords | apps/voicevox.js:128-135 | when the first of two or more tokens names a speaker, that id is used and the text is the remaining tokens |
| SpeakerList.FilterSpeakers | apps/voicevox.js:308-314 | keeps exactly the speakers whose lower-cased name contains the lower-cased term, whose name contains the term, or whose id prints as the term; catalogue order kept |
| SpeakerList.FilterAppend | apps/voicevox.js:308-314 | filtering works entry by entry, preserving order |
| SpeakerList.IdTermFindsSpeaker | apps/voicevox.js:313 | searching for a speaker's id finds it |
| SpeakerList.MainName | apps/voicevox.js:340 | the main name is a non-empty prefix of a non-empty name: a shorter result ends just before the first delimiter, with none inside it; the whole name comes back only when it starts with a delimiter or has none |
| SpeakerList.MainNameIdempotent | apps/voicevox.js:340 | the main name of a main name is itself |
| SpeakerList.GroupKeysSpec | apps/voicevox.js:338-345 | the group keys are distinct and are exactly the main names present |
| SpeakerList.MembersSpec | apps/voicevox.js:338-345 | a group holds exactly the speakers with its main name, in catalogue order |
| SpeakerList.GroupSpeakers | apps/voicevox.js:335-345 | the grouping loop yields those keys in first-seen order, each mapped to its members |
| SpeakerList.SortByFirstId | apps/voicevox.js:352 | the sorted groups are a permutation of the groups |
| SpeakerList.SortByFirstIdSorted | apps/voicevox.js:352 | the sorted groups ascend by their first member's id |
| SpeakerList.InsertKeepsTies | apps/voicevox.js:352 | inserting a group puts it ahead of the groups it ties with and changes the order of no tied groups |
| SpeakerList.SortByFirstIdStable | apps/voicevox.js:352 | the sort is stable: groups sharing a first id keep the order `Object.entries` gives them |
| SpeakerList.Overview | apps/voicevox.js:354-369 | the first min(n, 15) groups are listed, each with its first id and extra-variant count; the rest are reported as a count iff n > 15 |
| SpeakerList.HandleSpeakerList | apps/voicevox.js:303-382 | a term with no match gives not-found; a term with matches gives the matches and the first one's name; no term gives the overview: the first min(n, 15) of the groups in stable first-id order, one line each in that order, and the count n - 15 of the rest exactly when n > 15 |
| Synthesis.BaseUrl | apps/voicevox.js:142 | the configured base URL is used verbatim, else the built-in one |
| Synthesis.ReplaceFinalSlash | apps/voicevox.js:142 | replacing a final `/` with `/` leaves every text unchanged |
| Synthesis.ClassifyBody | apps/voicevox.js:157-169 | the three known bodies map to their tips, any other non-empty body is echoed, and only an empty body means no audio |
| Synthesis.AsWrittenAgreesElsewhere | apps/voicevox.js:163-168 | the lookup as written agrees with the corrected one except on inherited property names |
| Synthesis.ToStringBodyIsMisread | apps/voicevox.js:163-168 | the body `toString` is misread as written but echoed when corrected |
| Synthesis.Classify | apps/voicevox.js:150-170 | failed status: the status and body (or an unreadable-body error); success without an audio type: the body's tip; success with one: audio |
| Synthesis.AudioNeedsOk | apps/voicevox.js:152-172 | delivery is reached iff the status is a success and the content type mentions audio |
| Synthesis.LocatorOf | apps/voicevox.js:174-179 | the response URL is preferred whenever it is non-empty |
| Delivery.TempPathInjective | apps/voicevox.js:184 | temporary files made at different times have different names |
| Delivery.Deliver | apps/voicevox.js:173-194 | tiers tried strictly in order, each only after the previous raised; delivered iff some tier succeeded; other files untouched; once written, the temporary file is gone iff its removal succeeded; tiers, outcome and files are those of `Attempts`, `Delivered` and `DiskAfter` |
| VoiceVox.UserIdOf | apps/voicevox.js:114 | the event's user id when it is non-empty; otherwise the sender's id exactly as given (even empty), or `undefined` when there is none |
| VoiceVox.HandleSetKey | apps/voicevox.js:83-90 | a non-master gets 无权限 with the file untouched; otherwise the key is written unless the write fails |
| VoiceVox.HandleSetPrefs | apps/voicevox.js:206-261 | usage reply on a non-matching message; rejection leaves the store unchanged; acceptance writes the updated record under this user's key, unless saving fails |
| VoiceVox.HandleGetPrefs | apps/voicevox.js:266-283 | an empty or unreadable record gives the "not set yet" reply; otherwise all four resolved values are shown |
| VoiceVox.HandleResetPrefs | apps/voicevox.js:288-298 | the user's key is removed and the reset confirmed, or the store is unchanged and failure reported |
| VoiceVox.ShownIsSent | apps/voicevox.js:122-143 | without an override, the request carries the resolved parameters and the text as given |
| VoiceVox.OverrideTouchesOnlySpeaker | apps/voicevox.js:122-143 | a speaker override replaces the speaker and keeps pitch, speed and intonation |
| VoiceVox.Synthesize | apps/voicevox.js:118-194 | empty text: usage; no API key: the key hint, before any request; else "synthesising", the request, and the reply for its outcome; for audio, the delivery's uploads, then the voice reply or the generic error exactly when no tier succeeded, with the disk as the delivery leaves it; otherwise the disk is untouched |
| VoiceVox.Report | apps/voicevox.js:147-194 | after the request: a thrown fetch, a non-OK status, an error body or an unreadable body each end in their one reply; audio gives the uploads of the tiers the delivery tries, then the voice reply or the generic error exactly when no tier succeeded, and the disk as the delivery leaves it; nothing here fetches, and only delivery touches the disk |
| VoiceVox.Speak | apps/voicevox.js:113-194 | the synthesis outcome (`Synthesized`: usage, key hint, or announcement, request and report with the disk as delivery leaves it) for the user's stored record, or `{}` when the read fails |
| VoiceVox.Answer | apps/voicevox.js:82-111 | each non-speech sub-command gets exactly the reply and new state its handler states (`Answered`): a non-master `setkey` gets 无权限 with the file untouched, `get` after a failed read gets the hint, and so on; only a master's `setkey` changes the config, and only `set`/`reset` change the store |
| VoiceVox.Run | apps/voicevox.js:82-194 | speech has the synthesis outcome for the user's record and every other sub-command its one handler reply (`Synthesized`, `Answered`); only `setkey` changes the config, only `set`/`reset` the store, only speech the disk; the one request comes second |
| VoiceVox.Tts | apps/voicevox.js:74-201 | not handled iff the message lacks the prefix, with no reply; an unreadable config gives the generic error; otherwise the routed command's synthesis outcome or handler reply and state, as `Run` states them |
| Help.SpritePosition | apps/help.js:42-45 | icon n ≥ 1: column (n-1) % 10 in 0..9, row (n-1) / 10; every non-zero icon satisfies n = 10·row + column + 1 |
| Help.SpriteInjective | apps/help.js:39-45 | distinct non-zero icons get distinct sprite cells |
| Help.Visible | apps/help.js:33-36 | keeps exactly the groups not restricted to the master, or all of them for the master |
| Help.VisibleSnoc | apps/help.js:33-36 | the filter decides one group at a time, appending each shown group after those before it |
| Help.VisibleAppend | apps/help.js:33-36 | the filter keeps order: the groups seen in a concatenation are those seen in each part, in order |
| Help.SelectHelpList | apps/help.js:30 | the user's list if present (even when empty), else the system's, else none |
| Help.Defaults | apps/help.js:29 | every user setting is kept; system settings fill only the keys the user lacks |
| Help.StyleItems | apps/help.js:38-47 | every item of the group gets hidden (icon 0 or NaN) or its sprite cell |
| Help.StyleGroups | apps/help.js:33-50 | collects the visible groups; styles every item of a visible group; leaves items only in skipped groups unchanged |
| Help.HelpPage | apps/help.js:21-50 | the settings merge and the styled visible groups of the selected list |

## Left out

- Reading and writing the YAML configuration:
  - the model receives the parsed document, or none when parsing fails;
  - writing it only stores the new document or fails;
  - serialisation is not modelled.
- The framework's `^#vv(.*)$` rule, which decides which messages reach `tts`. The model starts inside the handler.
- The Redis store. It is a map from key to record, and each read, write or delete may fail as a whole. JSON text is not modelled:
  - a stored value that parses to something other than a record;
  - an `Infinity` pitch saved as `null` and read back as absent.
- Message wording, emoji and `getSpeakerName`. Replies are constructors carrying the data they show.
- A reply that itself raises. Only delivery replies are modelled as able to fail, as part of their tier.
- `getSpeakerList` and `findSpeaker`. The catalogue and the speaker lookup are inputs, because `config/speakers.js` is not part of this model.
- `parseFloat`, and the `toLowerCase` the speaker filter applies to names and terms. Both are inputs (the `set` parameter switch uses the modelled `Preferences.LowerAscii` instead):
  - a number is a `real`, with NaN as `None`;
  - IEEE rounding and infinities are not modelled.
- The regex `i` flag is modelled as ASCII case folding, which matches its behaviour on the keyword letters.
- `encodeURIComponent` and number printing in the request URL. The request is kept field by field.
- `fetch`, `uploadRecord`, `segment.record`, `Date.now` and the file system. These are inputs or flags; the disk is a set of paths.
- The 50 ms delays and the concurrency of `Promise.all` over segments.
  - The delays do not affect results.
  - Segments are converted in order, which gives the same joined result.
- The remote transliteration call is a lookup from character to optional reading:
  - `None` stands for a non-ok status, an exception, or a missing `Pinyin_k_sei` field;
  - the optional-spaces argument of `convertSingleChinese` is passed through as `addSpaces`.
- Characters outside the Basic Multilingual Plane. They are single characters here, where JavaScript sees two code units:
  - the classifier and the escape decoder behave the same either way;
  - a `\uD800`–`\uDFFF` escape stays as written, because a lone surrogate is not a character here.
- `handleGetPrefs` reads the configuration a second time; the model reuses the first read.
- Object key order:
  - `Object.entries` lists integer-like keys first, so a main name made of digits would change the overview order;
  - main names are assumed not to be integer-like or `Object.prototype` member names.
- Synthesis.Classify: uses the corrected lookup of the first finding, so a body naming an inherited member such as `toString` is echoed; the code instead shows the inherited function (modelled by `ClassifyBodyAsWritten`).
- VoiceVox.HandleSetPrefs: confirms with the corrected echo of the second finding, the value just stored; the code confirms `undefined` when the parameter is not typed in lower case (modelled by `ConfirmedValueAsWritten`).
- Synthesis.LocatorOf: the delivery effects do not carry the audio URL. `LocatorOf` states which URL (`res.url || url`) the code hands to `uploadRecord` and `segment.record`.
- Help.CssFor: the result is a sprite cell (column, row), not the CSS text with its 50-pixel multiples. Icons are integers, or NaN for anything that does not convert; fractional or infinite `icon * 1` values are not modelled.
- Help rendering, themes and `Data.importCfg`:
  - the two configurations are inputs;
  - `lodash.defaults` writing into the user's `helpCfg` object is not modelled;
  - a `helpList` given as an object rather than an array is not modelled.

## Findings

| source | as written | input that shows it | evidently intended | confidence | as-written member | corrected member |
|---|---|---|---|---|---|---|
| apps/voicevox.js:163-168 | `map[bodyText?.trim()]` on an object literal also finds the names inherited from `Object.prototype`, whose values are functions | a success response with a non-audio type and body `toString` | only the three listed error names map to tips; any other body is echoed | high; not executed | Synthesis.ToStringBodyIsMisread | Synthesis.ClassifyBody |
| apps/voicevox.js:257 | the confirmation reads `userPrefs[param]` with the parameter as typed, while the switch at line 218 lower-cases it | `#vv set PITCH 3` (or `set Intonation 2`) stores the value but confirms `undefined` | confirm the value just stored, for any spelling of the parameter | high; not executed | Preferences.UpperCaseParamEchoesUndefined | Preferences.ConfirmationEchoesStoredValue |
