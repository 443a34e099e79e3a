/**
 * Routing of a `#vv` message: the configured-prefix check, the five sub-command
 * patterns tried in order, the argument parser of `#vv set`, and the optional leading
 * speaker word of a synthesis request.
 *
 * The sub-command patterns are regular expressions with the `i` flag whose literal
 * parts are ASCII; under that flag a character matches a lower-case ASCII letter
 * exactly when it is that letter in either case, which is what `LowerAscii` decides.
 */
module Dispatch {
  import opened Wrappers
  import opened JsString
  import opened Preferences

  /** The prefix a message must start with: `cfg.command || '#vv'`. */
  function Prefix(cfg: Config): (p: string)
    ensures p != []
    ensures cfg.command.Some? && cfg.command.value != [] ==> p == cfg.command.value
    ensures !(cfg.command.Some? && cfg.command.value != []) ==> p == "#vv"
  {
    if cfg.command.Some? && cfg.command.value != [] then cfg.command.value else "#vv"
  }

  /** A sub-command name: lower-case ASCII letters. */
  predicate IsKeyword(kw: string) {
    kw != [] && forall k :: 0 <= k < |kw| ==> 'a' <= kw[k] <= 'z'
  }

  /** `^#vv\s+kw` (case-insensitive): where the match ends, if it matches. */
  function HeadEnd(raw: string, kw: string): (e: Option<nat>)
    ensures e.Some? ==> 3 < e.value <= |raw|
  {
    if |raw| < 3 || LowerAscii(raw[..3]) != "#vv" then None
    else
      var start := 3 + WsRun(raw[3..]);
      if start == 3 || start + |kw| > |raw| || LowerAscii(raw[start..start + |kw|]) != kw then None
      else Some(start + |kw|)
  }

  /** The regular-expression reading of `^#vv\s+kw`: the `\s+` takes `n` characters and
      the whole match is `raw[..e]`. */
  ghost predicate HeadMatch(raw: string, kw: string, n: nat, e: nat) {
    && 3 + n + |kw| == e <= |raw|
    && LowerAscii(raw[..3]) == "#vv"
    && n >= 1
    && AllWs(raw[3..3 + n])
    && LowerAscii(raw[3 + n..e]) == kw
  }

  /** `HeadEnd` finds exactly the matches of the pattern: the greedy run of white space
      is the only one after which a keyword letter can follow. */
  lemma HeadEndIsRegex(raw: string, kw: string, n: nat, e: nat)
    requires IsKeyword(kw)
    ensures HeadMatch(raw, kw, n, e) <==> HeadEnd(raw, kw) == Some(e) && n == WsRun(raw[3..])
  {
    if HeadMatch(raw, kw, n, e) {
      MatchIsGreedy(raw, kw, n, e);
    }
    if HeadEnd(raw, kw) == Some(e) && n == WsRun(raw[3..]) {
      assert AllWs(raw[3..][..n]);
      assert raw[3..][..n] == raw[3..3 + n];
    }
  }

  lemma MatchIsGreedy(raw: string, kw: string, n: nat, e: nat)
    requires IsKeyword(kw) && HeadMatch(raw, kw, n, e)
    ensures n == WsRun(raw[3..])
    ensures HeadEnd(raw, kw) == Some(e)
  {
    MatchRunIsGreedy(raw, kw, n, e);
  }

  /** The white space of a match is the whole greedy run: a keyword letter follows it. */
  lemma MatchRunIsGreedy(raw: string, kw: string, n: nat, e: nat)
    requires IsKeyword(kw) && HeadMatch(raw, kw, n, e)
    ensures n == WsRun(raw[3..])
  {
    var s := raw[3..];
    assert s[..n] == raw[3..3 + n];
    WsRunAtLeast(s, n);
    assert LowerAscii(raw[3 + n..e])[0] == kw[0];
    assert s[n] == raw[3 + n];
    WsRunAtMost(s, n);
  }

  /** The pattern matched and is followed by what `rest` demands. */
  predicate FollowedByWs(raw: string, kw: string) {
    var e := HeadEnd(raw, kw);
    e.Some? && e.value < |raw| && IsWs(raw[e.value])
  }

  predicate FollowedByWsToEnd(raw: string, kw: string) {
    var e := HeadEnd(raw, kw);
    e.Some? && AllWs(raw[e.value..])
  }

  /** What is left of the message once the matched head and the white space after it
      are removed (the `replace` of the head pattern followed by a greedy `\s*`). */
  function AfterHead(raw: string, kw: string): string
    requires HeadEnd(raw, kw).Some?
  {
    AfterRun(raw, HeadEnd(raw, kw).value)
  }

  datatype Command =
    | NotMine
    | SetKey(key: string)
    | SetPrefs
    | GetPrefs
    | ResetPrefs
    | ListSpeakers(term: string)
    | Speak(content: string)

  /** The dispatch of `tts` on the trimmed message, first match wins:
      `setkey` and `set` need white space after the name, `get` and `reset` allow only
      white space after it, `list` matches as a plain prefix (so `#vv listen` lists with
      the term `en`), and anything else is text to speak after the prefix. */
  function Route(raw: string, prefix: string): Command {
    if !StartsWith(raw, prefix) then NotMine
    else if FollowedByWs(raw, "setkey") then SetKey(Trim(AfterHead(raw, "setkey")))
    else if FollowedByWs(raw, "set") then SetPrefs
    else if FollowedByWsToEnd(raw, "get") then GetPrefs
    else if FollowedByWsToEnd(raw, "reset") then ResetPrefs
    else if HeadEnd(raw, "list").Some? then ListSpeakers(Trim(AfterHead(raw, "list")))
    else Speak(Trim(raw[|prefix|..]))
  }

  /** Each command is chosen exactly when its own pattern matches and no earlier one
      does; text to speak is what follows the prefix. */
  lemma RouteSpec(raw: string, prefix: string)
    ensures var c := Route(raw, prefix);
      && (c == NotMine <==> !StartsWith(raw, prefix))
      && (c.SetKey? <==> StartsWith(raw, prefix) && FollowedByWs(raw, "setkey"))
      && (c.SetPrefs? <==> StartsWith(raw, prefix) && !FollowedByWs(raw, "setkey") && FollowedByWs(raw, "set"))
      && (c.GetPrefs? <==> StartsWith(raw, prefix) && !FollowedByWs(raw, "setkey") && !FollowedByWs(raw, "set")
                            && FollowedByWsToEnd(raw, "get"))
      && (c.ResetPrefs? <==> StartsWith(raw, prefix) && !FollowedByWs(raw, "setkey") && !FollowedByWs(raw, "set")
                              && !FollowedByWsToEnd(raw, "get") && FollowedByWsToEnd(raw, "reset"))
      && (c.ListSpeakers? <==> StartsWith(raw, prefix) && !FollowedByWs(raw, "setkey") && !FollowedByWs(raw, "set")
                                && !FollowedByWsToEnd(raw, "get") && !FollowedByWsToEnd(raw, "reset")
                                && HeadEnd(raw, "list").Some?)
      && (c.ListSpeakers? ==> c.term == Trim(AfterHead(raw, "list")))
      && (c.Speak? <==> StartsWith(raw, prefix) && !FollowedByWs(raw, "setkey") && !FollowedByWs(raw, "set")
                         && !FollowedByWsToEnd(raw, "get") && !FollowedByWsToEnd(raw, "reset")
                         && HeadEnd(raw, "list").None?)
      && (c.Speak? ==> c.content == Trim(raw[|prefix|..]))
  {
  }

  /** A `set` message is never taken for `setkey`, whatever follows: `setkey` needs the
      letters `key` right after `set`, while `set` needs white space there. */
  lemma SetIsNotSetKey(raw: string)
    requires FollowedByWs(raw, "set")
    ensures !FollowedByWs(raw, "setkey")
  {
    var start := 3 + WsRun(raw[3..]);
    if start + 6 <= |raw| {
      assert raw[start..start + 6][3] == raw[start + 3];
      assert LowerAscii(raw[start..start + 6])[3] != 'k';
    }
  }

  /** The `setkey` usage reply cannot be reached: the message is trimmed, so after the
      white space the pattern demands there is always a non-blank key. */
  lemma {:induction false} SetKeyNeverEmpty(raw: string, prefix: string)
    requires IsTrimmed(raw)
    requires Route(raw, prefix).SetKey?
    ensures Route(raw, prefix).key != []
  {
    var e := HeadEnd(raw, "setkey").value;
    var tail := raw[e..];
    var w := WsRun(tail);
    assert tail[|tail| - 1] == raw[|raw| - 1];
    WsRunAtMost(tail, |tail| - 1);
    TrimKeepsNonWs(tail[w..], 0);
  }

  /** The sub-command patterns spell `#vv` themselves, whatever the configured prefix:
      a message that does not start with `#vv` (in any case) is either not handled or
      spoken as text. */
  lemma OtherPrefixOnlySpeaks(raw: string, prefix: string)
    requires |raw| < 3 || LowerAscii(raw[..3]) != "#vv"
    ensures Route(raw, prefix) == NotMine || Route(raw, prefix) == Speak(Trim(raw[|prefix|..]))
  {
  }

  /** A greedy white-space run covers any all-white prefix. */
  lemma {:induction false} WsRunAtLeast(s: string, n: nat)
    requires n <= |s| && AllWs(s[..n])
    ensures WsRun(s) >= n
  {
    if n > 0 {
      assert s[..n][0] == s[0];
      assert s[1..][..n - 1] == s[..n][1..];
      WsRunAtLeast(s[1..], n - 1);
    }
  }

  /** A greedy white-space run stops at the first character that is not white space. */
  lemma {:induction false} WsRunAtMost(s: string, n: nat)
    requires n < |s| && !IsWs(s[n])
    ensures WsRun(s) <= n
  {
    if n > 0 && IsWs(s[0]) {
      assert s[1..][n - 1] == s[n];
      WsRunAtMost(s[1..], n - 1);
    }
  }

  // ---------------------------------------------------------------------------
  // `#vv set <param> <value>`

  /** `\w`: ASCII letters, digits and the underscore. */
  predicate IsWordChar(c: char) {
    ('a' <= c <= 'z') || ('A' <= c <= 'Z') || ('0' <= c <= '9') || c == '_'
  }

  /** Length of the run of word characters that starts `s` (a greedy `\w*`). */
  function WordRun(s: string): (n: nat)
    ensures n <= |s| && forall k :: 0 <= k < n ==> IsWordChar(s[k])
    ensures n < |s| ==> !IsWordChar(s[n])
  {
    if |s| > 0 && IsWordChar(s[0]) then 1 + WordRun(s[1..]) else 0
  }

  predicate NoLineTerminator(s: string) {
    forall k :: 0 <= k < |s| ==> !IsLineTerminator(s[k])
  }

  datatype SetArgs = SetArgs(param: string, value: string)

  /** `raw.match(/^#vv\s+set\s+(\w+)\s+(.+)$/i)`. Each `\s+` and the `\w+` take their
      longest run, since a shorter one would leave a character the next item cannot
      start with. The value is everything after the white space that follows the name,
      and must hold no line terminator. Only when that white space reaches the end does
      the last `\s+` give back one character, which becomes the value. */
  function ParseSet(raw: string): (r: Option<SetArgs>)
    ensures r.Some? ==> FollowedByWs(raw, "set")
    ensures r.Some? ==> r.value.param != [] && r.value.value != [] && NoLineTerminator(r.value.value)
    ensures r.Some? ==> forall k :: 0 <= k < |r.value.param| ==> IsWordChar(r.value.param[k])
  {
    if !FollowedByWs(raw, "set") then None
    else ParseArgs(AfterHead(raw, "set"))
  }

  /** `(\w+)\s+(.+)$` on what follows the head and its white space. */
  function ParseArgs(x: string): (r: Option<SetArgs>)
    ensures r.Some? ==> r.value.param != [] && r.value.value != [] && NoLineTerminator(r.value.value)
    ensures r.Some? ==> forall k :: 0 <= k < |r.value.param| ==> IsWordChar(r.value.param[k])
  {
    var p := WordRun(x);
    var gap := WsRun(x[p..]);
    var valueStart := p + gap;
    if p == 0 || gap == 0 then None
    else if valueStart < |x| then
      if NoLineTerminator(x[valueStart..]) then Some(SetArgs(x[..p], x[valueStart..]))
      else None
    else if gap >= 2 && !IsLineTerminator(x[|x| - 1]) then
      Some(SetArgs(x[..p], [x[|x| - 1]]))
    else None
  }

  /** Parsing a well-formed `set` message gives back the name and the value it was
      written with. */
  lemma {:induction false} ParseSetRoundTrip(param: string, value: string)
    requires param != [] && forall k :: 0 <= k < |param| ==> IsWordChar(param[k])
    requires value != [] && !IsWs(value[0]) && NoLineTerminator(value)
    ensures ParseSet("#vv set " + param + " " + value) == Some(SetArgs(param, value))
  {
    var x := param + " " + value;
    assert "#vv set " + param + " " + value == "#vv set " + x;
    SetHead(x);
    WordRunOfWord(param, " " + value);
    assert x == param + (" " + value);
    assert x[|param|..] == " " + value;
    WsRunOfOneSpace(value);
    assert x[|param| + 1..] == value;
    assert x[..|param|] == param;
    assert ParseArgs(x) == Some(SetArgs(param, value));
  }

  /** A `set` message whose name follows one space after `set`. */
  lemma SetHead(x: string)
    requires x != [] && !IsWs(x[0])
    ensures var raw := "#vv set " + x;
      && HeadEnd(raw, "set") == Some(7) && FollowedByWs(raw, "set") && AfterHead(raw, "set") == x
  {
    var raw := "#vv set " + x;
    assert raw[..3] == "#vv";
    assert raw[3..] == " " + ("set " + x);
    WsRunOfOneSpace("set " + x);
    assert raw[4..7] == "set";
    assert raw[7..] == " " + x;
    WsRunOfOneSpace(x);
    assert raw[8..] == x;
  }

  lemma {:induction false} WordRunOfWord(w: string, tail: string)
    requires forall k :: 0 <= k < |w| ==> IsWordChar(w[k])
    requires tail == [] || !IsWordChar(tail[0])
    ensures WordRun(w + tail) == |w|
    decreases |w|
  {
    if |w| > 0 {
      assert (w + tail)[1..] == w[1..] + tail;
      WordRunOfWord(w[1..], tail);
    }
  }

  // ---------------------------------------------------------------------------
  // The leading speaker word

  /** `#vv [speaker] text`: when the content has at least two white-space separated
      words and the first names a speaker, that speaker is used and the remaining words,
      joined by single spaces, are spoken; otherwise the content is spoken as it is. */
  function SpeakerOverride(content: string, findSpeaker: string -> Option<int>): (Option<int>, string) {
    var tokens := SplitWs(content);
    if |tokens| >= 2 && findSpeaker(tokens[0]).Some? then (findSpeaker(tokens[0]), JoinSpace(tokens[1..]))
    else (None, content)
  }

  /** The override consumes exactly the first word: the text that is spoken splits into
      the remaining words of the content. */
  lemma {:induction false} OverrideKeepsRemainingWords(content: string, findSpeaker: string -> Option<int>)
    requires content != [] && IsTrimmed(content)
    requires SpeakerOverride(content, findSpeaker).0.Some?
    ensures SplitWs(SpeakerOverride(content, findSpeaker).1) == SplitWs(content)[1..]
    ensures SpeakerOverride(content, findSpeaker).0 == findSpeaker(SplitWs(content)[0])
  {
    var tokens := SplitWs(content);
    SplitTrimmedIsWords(content);
    assert AllWords(tokens[1..]) by {
      forall k | 0 <= k < |tokens[1..]| ensures IsWord(tokens[1..][k]) {
        assert tokens[1..][k] == tokens[k + 1];
      }
    }
    SplitJoinRoundTrip(tokens[1..]);
  }
}
