/**
 * The JavaScript string operations the plugin relies on: `trim`, the `\s` character
 * class, `startsWith`, `includes`, `split(/\s+/)`, `join(' ')` and `Number#toString`.
 * A string is a sequence of characters, one element per UTF-16 code unit of the
 * original (every character this core classifies lies in the Basic Multilingual Plane).
 */
module JsString {

  /** WhiteSpace or LineTerminator: the characters `\s` matches and `trim` removes. */
  predicate IsWs(c: char) {
    var n := c as int;
    (0x09 <= n <= 0x0D) || n == 0x20 || n == 0xA0 || n == 0x1680 ||
    (0x2000 <= n <= 0x200A) || n == 0x2028 || n == 0x2029 || n == 0x202F ||
    n == 0x205F || n == 0x3000 || n == 0xFEFF
  }

  /** LineTerminator: the characters a regular-expression `.` does not match. */
  predicate IsLineTerminator(c: char) {
    var n := c as int;
    n == 0x0A || n == 0x0D || n == 0x2028 || n == 0x2029
  }

  predicate AllWs(s: string) {
    forall i :: 0 <= i < |s| ==> IsWs(s[i])
  }

  /** Neither end of `s` is white space (what `trim` leaves behind). */
  predicate IsTrimmed(s: string) {
    s == [] || (!IsWs(s[0]) && !IsWs(s[|s| - 1]))
  }

  /** `s` without its leading white space. */
  function TrimStart(s: string): string {
    if |s| > 0 && IsWs(s[0]) then TrimStart(s[1..]) else s
  }

  /** `s` without its trailing white space. */
  function TrimEnd(s: string): string {
    if |s| > 0 && IsWs(s[|s| - 1]) then TrimEnd(s[..|s| - 1]) else s
  }

  /** TrimStart removes a white prefix and stops at the first other character. */
  lemma {:induction false} TrimStartSpec(s: string)
    ensures var r := TrimStart(s);
      && |r| <= |s| && r == s[|s| - |r|..]
      && AllWs(s[..|s| - |r|])
      && (r == [] || !IsWs(r[0]))
    decreases |s|
  {
    if |s| > 0 && IsWs(s[0]) {
      TrimStartSpec(s[1..]);
      var r := TrimStart(s[1..]);
      assert s[..|s| - |r|] == [s[0]] + s[1..][..|s| - 1 - |r|];
    }
  }

  /** TrimEnd removes a white suffix and stops at the last other character. */
  lemma {:induction false} TrimEndSpec(s: string)
    ensures var r := TrimEnd(s);
      && |r| <= |s| && r == s[..|r|]
      && AllWs(s[|r|..])
      && (r == [] || !IsWs(r[|r| - 1]))
    decreases |s|
  {
    if |s| > 0 && IsWs(s[|s| - 1]) {
      TrimEndSpec(s[..|s| - 1]);
      var r := TrimEnd(s[..|s| - 1]);
      assert s[|r|..] == s[..|s| - 1][|r|..] + [s[|s| - 1]];
    }
  }

  /** `String.prototype.trim`. */
  function Trim(s: string): (r: string)
    ensures IsTrimmed(r)
    ensures |r| <= |s|
  {
    var t := TrimStart(s);
    TrimStartSpec(s);
    TrimEndSpec(t);
    var r := TrimEnd(t);
    assert r != [] ==> r[0] == t[0];
    r
  }

  /** Trim cuts `s` down to one slice of it: everything removed before and after it is
      white space. */
  lemma TrimSpec(s: string)
    ensures exists k: nat :: var r := Trim(s);
      && k + |r| <= |s| && r == s[k..k + |r|]
      && AllWs(s[..k]) && AllWs(s[k + |r|..])
  {
    var t := TrimStart(s);
    TrimStartSpec(s);
    TrimEndSpec(t);
    var r := TrimEnd(t);
    var k := |s| - |t|;
    assert r == s[k..k + |r|];
    assert s[k + |r|..] == t[|r|..];
  }

  /** Trimming leaves a string without white space at its ends as it is. */
  lemma TrimIdentity(s: string)
    requires IsTrimmed(s)
    ensures Trim(s) == s
  {
  }

  /** Whatever trim removes is white space, so a string holding a non-white character
      keeps one after trimming. */
  lemma {:induction false} TrimKeepsNonWs(s: string, i: nat)
    requires i < |s| && !IsWs(s[i])
    ensures Trim(s) != []
  {
    var t := TrimStart(s);
    TrimStartSpec(s);
    TrimEndSpec(t);
    var k := |s| - |t|;
    assert forall j :: 0 <= j < k ==> IsWs(s[..k][j]);
    assert k <= i;
    assert t[i - k] == s[i];
    var r := TrimEnd(t);
    forall j | |r| <= j < |t| ensures IsWs(t[j]) { assert t[|r|..][j - |r|] == t[j]; }
    assert i - k < |r|;
  }

  /** `s.startsWith(p)`. */
  predicate StartsWith(s: string, p: string) {
    |p| <= |s| && s[..|p|] == p
  }

  /** `t` occurs in `s` starting at index `i`. */
  predicate OccursAt(s: string, t: string, i: nat) {
    i + |t| <= |s| && s[i..i + |t|] == t
  }

  /** `s.includes(t)`: `t` occurs somewhere in `s`. */
  function Includes(s: string, t: string): (b: bool)
    ensures b <==> exists i: nat :: OccursAt(s, t, i)
    decreases |s|
  {
    if |t| > |s| then false
    else if s[..|t|] == t then assert OccursAt(s, t, 0); true
    else
      var b := Includes(s[1..], t);
      assert forall i: nat :: OccursAt(s[1..], t, i) <==> OccursAt(s, t, i + 1) by {
        forall i: nat ensures OccursAt(s[1..], t, i) <==> OccursAt(s, t, i + 1) {
          if i + |t| <= |s| - 1 { assert s[1..][i..i + |t|] == s[i + 1..i + 1 + |t|]; }
        }
      }
      assert !OccursAt(s, t, 0);
      assert (exists i: nat :: OccursAt(s, t, i)) ==> exists i: nat :: OccursAt(s[1..], t, i) by {
        if exists i: nat :: OccursAt(s, t, i) {
          var i: nat :| OccursAt(s, t, i);
          assert i >= 1 && OccursAt(s[1..], t, i - 1);
        }
      }
      b
  }

  /** Length of the run of white space that starts `s` (a greedy `\s*`). */
  function WsRun(s: string): (n: nat)
    ensures n <= |s| && AllWs(s[..n])
    ensures n < |s| ==> !IsWs(s[n])
  {
    if |s| > 0 && IsWs(s[0]) then
      var n := 1 + WsRun(s[1..]);
      assert s[..n] == [s[0]] + s[1..][..n - 1];
      n
    else 0
  }

  /** Index of the first white-space character of `s`, or `|s|`. */
  function FirstWs(s: string): (i: nat)
    ensures i <= |s| && (i < |s| ==> IsWs(s[i]))
    ensures forall k :: 0 <= k < i ==> !IsWs(s[k])
  {
    if |s| == 0 || IsWs(s[0]) then 0 else 1 + FirstWs(s[1..])
  }

  /** What follows the white-space run that starts at `i`. */
  function AfterRun(s: string, i: nat): (r: string)
    requires i <= |s|
    ensures |r| <= |s| - i
  {
    s[i + WsRun(s[i..])..]
  }

  /** `s.split(/\s+/)`: the pieces between maximal runs of white space. A leading or
      trailing run yields an empty first or last piece; `""` splits to `[""]`. */
  function SplitWs(s: string): (ts: seq<string>)
    ensures |ts| >= 1
    decreases |s|
  {
    var i := FirstWs(s);
    if i == |s| then [s]
    else [s[..i]] + SplitWs(AfterRun(s, i))
  }

  /** `ts.join(' ')`. */
  function JoinSpace(ts: seq<string>): string {
    if |ts| == 0 then []
    else if |ts| == 1 then ts[0]
    else ts[0] + " " + JoinSpace(ts[1..])
  }

  /** The first piece of a string holding white space, then the split of what follows
      the first run of it. */
  lemma SplitWsCons(s: string)
    requires FirstWs(s) < |s|
    ensures var i := FirstWs(s); SplitWs(s) == [s[..i]] + SplitWs(AfterRun(s, i))
  {
  }

  /** A non-empty piece without white space: what `split(/\s+/)` yields on a trimmed string. */
  predicate IsWord(t: string) {
    t != [] && forall k :: 0 <= k < |t| ==> !IsWs(t[k])
  }

  /** In a trimmed string, the first white-space run is preceded by a word and followed
      by a shorter trimmed string. */
  lemma SplitTrimmedStep(s: string)
    requires s != [] && IsTrimmed(s) && FirstWs(s) < |s|
    ensures var i := FirstWs(s); var rest := AfterRun(s, i);
      && IsWord(s[..i]) && rest != [] && IsTrimmed(rest) && |rest| < |s|
  {
    var i := FirstWs(s);
    var n := WsRun(s[i..]);
    assert n >= 1;
    assert s[i..][..n][n - 1] == s[i + n - 1];
    var rest := s[i + n..];
    assert rest[|rest| - 1] == s[|s| - 1];
    assert rest[0] == s[i..][n];
    assert forall k :: 0 <= k < i ==> s[..i][k] == s[k];
  }

  /** Every piece is a word. */
  predicate AllWords(ts: seq<string>) {
    forall k :: 0 <= k < |ts| ==> IsWord(ts[k])
  }

  lemma WordsCons(t: string, ts: seq<string>)
    requires IsWord(t) && AllWords(ts)
    ensures AllWords([t] + ts)
  {
    forall k | 0 <= k < |[t] + ts| ensures IsWord(([t] + ts)[k]) {
      if k > 0 { assert ([t] + ts)[k] == ts[k - 1]; }
    }
  }

  /** Splitting a trimmed, non-empty string yields only words. */
  lemma {:induction false} SplitTrimmedIsWords(s: string)
    requires s != [] && IsTrimmed(s)
    ensures AllWords(SplitWs(s))
    decreases |s|
  {
    var i := FirstWs(s);
    if i < |s| {
      var rest := AfterRun(s, i);
      SplitTrimmedStep(s);
      SplitTrimmedIsWords(rest);
      WordsCons(s[..i], SplitWs(rest));
      SplitWsCons(s);
    }
  }

  /** `split(/\s+/)` undoes `join(' ')` on words. */
  lemma {:induction false} SplitJoinRoundTrip(ts: seq<string>)
    requires |ts| >= 1 && AllWords(ts)
    ensures SplitWs(JoinSpace(ts)) == ts
  {
    var t := ts[0];
    if |ts| == 1 {
      FirstWsOfWord(t, []);
      assert t + [] == t;
    } else {
      var tail := ts[1..];
      assert AllWords(tail) by {
        forall k | 0 <= k < |tail| ensures IsWord(tail[k]) {
          assert tail[k] == ts[k + 1];
        }
      }
      JoinStartsWithWord(tail);
      SplitAfterWord(t, JoinSpace(tail));
      SplitJoinRoundTrip(tail);
      assert ts == [t] + tail;
    }
  }

  /** A word, one space, then text that does not start with white space: the word is
      the first piece and the text is split on its own. */
  lemma SplitAfterWord(t: string, rest: string)
    requires IsWord(t) && rest != [] && !IsWs(rest[0])
    ensures SplitWs(t + " " + rest) == [t] + SplitWs(rest)
  {
    WordThenSpace(t, rest);
    SplitWsCons(t + " " + rest);
  }

  /** In a word, one space and then text, the first white space is the space, and the
      text is what follows it. */
  lemma WordThenSpace(t: string, rest: string)
    requires IsWord(t) && rest != [] && !IsWs(rest[0])
    ensures var s := t + " " + rest;
      FirstWs(s) == |t| && s[..|t|] == t && AfterRun(s, |t|) == rest
  {
    var s := t + (" " + rest);
    assert t + " " + rest == s;
    FirstWsOfWord(t, " " + rest);
    assert s[|t|..] == " " + rest;
    WsRunOfOneSpace(rest);
    assert s[|t| + 1..] == rest;
  }

  /** One space before text that does not start with white space is a run of one. */
  lemma WsRunOfOneSpace(x: string)
    requires x != [] && !IsWs(x[0])
    ensures WsRun(" " + x) == 1
  {
    assert (" " + x)[1..] == x;
  }

  lemma {:induction false} FirstWsOfWord(t: string, tail: string)
    requires forall k :: 0 <= k < |t| ==> !IsWs(t[k])
    requires tail == [] || IsWs(tail[0])
    ensures FirstWs(t + tail) == |t|
    decreases |t|
  {
    if |t| > 0 {
      assert (t + tail)[1..] == t[1..] + tail;
      FirstWsOfWord(t[1..], tail);
    }
  }

  lemma {:induction false} JoinStartsWithWord(ts: seq<string>)
    requires |ts| >= 1 && AllWords(ts)
    ensures JoinSpace(ts) != [] && !IsWs(JoinSpace(ts)[0])
  {
    if |ts| > 1 {
      assert JoinSpace(ts)[0] == ts[0][0];
    }
  }

  function DigitChar(d: nat): char
    requires d < 10
  {
    ('0' as int + d) as char
  }

  /** Decimal digits of a natural number, most significant first. */
  function NatToString(n: nat): (s: string)
    ensures s != [] && forall k :: 0 <= k < |s| ==> '0' <= s[k] <= '9'
  {
    if n < 10 then [DigitChar(n)] else NatToString(n / 10) + [DigitChar(n % 10)]
  }

  /** `Number.prototype.toString()` on an integer. */
  function IntToString(n: int): string {
    if n < 0 then "-" + NatToString(-n) else NatToString(n)
  }

  /** Reads decimal digits back (the inverse of NatToString). */
  function ParseDigits(s: string): int {
    if |s| == 0 then 0 else ParseDigits(s[..|s| - 1]) * 10 + (s[|s| - 1] as int - '0' as int)
  }

  /** Reads an optional minus sign and decimal digits back. */
  function ParseInt(s: string): int {
    if |s| > 0 && s[0] == '-' then -ParseDigits(s[1..]) else ParseDigits(s)
  }

  lemma {:induction false} ParseNatToString(n: nat)
    ensures ParseDigits(NatToString(n)) == n
  {
    if n >= 10 {
      var s := NatToString(n);
      assert s[..|s| - 1] == NatToString(n / 10);
      ParseNatToString(n / 10);
    }
  }

  /** Printing an integer and reading it back gives the integer. */
  lemma IntToStringRoundTrip(n: int)
    ensures ParseInt(IntToString(n)) == n
  {
    if n < 0 {
      assert IntToString(n)[1..] == NatToString(-n);
      ParseNatToString(-n);
    } else {
      ParseNatToString(n);
    }
  }

  lemma MinusMarksNegative(n: int)
    ensures IntToString(n) != [] && (IntToString(n)[0] == '-' <==> n < 0)
  {
  }

  /** Distinct integers print differently, so `id.toString() === term` picks one id. */
  lemma IntToStringInjective(a: int, b: int)
    requires IntToString(a) == IntToString(b)
    ensures a == b
  {
    IntToStringRoundTrip(a);
    IntToStringRoundTrip(b);
  }
}
