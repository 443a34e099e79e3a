/**
 * The Chinese-to-katakana transliterator: a Han-character classifier, a segmentation of
 * the input into maximal runs of one class, a per-character converter backed by a remote
 * lookup that falls back to the original character, a `\uXXXX` escape decoder and a
 * batch converter.
 *
 * The remote lookup (an HTTP POST per character) is the parameter `lookup`: `None`
 * stands for a request that throws, a non-ok response, or a body without the
 * `Pinyin_k_sei` field; `Some(raw)` carries that field's text, where the empty text is
 * falsy in JavaScript and is treated like a missing field. The 50 ms pauses are left out.
 */
module ChineseConverter {
  import opened Wrappers
  import opened JsString

  /** The three ranges of the classifier: CJK Unified Ideographs, Extension A and
      Compatibility Ideographs. */
  predicate IsHan(c: char) {
    var n := c as int;
    (0x4E00 <= n <= 0x9FFF) || (0x3400 <= n <= 0x4DBF) || (0xF900 <= n <= 0xFAFF)
  }

  /** `containsChinese`: some character of `text` is a Han character. */
  function ContainsChinese(text: string): (b: bool)
    ensures b <==> exists i :: 0 <= i < |text| && IsHan(text[i])
  {
    if |text| == 0 then false
    else if IsHan(text[0]) then true
    else
      var b := ContainsChinese(text[1..]);
      assert forall i :: 1 <= i < |text| ==> text[i] == text[1..][i - 1];
      b
  }

  lemma HanIsNotWs(c: char)
    requires IsHan(c)
    ensures !IsWs(c)
  {
  }

  // ---------------------------------------------------------------------------
  // Segmentation

  datatype Segment = Segment(text: string, isChinese: bool)

  /** The segment texts joined in order. */
  function Concat(segs: seq<Segment>): string {
    if |segs| == 0 then [] else Concat(segs[..|segs| - 1]) + segs[|segs| - 1].text
  }

  /** A non-empty segment whose characters all have the segment's class. */
  ghost predicate Uniform(seg: Segment) {
    seg.text != [] && forall i :: 0 <= i < |seg.text| ==> IsHan(seg.text[i]) == seg.isChinese
  }

  /** `segs` cuts `text` into maximal runs of one class: the texts concatenate to the
      input, every segment is uniform, and neighbouring segments differ in class. */
  ghost predicate IsRunPartition(segs: seq<Segment>, text: string) {
    && Concat(segs) == text
    && (forall k :: 0 <= k < |segs| ==> Uniform(segs[k]))
    && (forall k :: 0 <= k < |segs| - 1 ==> segs[k].isChinese != segs[k + 1].isChinese)
  }

  /** The runs after one more character: it extends the last run when it has that run's
      class, and opens a run otherwise. */
  function Step(init: seq<Segment>, c: char): seq<Segment> {
    if |init| > 0 && init[|init| - 1].isChinese == IsHan(c)
    then init[..|init| - 1] + [Segment(init[|init| - 1].text + [c], IsHan(c))]
    else init + [Segment([c], IsHan(c))]
  }

  /** The runs of `text`, built from the left one character at a time. */
  function Runs(text: string): seq<Segment>
    decreases |text|
  {
    if |text| == 0 then [] else Step(Runs(text[..|text| - 1]), text[|text| - 1])
  }

  lemma ConcatAppend(segs: seq<Segment>, seg: Segment)
    ensures Concat(segs + [seg]) == Concat(segs) + seg.text
  {
    assert (segs + [seg])[..|segs|] == segs;
  }

  /** Adding a character of the last segment's class extends that segment. */
  lemma PartitionExtend(init: seq<Segment>, pre: string, c: char)
    requires IsRunPartition(init, pre)
    requires |init| > 0 && init[|init| - 1].isChinese == IsHan(c)
    ensures IsRunPartition(init[..|init| - 1] + [Segment(init[|init| - 1].text + [c], IsHan(c))], pre + [c])
  {
    var front := init[..|init| - 1];
    var last := init[|init| - 1];
    var seg := Segment(last.text + [c], IsHan(c));
    var r := front + [seg];
    assert init == front + [last];
    ConcatAppend(front, last);
    ConcatAppend(front, seg);
    assert Uniform(seg) by {
      assert Uniform(init[|init| - 1]);
      forall i | 0 <= i < |seg.text| ensures IsHan(seg.text[i]) == seg.isChinese {
        if i < |last.text| { assert seg.text[i] == last.text[i]; }
      }
    }
    forall k | 0 <= k < |r| ensures Uniform(r[k]) {
      if k < |front| { assert r[k] == init[k]; }
    }
    forall k | 0 <= k < |r| - 1 ensures r[k].isChinese != r[k + 1].isChinese {
      assert r[k] == init[k];
      assert r[k + 1].isChinese == init[k + 1].isChinese;
    }
  }

  /** Adding a character of another class (or the first character) opens a segment. */
  lemma PartitionOpen(init: seq<Segment>, pre: string, c: char)
    requires IsRunPartition(init, pre)
    requires |init| == 0 || init[|init| - 1].isChinese != IsHan(c)
    ensures IsRunPartition(init + [Segment([c], IsHan(c))], pre + [c])
  {
    var seg := Segment([c], IsHan(c));
    var r := init + [seg];
    ConcatAppend(init, seg);
    forall k | 0 <= k < |r| ensures Uniform(r[k]) {
      if k < |init| { assert r[k] == init[k]; }
    }
    forall k | 0 <= k < |r| - 1 ensures r[k].isChinese != r[k + 1].isChinese {
      assert r[k] == init[k];
    }
  }

  /** Runs partitions its input. */
  lemma {:induction false} RunsPartition(text: string)
    ensures IsRunPartition(Runs(text), text)
    decreases |text|
  {
    if |text| > 0 {
      var pre := text[..|text| - 1];
      var c := text[|text| - 1];
      RunsPartition(pre);
      SplitLast(text);
      RunsUnfold(pre, c);
      var init := Runs(pre);
      if |init| > 0 && init[|init| - 1].isChinese == IsHan(c) {
        PartitionExtend(init, pre, c);
      } else {
        PartitionOpen(init, pre, c);
      }
    }
  }

  /** Dropping a one-character last segment leaves a partition of the shorter text. */
  lemma PartitionDropLast(segs: seq<Segment>, text: string)
    requires IsRunPartition(segs, text) && |segs| > 0 && |segs[|segs| - 1].text| == 1
    ensures text != [] && IsRunPartition(segs[..|segs| - 1], text[..|text| - 1])
    ensures segs[|segs| - 1] == Segment([text[|text| - 1]], IsHan(text[|text| - 1]))
    ensures |segs| >= 2 ==> segs[|segs| - 2].isChinese != IsHan(text[|text| - 1])
  {
    var front := segs[..|segs| - 1];
    var last := segs[|segs| - 1];
    assert segs == front + [last];
    ConcatAppend(front, last);
    assert Uniform(segs[|segs| - 1]);
    assert text[..|text| - 1] == Concat(front);
    forall k | 0 <= k < |front| ensures Uniform(front[k]) { assert front[k] == segs[k]; }
    forall k | 0 <= k < |front| - 1 ensures front[k].isChinese != front[k + 1].isChinese {
      assert front[k] == segs[k] && front[k + 1] == segs[k + 1];
    }
  }

  /** Removing the final character of a longer last segment leaves a partition of the
      shorter text. */
  lemma PartitionShortenLast(segs: seq<Segment>, text: string)
    requires IsRunPartition(segs, text) && |segs| > 0 && |segs[|segs| - 1].text| > 1
    ensures text != []
    ensures var last := segs[|segs| - 1];
      && last.text[|last.text| - 1] == text[|text| - 1]
      && last.isChinese == IsHan(text[|text| - 1])
      && IsRunPartition(segs[..|segs| - 1] + [Segment(last.text[..|last.text| - 1], last.isChinese)], text[..|text| - 1])
  {
    var front := segs[..|segs| - 1];
    var last := segs[|segs| - 1];
    var shorter := Segment(last.text[..|last.text| - 1], last.isChinese);
    var segs' := front + [shorter];
    assert segs == front + [last];
    ConcatAppend(front, last);
    ConcatAppend(front, shorter);
    assert Uniform(segs[|segs| - 1]);
    assert last.text == shorter.text + [last.text[|last.text| - 1]];
    assert text[..|text| - 1] == Concat(segs');
    forall k | 0 <= k < |segs'| ensures Uniform(segs'[k]) {
      if k < |front| { assert segs'[k] == segs[k]; }
    }
    forall k | 0 <= k < |segs'| - 1 ensures segs'[k].isChinese != segs'[k + 1].isChinese {
      assert segs'[k] == segs[k] && segs'[k + 1].isChinese == segs[k + 1].isChinese;
    }
  }

  /** Runs on a text one character longer, in terms of Runs on the shorter one. */
  lemma RunsSnoc(text: string, i: nat)
    requires i < |text|
    ensures Runs(text[..i + 1]) == Step(Runs(text[..i]), text[i])
  {
    assert text[..i + 1][..i] == text[..i];
  }

  /** A character after a closed-off last run either extends that run or opens a new one. */
  lemma StepAfterRun(front: seq<Segment>, current: string, isChinese: bool, c: char)
    ensures Step(front + [Segment(current, isChinese)], c)
         == if isChinese == IsHan(c) then front + [Segment(current + [c], isChinese)]
            else front + [Segment(current, isChinese)] + [Segment([c], IsHan(c))]
  {
    var init := front + [Segment(current, isChinese)];
    assert init[..|init| - 1] == front;
  }

  /** A one-character segment of another class than the last run opens a run. */
  lemma StepOpens(front: seq<Segment>, last: Segment, c: char)
    requires last == Segment([c], IsHan(c))
    requires |front| == 0 || front[|front| - 1].isChinese != IsHan(c)
    ensures Step(front, c) == front + [last]
  {
  }

  /** A character of the last run's class extends that run. */
  lemma StepExtends(front: seq<Segment>, last: Segment, c: char)
    requires |last.text| > 1 && last.text[|last.text| - 1] == c && last.isChinese == IsHan(c)
    ensures Step(front + [Segment(last.text[..|last.text| - 1], last.isChinese)], c) == front + [last]
  {
    var shorter := Segment(last.text[..|last.text| - 1], last.isChinese);
    var init := front + [shorter];
    assert init[..|init| - 1] == front && init[|init| - 1] == shorter;
    assert shorter.text + [c] == last.text;
  }

  lemma SplitLast<T>(xs: seq<T>)
    requires |xs| > 0
    ensures xs == xs[..|xs| - 1] + [xs[|xs| - 1]]
  {
  }

  /** The runs of a text one character longer are one step further. */
  lemma RunsUnfold(pre: string, c: char)
    ensures Runs(pre + [c]) == Step(Runs(pre), c)
  {
    assert (pre + [c])[..|pre|] == pre;
  }

  /** A one-character segment after the runs of the shorter text, of a class other than
      theirs, makes the runs of the whole text. */
  lemma UniqueSingleLast(front: seq<Segment>, last: Segment, pre: string, c: char)
    requires front == Runs(pre) && last == Segment([c], IsHan(c))
    requires |front| == 0 || front[|front| - 1].isChinese != IsHan(c)
    ensures front + [last] == Runs(pre + [c])
  {
    RunsUnfold(pre, c);
    StepOpens(front, last, c);
  }

  /** A last segment that extends the last run of the shorter text by the final character
      makes the runs of the whole text. */
  lemma UniqueLongLast(front: seq<Segment>, last: Segment, pre: string, c: char)
    requires |last.text| > 1 && last.text[|last.text| - 1] == c && last.isChinese == IsHan(c)
    requires front + [Segment(last.text[..|last.text| - 1], last.isChinese)] == Runs(pre)
    ensures front + [last] == Runs(pre + [c])
  {
    RunsUnfold(pre, c);
    StepExtends(front, last, c);
  }

  /** A run partition is unique: any segmentation with the three properties is Runs. */
  lemma {:induction false} RunPartitionUnique(segs: seq<Segment>, text: string)
    requires IsRunPartition(segs, text)
    ensures segs == Runs(text)
    decreases |text|, 1
  {
    if |segs| == 0 {
      assert text == [];
    } else if |segs[|segs| - 1].text| == 1 {
      UniqueDroppingLast(segs, text);
    } else {
      UniqueShorteningLast(segs, text);
    }
  }

  lemma {:induction false} UniqueDroppingLast(segs: seq<Segment>, text: string)
    requires IsRunPartition(segs, text) && |segs| > 0 && |segs[|segs| - 1].text| == 1
    ensures segs == Runs(text)
    decreases |text|, 0
  {
    PartitionDropLast(segs, text);
    var front, pre := segs[..|segs| - 1], text[..|text| - 1];
    RunPartitionUnique(front, pre);
    if |front| > 0 {
      assert front[|front| - 1] == segs[|segs| - 2];
    }
    UniqueSingleLast(front, segs[|segs| - 1], pre, text[|text| - 1]);
    SplitLast(segs);
    SplitLast(text);
  }

  lemma {:induction false} UniqueShorteningLast(segs: seq<Segment>, text: string)
    requires IsRunPartition(segs, text) && |segs| > 0 && |segs[|segs| - 1].text| > 1
    ensures segs == Runs(text)
    decreases |text|, 0
  {
    PartitionShortenLast(segs, text);
    var front, last, pre := segs[..|segs| - 1], segs[|segs| - 1], text[..|text| - 1];
    RunPartitionUnique(front + [Segment(last.text[..|last.text| - 1], last.isChinese)], pre);
    UniqueLongLast(front, last, pre, text[|text| - 1]);
    SplitLast(segs);
    SplitLast(text);
  }

  /** One iteration of the segmentation loop: the runs of one more character are the
      closed segments, plus the open one when the character's class differs, followed by
      the open segment extended by that character. */
  lemma SplitStep(text: string, i: nat, segs: seq<Segment>, current: string, isChinese: bool)
    requires i < |text|
    requires i == 0 ==> segs == [] && current == []
    requires i > 0 ==> current != [] && Runs(text[..i]) == segs + [Segment(current, isChinese)]
    ensures var c := text[i];
      var closes := IsHan(c) != isChinese && |current| > 0;
      Runs(text[..i + 1])
      == (if closes then segs + [Segment(current, isChinese)] else segs)
         + [Segment((if closes then [] else current) + [c], IsHan(c))]
  {
    RunsSnoc(text, i);
    if i == 0 {
      assert text[..0] == [];
    } else {
      StepAfterRun(segs, current, isChinese, text[i]);
      assert [] + [text[i]] == [text[i]];
    }
  }

  /** The segmentation loop of `convertChineseToKatakana`: a class change closes the
      current segment, and the last segment is closed after the loop. */
  method SplitSegments(text: string) returns (segments: seq<Segment>)
    ensures segments == Runs(text)
    ensures IsRunPartition(segments, text)
  {
    segments := [];
    var currentSegment: string := [];
    var isChineseSegment := false;
    for i := 0 to |text|
      invariant i == 0 ==> segments == [] && currentSegment == []
      invariant i > 0 ==> currentSegment != [] && Runs(text[..i]) == segments + [Segment(currentSegment, isChineseSegment)]
    {
      var c := text[i];
      var isCharChinese := ContainsChinese([c]);
      assert [c][0] == c;
      assert isCharChinese == IsHan(c);
      SplitStep(text, i, segments, currentSegment, isChineseSegment);
      if isCharChinese != isChineseSegment && |currentSegment| > 0 {
        segments := segments + [Segment(currentSegment, isChineseSegment)];
        currentSegment := [];
      }
      currentSegment := currentSegment + [c];
      isChineseSegment := isCharChinese;
    }
    assert text[..|text|] == text;
    if |currentSegment| > 0 {
      segments := segments + [Segment(currentSegment, isChineseSegment)];
    }
    RunsPartition(text);
  }

  // ---------------------------------------------------------------------------
  // `\uXXXX` escapes

  predicate IsHexDigit(c: char) {
    ('0' <= c <= '9') || ('a' <= c <= 'f') || ('A' <= c <= 'F')
  }

  function HexDigitValue(c: char): (v: nat)
    requires IsHexDigit(c)
    ensures v < 16
  {
    if '0' <= c <= '9' then c as int - '0' as int
    else if 'a' <= c <= 'f' then c as int - 'a' as int + 10
    else c as int - 'A' as int + 10
  }

  /** `parseInt(hex, 16)` on four hex digits. */
  function Hex4Value(h: string): (v: nat)
    requires |h| == 4 && forall k :: 0 <= k < 4 ==> IsHexDigit(h[k])
    ensures v < 0x1_0000
  {
    HexDigitValue(h[0]) * 0x1000 + HexDigitValue(h[1]) * 0x100 + HexDigitValue(h[2]) * 0x10 + HexDigitValue(h[3])
  }

  predicate IsSurrogate(v: int) {
    0xD800 <= v <= 0xDFFF
  }

  /** `s` starts with a backslash, `u` and four hex digits naming a code unit that a
      character can hold. */
  predicate EscapeAt(s: string) {
    && |s| >= 6 && s[0] == '\\' && s[1] == 'u'
    && IsHexDigit(s[2]) && IsHexDigit(s[3]) && IsHexDigit(s[4]) && IsHexDigit(s[5])
    && !IsSurrogate(Hex4Value(s[2..6]))
  }

  /** `decodeUnicodeEscapes`: a global, left-to-right replacement of each escape by the
      character it names. */
  function DecodeUnicodeEscapes(s: string): (r: string)
    ensures |r| <= |s|
    decreases |s|
  {
    if |s| == 0 then []
    else if EscapeAt(s) then [Hex4Value(s[2..6]) as char] + DecodeUnicodeEscapes(s[6..])
    else [s[0]] + DecodeUnicodeEscapes(s[1..])
  }

  /** Text holding no escape is returned unchanged. */
  lemma {:induction false} DecodeWithoutEscapes(s: string)
    requires forall i :: 0 <= i <= |s| ==> !EscapeAt(s[i..])
    ensures DecodeUnicodeEscapes(s) == s
    decreases |s|
  {
    if |s| > 0 {
      assert s[0..] == s;
      forall i | 0 <= i <= |s| - 1 ensures !EscapeAt(s[1..][i..]) {
        assert s[1..][i..] == s[i + 1..];
      }
      DecodeWithoutEscapes(s[1..]);
    }
  }

  /** In mixed text, an escape that follows text in which no escape starts becomes the
      character it names, and decoding carries on after it. */
  lemma {:induction false} DecodeEscapeAfter(p: string, esc: string, q: string)
    requires |esc| == 6 && EscapeAt(esc)
    requires forall i :: 0 <= i < |p| ==> !EscapeAt((p + esc + q)[i..])
    ensures DecodeUnicodeEscapes(p + esc + q) == p + [Hex4Value(esc[2..6]) as char] + DecodeUnicodeEscapes(q)
    decreases |p|
  {
    if |p| == 0 {
      assert p + esc + q == esc + q;
      DecodeEscapeFirst(esc, q);
    } else {
      var s := p + esc + q;
      var t := p[1..] + esc + q;
      assert s[1..] == t;
      forall i | 0 <= i < |p| - 1 ensures !EscapeAt(t[i..]) {
        assert t[i..] == s[i + 1..];
      }
      DecodeEscapeAfter(p[1..], esc, q);
      assert s[0..] == s;
      DecodePlain(s);
      assert p == [p[0]] + p[1..];
    }
  }

  /** An escape at the start becomes its character. */
  lemma DecodeEscapeFirst(esc: string, q: string)
    requires |esc| == 6 && EscapeAt(esc)
    ensures DecodeUnicodeEscapes(esc + q) == [Hex4Value(esc[2..6]) as char] + DecodeUnicodeEscapes(q)
  {
    var s := esc + q;
    assert s[2..6] == esc[2..6];
    assert s[6..] == q;
  }

  /** A character that starts no escape is copied. */
  lemma DecodePlain(s: string)
    requires |s| > 0 && !EscapeAt(s)
    ensures DecodeUnicodeEscapes(s) == [s[0]] + DecodeUnicodeEscapes(s[1..])
  {
  }

  function HexDigitChar(d: nat): (c: char)
    requires d < 16
    ensures IsHexDigit(c) && HexDigitValue(c) == d
  {
    if d < 10 then ('0' as int + d) as char else ('a' as int + d - 10) as char
  }

  /** The escape `\uXXXX` (lower-case hex) of a Basic Multilingual Plane character. */
  function Escape(c: char): (e: string)
    requires c as int < 0x1_0000
    ensures |e| == 6
  {
    var q1 := c as int / 16;
    var q2 := q1 / 16;
    "\\u" + [HexDigitChar(q2 / 16), HexDigitChar(q2 % 16), HexDigitChar(q1 % 16), HexDigitChar(c as int % 16)]
  }

  function EscapeAll(s: string): string
    requires forall k :: 0 <= k < |s| ==> s[k] as int < 0x1_0000
  {
    if |s| == 0 then [] else Escape(s[0]) + EscapeAll(s[1..])
  }

  lemma EscapeValue(c: char)
    requires c as int < 0x1_0000
    ensures EscapeAt(Escape(c)) && Hex4Value(Escape(c)[2..6]) == c as int
  {
    var n := c as int;
    var q1 := n / 16;
    var q2 := q1 / 16;
    var e := Escape(c);
    assert e[2..6] == [HexDigitChar(q2 / 16), HexDigitChar(q2 % 16), HexDigitChar(q1 % 16), HexDigitChar(n % 16)];
    assert n == q1 * 16 + n % 16 && q1 == q2 * 16 + q1 % 16 && q2 == (q2 / 16) * 16 + q2 % 16;
    assert Hex4Value(e[2..6]) == (q2 / 16) * 0x1000 + (q2 % 16) * 0x100 + (q1 % 16) * 0x10 + n % 16;
  }

  /** Decoding undoes escaping: the service's escaped katakana decode to the characters. */
  lemma {:induction false} DecodeEscapeAll(s: string)
    requires forall k :: 0 <= k < |s| ==> s[k] as int < 0x1_0000
    ensures DecodeUnicodeEscapes(EscapeAll(s)) == s
  {
    if |s| > 0 {
      var e := EscapeAll(s);
      EscapeValue(s[0]);
      assert e[..6] == Escape(s[0]) && e[6..] == EscapeAll(s[1..]);
      assert e[2..6] == Escape(s[0])[2..6];
      DecodeEscapeAll(s[1..]);
    }
  }

  // ---------------------------------------------------------------------------
  // Joining converted parts

  /** `f` of every element of `xs`, joined in order. */
  function FlatMap<T>(xs: seq<T>, f: T -> string): string {
    if |xs| == 0 then [] else FlatMap(xs[..|xs| - 1], f) + f(xs[|xs| - 1])
  }

  lemma {:induction false} FlatMapAppend<T>(a: seq<T>, b: seq<T>, f: T -> string)
    ensures FlatMap(a + b, f) == FlatMap(a, f) + FlatMap(b, f)
    decreases |b|
  {
    if |b| == 0 {
      assert a + b == a;
    } else {
      var b' := b[..|b| - 1];
      assert (a + b)[..|a + b| - 1] == a + b';
      FlatMapAppend(a, b', f);
    }
  }

  lemma FlatMapSnoc<T>(xs: seq<T>, k: nat, f: T -> string)
    requires k < |xs|
    ensures FlatMap(xs[..k + 1], f) == FlatMap(xs[..k], f) + f(xs[k])
  {
    assert xs[..k + 1][..k] == xs[..k] && xs[..k + 1][k] == xs[k];
  }

  /** An element contributes `f` of itself between the parts before and after it. */
  lemma FlatMapAt<T>(xs: seq<T>, k: nat, f: T -> string)
    requires k < |xs|
    ensures FlatMap(xs, f) == FlatMap(xs[..k], f) + f(xs[k]) + FlatMap(xs[k + 1..], f)
  {
    assert xs == xs[..k + 1] + xs[k + 1..];
    FlatMapAppend(xs[..k + 1], xs[k + 1..], f);
    FlatMapSnoc(xs, k, f);
  }

  /** Characters that each stand for themselves join to the text itself. */
  lemma {:induction false} FlatMapIdentity(text: string, f: char -> string)
    requires forall k :: 0 <= k < |text| ==> f(text[k]) == [text[k]]
    ensures FlatMap(text, f) == text
    decreases |text|
  {
    if |text| > 0 {
      var pre := text[..|text| - 1];
      assert forall k :: 0 <= k < |pre| ==> pre[k] == text[k];
      FlatMapIdentity(pre, f);
      assert pre + [text[|text| - 1]] == text;
    }
  }

  // ---------------------------------------------------------------------------
  // Per-character conversion

  /** The lookup succeeded with a truthy `Pinyin_k_sei`. */
  predicate Converted(reading: Option<string>) {
    reading.Some? && reading.value != []
  }

  /** What one character appends to the result of `convertSingleChinese`. */
  function Piece(c: char, lookup: char -> Option<string>, addSpaces: bool): string {
    if IsHan(c) && Converted(lookup(c)) then
      var katakana := DecodeUnicodeEscapes(lookup(c).value);
      if addSpaces then katakana + " " else katakana
    else [c]
  }

  function PieceOf(lookup: char -> Option<string>, addSpaces: bool): char -> string {
    c => Piece(c, lookup, addSpaces)
  }

  /** The pieces of all characters, in order, before the final trim. */
  function Pieces(text: string, lookup: char -> Option<string>, addSpaces: bool): string {
    FlatMap(text, PieceOf(lookup, addSpaces))
  }

  /** Conversion works character by character: converting a concatenation concatenates
      the conversions. */
  lemma PiecesAppend(a: string, b: string, lookup: char -> Option<string>, addSpaces: bool)
    ensures Pieces(a + b, lookup, addSpaces) == Pieces(a, lookup, addSpaces) + Pieces(b, lookup, addSpaces)
  {
    FlatMapAppend(a, b, PieceOf(lookup, addSpaces));
  }

  /** A character whose lookup fails, and any non-Han character, stands for itself;
      a converted one contributes its decoded katakana, then one space if asked for. */
  lemma PieceCases(c: char, lookup: char -> Option<string>, addSpaces: bool)
    ensures !IsHan(c) || !Converted(lookup(c)) ==> Piece(c, lookup, addSpaces) == [c]
    ensures IsHan(c) && Converted(lookup(c)) && addSpaces ==>
      Piece(c, lookup, addSpaces) == DecodeUnicodeEscapes(lookup(c).value) + " "
  {
  }

  /** A character contributes its piece at its own place in the output, whatever the
      neighbours do: one failure does not disturb the rest of the conversion. */
  lemma PiecesAt(text: string, i: nat, lookup: char -> Option<string>, addSpaces: bool)
    requires i < |text|
    ensures Pieces(text, lookup, addSpaces) ==
      Pieces(text[..i], lookup, addSpaces) + Piece(text[i], lookup, addSpaces) + Pieces(text[i + 1..], lookup, addSpaces)
  {
    FlatMapAt(text, i, PieceOf(lookup, addSpaces));
  }

  /** When no Han character converts, the pieces are the input itself. */
  lemma PiecesAllFailed(text: string, lookup: char -> Option<string>, addSpaces: bool)
    requires forall k :: 0 <= k < |text| && IsHan(text[k]) ==> !Converted(lookup(text[k]))
    ensures Pieces(text, lookup, addSpaces) == text
  {
    var f := PieceOf(lookup, addSpaces);
    forall k | 0 <= k < |text| ensures f(text[k]) == [text[k]] {
      PieceCases(text[k], lookup, addSpaces);
    }
    FlatMapIdentity(text, f);
  }

  /** `convertSingleChinese`: the converted pieces of each character, trimmed. */
  method ConvertSingleChinese(chineseText: string, lookup: char -> Option<string>, addSpaces: bool) returns (r: string)
    ensures r == Trim(Pieces(chineseText, lookup, addSpaces))
  {
    var result: string := [];
    for i := 0 to |chineseText|
      invariant result == Pieces(chineseText[..i], lookup, addSpaces)
    {
      var c := chineseText[i];
      FlatMapSnoc(chineseText, i, PieceOf(lookup, addSpaces));
      assert [c][0] == c;
      if ContainsChinese([c]) {
        var reading := lookup(c);
        if reading.Some? && reading.value != [] {
          var katakana := DecodeUnicodeEscapes(reading.value);
          result := result + (if addSpaces then katakana + " " else katakana);
        } else {
          result := result + [c];
        }
      } else {
        result := result + [c];
      }
    }
    assert chineseText[..|chineseText|] == chineseText;
    r := Trim(result);
  }

  // ---------------------------------------------------------------------------
  // Whole-text conversion

  /** What one segment becomes: Han runs are converted, other runs are kept verbatim. */
  function ConvertSegment(seg: Segment, lookup: char -> Option<string>, addSpaces: bool): string {
    if seg.isChinese then Trim(Pieces(seg.text, lookup, addSpaces)) else seg.text
  }

  function ConvertOf(lookup: char -> Option<string>, addSpaces: bool): Segment -> string {
    seg => ConvertSegment(seg, lookup, addSpaces)
  }

  /** The converted segments joined in their original order. */
  function Reassemble(segs: seq<Segment>, lookup: char -> Option<string>, addSpaces: bool): string {
    FlatMap(segs, ConvertOf(lookup, addSpaces))
  }

  /** A non-Han segment appears verbatim, between the output of the segments before it
      and the output of the segments after it. */
  lemma NonChineseSegmentVerbatim(segs: seq<Segment>, k: nat, lookup: char -> Option<string>, addSpaces: bool)
    requires k < |segs| && !segs[k].isChinese
    ensures Reassemble(segs, lookup, addSpaces) ==
      Reassemble(segs[..k], lookup, addSpaces) + segs[k].text + Reassemble(segs[k + 1..], lookup, addSpaces)
  {
    FlatMapAt(segs, k, ConvertOf(lookup, addSpaces));
  }

  /** When no Han character converts, reassembly gives back the text of the segments. */
  lemma {:induction false} ReassembleAllFailed(segs: seq<Segment>, lookup: char -> Option<string>, addSpaces: bool)
    requires forall k :: 0 <= k < |segs| ==> Uniform(segs[k])
    requires forall c :: IsHan(c) ==> !Converted(lookup(c))
    ensures Reassemble(segs, lookup, addSpaces) == Concat(segs)
    decreases |segs|
  {
    if |segs| > 0 {
      var last := segs[|segs| - 1];
      ReassembleAllFailed(segs[..|segs| - 1], lookup, addSpaces);
      if last.isChinese {
        PiecesAllFailed(last.text, lookup, addSpaces);
        HanIsNotWs(last.text[0]);
        HanIsNotWs(last.text[|last.text| - 1]);
        TrimIdentity(last.text);
      }
    }
  }

  /** `convertChineseToKatakana`. The segments are converted one after another; the
      source overlaps their network waits, which leaves the result unchanged. */
  method ConvertChineseToKatakana(text: string, lookup: char -> Option<string>, addSpaces: bool) returns (r: string)
    ensures !ContainsChinese(text) ==> r == text
    ensures ContainsChinese(text) ==> r == Trim(Reassemble(Runs(text), lookup, addSpaces))
  {
    if !ContainsChinese(text) {
      return text;
    }
    var segments := SplitSegments(text);
    var joined: string := [];
    for k := 0 to |segments|
      invariant joined == Reassemble(segments[..k], lookup, addSpaces)
    {
      FlatMapSnoc(segments, k, ConvertOf(lookup, addSpaces));
      var converted: string;
      if !segments[k].isChinese {
        converted := segments[k].text;
      } else {
        converted := ConvertSingleChinese(segments[k].text, lookup, addSpaces);
      }
      assert converted == ConvertSegment(segments[k], lookup, addSpaces);
      joined := joined + converted;
    }
    assert segments[..|segments|] == segments;
    r := Trim(joined);
  }

  /** With the service down, text holding Han characters comes back trimmed and
      otherwise unchanged, while text without them comes back untouched. */
  lemma ConversionWithServiceDown(text: string, lookup: char -> Option<string>, addSpaces: bool)
    requires forall c :: IsHan(c) ==> !Converted(lookup(c))
    requires ContainsChinese(text)
    ensures Trim(Reassemble(Runs(text), lookup, addSpaces)) == Trim(text)
  {
    RunsPartition(text);
    ReassembleAllFailed(Runs(text), lookup, addSpaces);
  }

  /** What the batch converter makes of one element: elements holding Han characters
      are converted without spaces, the others are copied. */
  function BatchItem(x: string, lookup: char -> Option<string>): string {
    if ContainsChinese(x) then Trim(Pieces(x, lookup, false)) else x
  }

  /** The body of the batch loop for one element. */
  method ConvertBatchItem(s: string, lookup: char -> Option<string>) returns (item: string)
    ensures ContainsChinese(s) ==> item == Trim(Pieces(s, lookup, false))
    ensures !ContainsChinese(s) ==> item == s
  {
    if ContainsChinese(s) {
      item := ConvertSingleChinese(s, lookup, false);
    } else {
      item := s;
    }
  }

  /** `batchConvertChinese`: one result per element, in order. */
  method BatchConvertChinese(chineseChars: seq<string>, lookup: char -> Option<string>) returns (results: seq<string>)
    ensures |results| == |chineseChars|
    ensures forall k :: 0 <= k < |results| ==> results[k] == BatchItem(chineseChars[k], lookup)
  {
    results := [];
    for i := 0 to |chineseChars|
      invariant |results| == i
      invariant forall k :: 0 <= k < i ==> results[k] == BatchItem(chineseChars[k], lookup)
    {
      var item := ConvertBatchItem(chineseChars[i], lookup);
      ghost var prev := results;
      results := results + [item];
      forall k | 0 <= k < i + 1 ensures results[k] == BatchItem(chineseChars[k], lookup) {
        if k < i { assert results[k] == prev[k]; }
      }
    }
  }
}
