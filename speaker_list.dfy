/**
 * `#vv list [term]`: with a term, the speakers whose name or id matches it; without one,
 * an overview that groups the speakers by main character name, orders the groups by the
 * id of their first member and shows at most fifteen of them.
 */
module SpeakerList {
  import opened Wrappers
  import opened JsString

  datatype Speaker = Speaker(name: string, id: int)

  // ---------------------------------------------------------------------------
  // Filtering

  /** The filter callback: the lower-cased name contains the lower-cased term, or the
      name contains the term, or the id prints as the term. `toLower` is
      `String.prototype.toLowerCase`. */
  predicate Matches(s: Speaker, term: string, toLower: string -> string) {
    Includes(toLower(s.name), toLower(term)) || Includes(s.name, term) || IntToString(s.id) == term
  }

  /** `list.filter(...)`: the matching speakers, in list order. */
  function FilterSpeakers(list: seq<Speaker>, term: string, toLower: string -> string): (r: seq<Speaker>)
    ensures |r| <= |list|
    ensures forall s :: s in r <==> s in list && Matches(s, term, toLower)
  {
    if |list| == 0 then []
    else
      var rest := FilterSpeakers(list[1..], term, toLower);
      assert forall s :: s in list <==> s == list[0] || s in list[1..];
      if Matches(list[0], term, toLower) then [list[0]] + rest else rest
  }

  /** Filtering keeps the list order: the result is the list with the non-matching
      speakers removed, so filtering a concatenation filters each part. */
  lemma {:induction false} FilterAppend(a: seq<Speaker>, b: seq<Speaker>, term: string, toLower: string -> string)
    ensures FilterSpeakers(a + b, term, toLower) == FilterSpeakers(a, term, toLower) + FilterSpeakers(b, term, toLower)
  {
    if |a| > 0 {
      var ab := a + b;
      assert ab[0] == a[0];
      assert ab[1..] == a[1..] + b;
      FilterAppend(a[1..], b, term, toLower);
    } else {
      assert a + b == b;
    }
  }

  /** A term that is an id always finds the speaker with that id: ids print to distinct
      texts, so among the speakers that match on the id itself only the one with
      that id appears. */
  lemma IdTermFindsSpeaker(list: seq<Speaker>, s: Speaker, toLower: string -> string)
    requires s in list
    ensures s in FilterSpeakers(list, IntToString(s.id), toLower)
    ensures forall t :: t in list && IntToString(t.id) == IntToString(s.id) ==> t.id == s.id
  {
    forall t | t in list && IntToString(t.id) == IntToString(s.id) ensures t.id == s.id {
      IntToStringInjective(t.id, s.id);
    }
  }

  // ---------------------------------------------------------------------------
  // Main character names

  /** The variant qualifiers that, besides any hiragana letter, end a main name. */
  const Qualifiers: seq<string> := [
    "甜", "傲娇", "性感", "耳语", "窃窃私语", "虚弱", "哭泣", "开心", "愤怒", "悲伤",
    "温柔", "不爽", "热血", "冷静", "兴奋", "强势", "害羞", "惊讶", "害怕", "元气",
    "撒娇", "男孩", "实况", "胆怯", "绝望", "严肃", "甜甜", "二形态", "萝莉", "轻松",
    "恐怖", "悄悄话", "觉醒", "低血压", "女王", "人类", "玩偶", "鬼形态", "播报", "朗读",
    "第二形态"]

  /** The hiragana class `[あ-ん]`. */
  predicate IsHiragana(c: char) {
    'あ' <= c <= 'ん'
  }

  /** The split pattern matches at position `q` of `name`. */
  predicate DelimiterAt(name: string, q: nat)
    requires q < |name|
  {
    IsHiragana(name[q]) || exists k :: 0 <= k < |Qualifiers| && StartsWith(name[q..], Qualifiers[k])
  }

  /** The first position at which the split pattern matches, or `|name|`. */
  function FirstDelimiter(name: string, from: nat): (q: nat)
    requires from <= |name|
    ensures from <= q <= |name|
    ensures q < |name| ==> DelimiterAt(name, q)
    ensures forall p :: from <= p < q ==> !DelimiterAt(name, p)
    decreases |name| - from
  {
    if from == |name| then from
    else if DelimiterAt(name, from) then from
    else FirstDelimiter(name, from + 1)
  }

  /** `name.split(pattern)[0] || name`: the text before the first qualifier or hiragana
      letter; the whole name when there is none, or when the name starts with one (the
      first piece is then empty, hence falsy). */
  function MainName(name: string): (m: string)
    ensures StartsWith(name, m)
    ensures m == [] <==> name == []
    ensures |m| < |name| ==>
      0 < |m| && DelimiterAt(name, |m|) && forall p :: 0 <= p < |m| ==> !DelimiterAt(name, p)
    ensures m == name && name != [] ==>
      DelimiterAt(name, 0) || forall p :: 0 <= p < |name| ==> !DelimiterAt(name, p)
  {
    var q := FirstDelimiter(name, 0);
    if 0 < q < |name| then name[..q] else name
  }

  /** A pattern match inside a prefix is a match in the whole name. */
  lemma DelimiterInPrefix(name: string, q: nat, p: nat)
    requires p < q <= |name| && DelimiterAt(name[..q], p)
    ensures DelimiterAt(name, p)
  {
    assert name[..q][p] == name[p];
    if !IsHiragana(name[p]) {
      var k :| 0 <= k < |Qualifiers| && StartsWith(name[..q][p..], Qualifiers[k]);
      assert name[..q][p..] == name[p..q];
      assert name[p..][..|Qualifiers[k]|] == name[p..q][..|Qualifiers[k]|];
    }
  }

  /** A main name is its own main name: it holds no qualifier and no hiragana letter
      (except at its start, which never shortens it), so regrouping is stable. */
  lemma {:induction false} MainNameIdempotent(name: string)
    ensures MainName(MainName(name)) == MainName(name)
  {
    var q := FirstDelimiter(name, 0);
    if 0 < q < |name| {
      var m := name[..q];
      forall p | 0 <= p < |m| ensures !DelimiterAt(m, p) {
        if DelimiterAt(m, p) { DelimiterInPrefix(name, q, p); }
      }
      assert FirstDelimiter(m, 0) == |m|;
    }
  }

  // ---------------------------------------------------------------------------
  // Grouping

  /** The main names in order of first appearance (the insertion order of the group
      object's keys). */
  function GroupKeys(list: seq<Speaker>): seq<string> {
    if list == [] then []
    else
      var ks := GroupKeys(list[..|list| - 1]);
      var m := MainName(list[|list| - 1].name);
      if m in ks then ks else ks + [m]
  }

  /** The speakers of one group, in list order. */
  function Members(list: seq<Speaker>, key: string): seq<Speaker> {
    if list == [] then []
    else
      var s := list[|list| - 1];
      Members(list[..|list| - 1], key) + (if MainName(s.name) == key then [s] else [])
  }

  /** Every main name of the list is a key, exactly once, and nothing else is. */
  lemma {:induction false} GroupKeysSpec(list: seq<Speaker>)
    ensures forall i, j :: 0 <= i < j < |GroupKeys(list)| ==> GroupKeys(list)[i] != GroupKeys(list)[j]
    ensures forall k :: k in GroupKeys(list) <==> exists s :: s in list && MainName(s.name) == k
  {
    if list != [] {
      var init := list[..|list| - 1];
      assert list == init + [list[|list| - 1]];
      GroupKeysSpec(init);
    }
  }

  /** A group holds exactly the speakers with its main name. */
  lemma {:induction false} MembersSpec(list: seq<Speaker>, key: string)
    ensures forall s :: s in Members(list, key) <==> s in list && MainName(s.name) == key
  {
    if list != [] {
      var init := list[..|list| - 1];
      assert list == init + [list[|list| - 1]];
      MembersSpec(init, key);
    }
  }

  /** No group is empty. */
  lemma GroupsNonEmpty(list: seq<Speaker>, key: string)
    requires key in GroupKeys(list)
    ensures Members(list, key) != []
  {
    GroupKeysSpec(list);
    var s :| s in list && MainName(s.name) == key;
    MembersSpec(list, key);
  }

  /** One more speaker: its main name becomes a key if new, and it joins that group. */
  lemma GroupStep(list: seq<Speaker>, i: nat)
    requires i < |list|
    ensures var m := MainName(list[i].name);
      && GroupKeys(list[..i + 1]) == (if m in GroupKeys(list[..i]) then GroupKeys(list[..i]) else GroupKeys(list[..i]) + [m])
      && Members(list[..i + 1], m) == Members(list[..i], m) + [list[i]]
      && forall k :: k != m ==> Members(list[..i + 1], k) == Members(list[..i], k)
  {
    assert list[..i + 1][..i] == list[..i] && list[..i + 1][i] == list[i];
  }

  /** A name that is not yet a key has no members yet. */
  lemma {:induction false} NoKeyNoMembers(list: seq<Speaker>, k: string)
    requires k !in GroupKeys(list)
    ensures Members(list, k) == []
  {
    if list != [] {
      NoKeyNoMembers(list[..|list| - 1], k);
    }
  }

  /** The grouping loop of `handleSpeakerList`: every speaker is appended to the group of
      its main name, and a group is created the first time its name is seen. */
  method GroupSpeakers(list: seq<Speaker>) returns (keys: seq<string>, groups: map<string, seq<Speaker>>)
    ensures keys == GroupKeys(list)
    ensures forall k :: k in groups <==> k in keys
    ensures forall k :: k in groups ==> groups[k] == Members(list, k)
  {
    keys := [];
    groups := map[];
    for i := 0 to |list|
      invariant keys == GroupKeys(list[..i])
      invariant forall k :: k in groups <==> k in keys
      invariant forall k :: k in groups ==> groups[k] == Members(list[..i], k)
    {
      var s := list[i];
      var main := MainName(s.name);
      GroupStep(list, i);
      ghost var before := groups;
      if main !in groups {
        NoKeyNoMembers(list[..i], main);
        groups := groups[main := [s]];
        keys := keys + [main];
      } else {
        groups := groups[main := groups[main] + [s]];
      }
      assert keys == GroupKeys(list[..i + 1]);
      assert forall k :: k in groups <==> k in keys;
      forall k | k in groups ensures groups[k] == Members(list[..i + 1], k) {
        if k != main { assert groups[k] == before[k]; }
      }
    }
    assert list[..|list|] == list;
  }

  // ---------------------------------------------------------------------------
  // Ordering the groups

  datatype Group = Group(mainName: string, variants: seq<Speaker>)

  /** The id of a group's first member (groups are never empty). */
  function FirstId(g: Group): int {
    if g.variants == [] then 0 else g.variants[0].id
  }

  predicate SortedByFirstId(gs: seq<Group>) {
    forall i, j :: 0 <= i < j < |gs| ==> FirstId(gs[i]) <= FirstId(gs[j])
  }

  /** Inserts `g` before the first group whose first id is not smaller, so that `g` stays
      ahead of the groups it ties with. */
  function Insert(g: Group, sorted: seq<Group>): (r: seq<Group>)
    ensures multiset(r) == multiset(sorted) + multiset{g}
  {
    if |sorted| == 0 then [g]
    else if FirstId(g) <= FirstId(sorted[0]) then [g] + sorted
    else
      assert sorted == [sorted[0]] + sorted[1..];
      [sorted[0]] + Insert(g, sorted[1..])
  }

  lemma {:induction false} InsertLowerBound(g: Group, sorted: seq<Group>, b: int)
    requires FirstId(g) >= b && forall i :: 0 <= i < |sorted| ==> FirstId(sorted[i]) >= b
    ensures forall i :: 0 <= i < |Insert(g, sorted)| ==> FirstId(Insert(g, sorted)[i]) >= b
  {
    if |sorted| > 0 && FirstId(g) > FirstId(sorted[0]) {
      InsertLowerBound(g, sorted[1..], b);
    }
  }

  lemma {:induction false} InsertSorted(g: Group, sorted: seq<Group>)
    requires SortedByFirstId(sorted)
    ensures SortedByFirstId(Insert(g, sorted))
  {
    if |sorted| > 0 {
      if FirstId(g) <= FirstId(sorted[0]) {
        SortedCons(g, sorted);
      } else {
        InsertSorted(g, sorted[1..]);
        InsertLowerBound(g, sorted[1..], FirstId(sorted[0]));
        SortedCons(sorted[0], Insert(g, sorted[1..]));
      }
    }
  }

  /** A group no later than every group of a sorted list can go in front of it. */
  lemma SortedCons(x: Group, rest: seq<Group>)
    requires SortedByFirstId(rest) && forall i :: 0 <= i < |rest| ==> FirstId(x) <= FirstId(rest[i])
    ensures SortedByFirstId([x] + rest)
  {
    var r := [x] + rest;
    forall i, j | 0 <= i < j < |r| ensures FirstId(r[i]) <= FirstId(r[j]) {
      assert r[j] == rest[j - 1];
      if i > 0 { assert r[i] == rest[i - 1]; }
    }
  }

  /** `Object.entries(groups).sort((a, b) => a[1][0].id - b[1][0].id)`, a stable sort
      by the id of each group's first member. */
  function SortByFirstId(gs: seq<Group>): (r: seq<Group>)
    ensures multiset(r) == multiset(gs)
  {
    if |gs| == 0 then []
    else
      assert gs == [gs[0]] + gs[1..];
      Insert(gs[0], SortByFirstId(gs[1..]))
  }

  /** The sort orders the groups and loses none of them. */
  lemma {:induction false} SortByFirstIdSorted(gs: seq<Group>)
    ensures SortedByFirstId(SortByFirstId(gs))
    ensures |SortByFirstId(gs)| == |gs|
  {
    if |gs| > 0 {
      SortByFirstIdSorted(gs[1..]);
      InsertSorted(gs[0], SortByFirstId(gs[1..]));
    }
    assert |multiset(SortByFirstId(gs))| == |multiset(gs)|;
  }

  /** The groups whose first id is `k`, in list order. */
  function WithFirstId(gs: seq<Group>, k: int): seq<Group> {
    if |gs| == 0 then [] else (if FirstId(gs[0]) == k then [gs[0]] else []) + WithFirstId(gs[1..], k)
  }

  lemma WithFirstIdCons(x: Group, xs: seq<Group>, k: int)
    ensures WithFirstId([x] + xs, k) == (if FirstId(x) == k then [x] else []) + WithFirstId(xs, k)
  {
    assert ([x] + xs)[1..] == xs;
  }

  /** Inserting `g` puts it ahead of every group it ties with and moves no other group
      past one it ties with. */
  lemma {:induction false} InsertKeepsTies(g: Group, sorted: seq<Group>, k: int)
    ensures WithFirstId(Insert(g, sorted), k) == (if FirstId(g) == k then [g] else []) + WithFirstId(sorted, k)
  {
    if |sorted| == 0 {
      WithFirstIdCons(g, [], k);
    } else if FirstId(g) <= FirstId(sorted[0]) {
      WithFirstIdCons(g, sorted, k);
    } else {
      var rest := sorted[1..];
      InsertKeepsTies(g, rest, k);
      WithFirstIdCons(sorted[0], Insert(g, rest), k);
      assert sorted == [sorted[0]] + rest;
      WithFirstIdCons(sorted[0], rest, k);
    }
  }

  /** The sort is stable: groups with the same first id keep their relative order. */
  lemma {:induction false} SortByFirstIdStable(gs: seq<Group>, k: int)
    ensures WithFirstId(SortByFirstId(gs), k) == WithFirstId(gs, k)
  {
    if |gs| > 0 {
      SortByFirstIdStable(gs[1..], k);
      InsertKeepsTies(gs[0], SortByFirstId(gs[1..]), k);
    }
  }

  /** The groups in key order, as `Object.entries` lists them. */
  function Entries(keys: seq<string>, groups: map<string, seq<Speaker>>): (es: seq<Group>)
    requires forall k :: k in keys ==> k in groups
    ensures |es| == |keys| && forall i :: 0 <= i < |keys| ==> es[i] == Group(keys[i], groups[keys[i]])
  {
    if keys == [] then [] else [Group(keys[0], groups[keys[0]])] + Entries(keys[1..], groups)
  }

  // ---------------------------------------------------------------------------
  // The overview

  const MaxShow: nat := 15

  /** One overview line: the main name, the id of its first member and the number of
      further variants (shown only when positive). */
  datatype OverviewLine = OverviewLine(mainName: string, mainId: int, extraVariants: nat)

  function LineOf(g: Group): OverviewLine {
    OverviewLine(g.mainName, FirstId(g), if g.variants == [] then 0 else |g.variants| - 1)
  }

  /** The overview loop: one line per group until fifteen are shown; on meeting a
      sixteenth group it notes how many groups are left and stops. */
  method Overview(sorted: seq<Group>) returns (lines: seq<OverviewLine>, more: Option<nat>)
    ensures |lines| == if |sorted| <= MaxShow then |sorted| else MaxShow
    ensures forall i :: 0 <= i < |lines| ==> lines[i] == LineOf(sorted[i])
    ensures more == if |sorted| > MaxShow then Some(|sorted| - MaxShow) else None
  {
    lines := [];
    more := None;
    var count := 0;
    var i := 0;
    while i < |sorted|
      invariant 0 <= i <= |sorted| && count == i && i <= MaxShow
      invariant |lines| == i && forall j :: 0 <= j < i ==> lines[j] == LineOf(sorted[j])
      invariant more == None
    {
      if count >= MaxShow {
        more := Some(|sorted| - count);
        break;
      }
      lines := lines + [LineOf(sorted[i])];
      count := count + 1;
      i := i + 1;
    }
  }

  /** What `#vv list` replies. */
  /** The groups of the catalogue in first-seen order of their main names, each with
      all its speakers. */
  function GroupsOf(list: seq<Speaker>): (gs: seq<Group>)
    ensures |gs| == |GroupKeys(list)|
    ensures forall i :: 0 <= i < |gs| ==> gs[i].mainName == GroupKeys(list)[i]
  {
    var ks := GroupKeys(list);
    seq(|ks|, i requires 0 <= i < |ks| => Group(ks[i], Members(list, ks[i])))
  }

  datatype ListReply =
    | NoMatch(term: string)
    | Found(speakers: seq<Speaker>, exampleName: string)
    | GroupOverview(lines: seq<OverviewLine>, more: Option<nat>)

  /** The reply of `handleSpeakerList`. A non-empty term filters; the reply lists every
      match and uses the first as the example. An empty term gives the overview: the first
      `MaxShow` groups in stable first-id order, one line each, and the count of the rest. */
  ghost predicate Listed(list: seq<Speaker>, searchTerm: string, toLower: string -> string, reply: ListReply) {
    && (searchTerm != [] && FilterSpeakers(list, searchTerm, toLower) == [] ==> reply == NoMatch(searchTerm))
    && (searchTerm != [] && FilterSpeakers(list, searchTerm, toLower) != [] ==>
          reply == Found(FilterSpeakers(list, searchTerm, toLower), FilterSpeakers(list, searchTerm, toLower)[0].name))
    && (searchTerm == [] ==>
          var sorted := SortByFirstId(GroupsOf(list));
          && reply.GroupOverview?
          && |reply.lines| == (if |GroupKeys(list)| <= MaxShow then |GroupKeys(list)| else MaxShow)
          && (reply.more.Some? <==> |GroupKeys(list)| > MaxShow)
          && |reply.lines| == (if |sorted| <= MaxShow then |sorted| else MaxShow)
          && (forall i :: 0 <= i < |reply.lines| ==> reply.lines[i] == LineOf(sorted[i]))
          && reply.more == if |sorted| > MaxShow then Some(|sorted| - MaxShow) else None)
  }

  /** `handleSpeakerList`. */
  method HandleSpeakerList(list: seq<Speaker>, searchTerm: string, toLower: string -> string) returns (reply: ListReply)
    ensures Listed(list, searchTerm, toLower, reply)
  {
    if searchTerm != [] {
      var filtered := FilterSpeakers(list, searchTerm, toLower);
      if filtered == [] {
        return NoMatch(searchTerm);
      }
      return Found(filtered, filtered[0].name);
    }
    var keys, groups := GroupSpeakers(list);
    var entries := Entries(keys, groups);
    assert entries == GroupsOf(list);
    var sorted := SortByFirstId(entries);
    SortByFirstIdSorted(entries);
    var lines, more := Overview(sorted);
    reply := GroupOverview(lines, more);
  }
}
