/**
 * The help page: which help list and settings are used, which groups a sender may see,
 * and the sprite position each visible item's icon is drawn from. Items are objects
 * shared with the configuration, and the handler writes their `css` in place.
 */
module Help {
  import opened Wrappers

  /** `help.icon * 1`: a number, or NaN for anything that does not convert. Only integer
      icons are modelled. */
  datatype IconValue = NaN | Number(n: int)

  /** The style written on an item: hidden, or the sprite cell at column `x`, row `y`
      (`background-position:-${x * 50}px -${y * 50}px`). */
  datatype Css = Hidden | Sprite(x: int, y: int)

  /** `a % 10` in JavaScript: the remainder takes the sign of the dividend. */
  function JsRem10(a: int): (r: int)
    ensures a >= 0 ==> 0 <= r < 10 && r == a % 10
    ensures a < 0 ==> -10 < r <= 0
    ensures (a - r) % 10 == 0
  {
    if a >= 0 then a % 10 else -((-a) % 10)
  }

  /** The style of one icon: 0 and NaN hide the icon; otherwise cells are numbered from 1,
      ten to a row. */
  function CssFor(icon: IconValue): Css {
    match icon
    case NaN => Hidden
    case Number(n) =>
      if n == 0 then Hidden
      else
        var x := JsRem10(n - 1);
        Sprite(x, (n - x - 1) / 10)
  }

  /** A positive icon `n` is drawn from column `(n - 1) % 10` of row `(n - 1) / 10`, and
      the cell gives the icon back: `n == 10 * y + x + 1` for every non-zero icon. */
  lemma {:induction false} SpritePosition(n: int)
    requires n != 0
    ensures CssFor(Number(n)).Sprite?
    ensures var c := CssFor(Number(n)); n == 10 * c.y + c.x + 1
    ensures n > 0 ==> var c := CssFor(Number(n)); 0 <= c.x <= 9 && c.x == (n - 1) % 10 && c.y == (n - 1) / 10
  {
    var x := JsRem10(n - 1);
    var d := n - x - 1;
    assert d % 10 == 0;
    assert d == 10 * (d / 10);
  }

  /** Distinct icons are drawn from distinct cells. */
  lemma SpriteInjective(a: int, b: int)
    requires a != 0 && b != 0 && CssFor(Number(a)) == CssFor(Number(b))
    ensures a == b
  {
    SpritePosition(a);
    SpritePosition(b);
  }

  /** A help entry; `icon` is fixed by the configuration, `css` is written by the handler. */
  class HelpItem {
    const icon: IconValue
    var css: Option<Css>

    constructor(icon: IconValue)
      ensures this.icon == icon && css == None
    {
      this.icon := icon;
      css := None;
    }
  }

  /** A group of entries, optionally restricted (`auth`). */
  datatype HelpGroup = HelpGroup(auth: Option<string>, list: seq<HelpItem>)

  /** A group is skipped when it is for the master only and the sender is not the master. */
  predicate Shown(g: HelpGroup, isMaster: bool) {
    !(g.auth == Some("master") && !isMaster)
  }

  /** The groups a sender sees, in order. */
  function Visible(groups: seq<HelpGroup>, isMaster: bool): (r: seq<HelpGroup>)
    ensures forall k :: 0 <= k < |r| ==> Shown(r[k], isMaster) && r[k] in groups
    ensures forall k :: 0 <= k < |groups| && Shown(groups[k], isMaster) ==> groups[k] in r
    ensures isMaster ==> r == groups
  {
    if groups == [] then []
    else
      var init := groups[..|groups| - 1];
      var last := groups[|groups| - 1];
      assert groups == init + [last];
      Visible(init, isMaster) + (if Shown(last, isMaster) then [last] else [])
  }

  /** The groups seen among the first `i + 1` are those seen among the first `i`, then
      group `i` if it is shown. */
  lemma VisibleSnoc(groups: seq<HelpGroup>, i: nat, isMaster: bool)
    requires i < |groups|
    ensures Visible(groups[..i + 1], isMaster) ==
      Visible(groups[..i], isMaster) + (if Shown(groups[i], isMaster) then [groups[i]] else [])
  {
    assert groups[..i + 1][..i] == groups[..i];
  }

  /** Visibility is decided group by group: the groups seen in a concatenation are those
      seen in each part, in order. */
  lemma {:induction false} VisibleAppend(a: seq<HelpGroup>, b: seq<HelpGroup>, isMaster: bool)
    ensures Visible(a + b, isMaster) == Visible(a, isMaster) + Visible(b, isMaster)
    decreases |b|
  {
    if b == [] {
      assert a + b == a;
    } else {
      var init := b[..|b| - 1];
      var last := b[|b| - 1];
      assert (a + b)[..|a + b| - 1] == a + init;
      VisibleAppend(a, init, isMaster);
    }
  }

  /** Every item of some group. */
  function ItemsOf(groups: seq<HelpGroup>): set<HelpItem> {
    set k, j | 0 <= k < |groups| && 0 <= j < |groups[k].list| :: groups[k].list[j]
  }

  /** `helpList`: the user's list when there is one (an empty list included), else the
      system list, else nothing. */
  function SelectHelpList(diy: Option<seq<HelpGroup>>, sys: Option<seq<HelpGroup>>): (r: seq<HelpGroup>)
    ensures diy.Some? ==> r == diy.value
    ensures diy.None? && sys.Some? ==> r == sys.value
    ensures diy.None? && sys.None? ==> r == []
  {
    if diy.Some? then diy.value else if sys.Some? then sys.value else []
  }

  /** `lodash.defaults(diy, sys)` on flat settings: the user's keys keep their values and
      the system fills in the keys the user did not set. */
  function Defaults(diy: map<string, string>, sys: map<string, string>): (r: map<string, string>)
    ensures r.Keys == diy.Keys + sys.Keys
    ensures forall k :: k in diy ==> r[k] == diy[k]
    ensures forall k :: k in sys && k !in diy ==> r[k] == sys[k]
  {
    map k | k in diy.Keys + sys.Keys :: if k in diy then diy[k] else sys[k]
  }

  /** The items of `groups` followed by `g` are theirs plus those of `g`. */
  lemma ItemsOfAppend(groups: seq<HelpGroup>, g: HelpGroup)
    ensures ItemsOf(groups + [g]) == ItemsOf(groups) + ItemsOf([g])
  {
    var all := groups + [g];
    forall it | it in ItemsOf(all)
      ensures it in ItemsOf(groups) + ItemsOf([g])
    {
      var k, j :| 0 <= k < |all| && 0 <= j < |all[k].list| && it == all[k].list[j];
      if k < |groups| {
        assert it == groups[k].list[j];
      } else {
        assert it == [g][0].list[j];
      }
    }
    forall it | it in ItemsOf(groups) + ItemsOf([g])
      ensures it in ItemsOf(all)
    {
      if it in ItemsOf(groups) {
        var k, j :| 0 <= k < |groups| && 0 <= j < |groups[k].list| && it == groups[k].list[j];
        assert it == all[k].list[j];
      } else {
        var k, j :| 0 <= k < 1 && 0 <= j < |[g][k].list| && it == [g][k].list[j];
        assert it == all[|groups|].list[j];
      }
    }
  }

  /** The items of one group are those of its list. */
  lemma ItemsOfSingle(g: HelpGroup)
    ensures forall it :: it in ItemsOf([g]) <==> it in g.list
  {
    forall it | it in g.list ensures it in ItemsOf([g]) {
      var j :| 0 <= j < |g.list| && g.list[j] == it;
      assert it == [g][0].list[j];
    }
  }

  /** Each group's items are among the items of the whole list. */
  lemma ItemsOfMember(groups: seq<HelpGroup>, i: nat)
    requires i < |groups|
    ensures ItemsOf([groups[i]]) <= ItemsOf(groups)
  {
    ItemsOfSingle(groups[i]);
    forall it | it in ItemsOf([groups[i]]) ensures it in ItemsOf(groups) {
      var j :| 0 <= j < |groups[i].list| && groups[i].list[j] == it;
    }
  }

  /** The inner loop of `help`: every item of the group gets the style of its icon. */
  method StyleItems(group: HelpGroup)
    modifies ItemsOf([group])
    ensures forall it :: it in ItemsOf([group]) ==> it.css == Some(CssFor(it.icon))
  {
    ItemsOfSingle(group);
    var items := group.list;
    for j := 0 to |items|
      invariant forall k :: 0 <= k < j ==> items[k].css == Some(CssFor(items[k].icon))
    {
      var item := items[j];
      var icon := item.icon;
      if icon == NaN || icon == Number(0) {
        item.css := Some(Hidden);
      } else {
        var x := JsRem10(icon.n - 1);
        item.css := Some(Sprite(x, (icon.n - x - 1) / 10));
      }
    }
    forall it | it in ItemsOf([group]) ensures it.css == Some(CssFor(it.icon)) {
      var k :| 0 <= k < |items| && items[k] == it;
    }
  }

  /** The group loop of `help`: the groups the sender sees are collected in order, and
      every item of such a group gets the style of its icon. Items only in skipped groups
      keep their style. An item listed more than once is styled the same each time. */
  method StyleGroups(helpList: seq<HelpGroup>, isMaster: bool) returns (helpGroup: seq<HelpGroup>)
    modifies ItemsOf(helpList)
    ensures helpGroup == Visible(helpList, isMaster)
    ensures forall it :: it in ItemsOf(helpGroup) ==> it.css == Some(CssFor(it.icon))
    ensures forall it :: it in ItemsOf(helpList) && it !in ItemsOf(helpGroup) ==> it.css == old(it.css)
  {
    helpGroup := [];
    for i := 0 to |helpList|
      invariant helpGroup == Visible(helpList[..i], isMaster)
      invariant forall it :: it in ItemsOf(helpGroup) ==> it.css == Some(CssFor(it.icon))
      invariant forall it :: it in ItemsOf(helpList) && it !in ItemsOf(helpGroup) ==> it.css == old(it.css)
    {
      var group := helpList[i];
      VisibleSnoc(helpList, i, isMaster);
      if Shown(group, isMaster) {
        ghost var before := helpGroup;
        ItemsOfMember(helpList, i);
        ItemsOfAppend(before, group);
        StyleItems(group);
        helpGroup := helpGroup + [group];
        forall it | it in ItemsOf(helpGroup) ensures it.css == Some(CssFor(it.icon)) {
          if it !in ItemsOf([group]) { assert it in ItemsOf(before); }
        }
        forall it | it in ItemsOf(helpList) && it !in ItemsOf(helpGroup) ensures it.css == old(it.css) {
          assert it !in ItemsOf(before) && it !in ItemsOf([group]);
        }
      }
    }
    assert helpList[..|helpList|] == helpList;
  }

  /** `help`: the settings are the user's over the system's, the list is chosen by
      `SelectHelpList`, and its visible groups are styled and collected. */
  method HelpPage(diyCfg: map<string, string>, sysCfg: map<string, string>,
                  diyList: Option<seq<HelpGroup>>, sysList: Option<seq<HelpGroup>>, isMaster: bool)
    returns (helpConfig: map<string, string>, helpGroup: seq<HelpGroup>)
    modifies ItemsOf(SelectHelpList(diyList, sysList))
    ensures helpConfig == Defaults(diyCfg, sysCfg)
    ensures helpGroup == Visible(SelectHelpList(diyList, sysList), isMaster)
    ensures forall it :: it in ItemsOf(helpGroup) ==> it.css == Some(CssFor(it.icon))
    ensures forall it :: it in ItemsOf(SelectHelpList(diyList, sysList)) && it !in ItemsOf(helpGroup) ==>
      it.css == old(it.css)
  {
    helpConfig := Defaults(diyCfg, sysCfg);
    var helpList := SelectHelpList(diyList, sysList);
    helpGroup := StyleGroups(helpList, isMaster);
  }
}
