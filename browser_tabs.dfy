/**
 * The in-app browser panel's tab list: whether the panel was ever opened,
 * whether it is shown, and the tabs, exactly one of which is active in
 * every state the operations reach.
 */
module BrowserTabs {
  import opened Wrappers
  import opened Lists

  datatype Tab = Tab(id: string, active: bool, title: string, url: string, icon: Option<string>)

  datatype Browser = Browser(enabled: bool, shown: bool, tabs: seq<Tab>)

  const NewTabTitle: string := "New Tab"

  /** Tab `i` is the active one and no other tab is. */
  predicate OnlyActive(tabs: seq<Tab>, i: int) {
    0 <= i < |tabs| && forall j :: 0 <= j < |tabs| ==> (tabs[j].active <==> j == i)
  }

  predicate OneActive(tabs: seq<Tab>) {
    exists i :: 0 <= i < |tabs| && OnlyActive(tabs, i)
  }

  predicate UniqueIds(tabs: seq<Tab>) {
    forall i, j :: 0 <= i < j < |tabs| ==> tabs[i].id != tabs[j].id
  }

  /** The initial state: hidden, never enabled, one active "New Tab" at the default URL. */
  function Initial(id: string, defaultUrl: string): (b: Browser)
    ensures !b.enabled && !b.shown
    ensures |b.tabs| == 1 && OnlyActive(b.tabs, 0)
    ensures b.tabs[0].id == id && b.tabs[0].title == NewTabTitle && b.tabs[0].url == defaultUrl
  {
    Browser(false, false, [Tab(id, true, NewTabTitle, defaultUrl, None)])
  }

  /** `toggle`: the panel is enabled from now on and its visibility flips. */
  function Toggle(b: Browser): (r: Browser)
    ensures r.enabled && r.shown == !b.shown && r.tabs == b.tabs
  {
    Browser(true, !b.shown, b.tabs)
  }

  /** Toggling twice shows the panel as before, and it stays enabled. */
  lemma ToggleTwice(b: Browser)
    ensures Toggle(Toggle(b)) == b.(enabled := true)
  {
  }

  /** `setActiveTab(id)`: a tab is active iff it has that id; nothing else changes. */
  function SetActiveTab(tabs: seq<Tab>, id: string): (r: seq<Tab>)
    ensures |r| == |tabs|
    ensures forall i :: 0 <= i < |tabs| ==>
              r[i].active == (tabs[i].id == id) && r[i] == tabs[i].(active := r[i].active)
  {
    seq(|tabs|, i requires 0 <= i < |tabs| => tabs[i].(active := tabs[i].id == id))
  }

  /** With unique ids, activating a present tab leaves exactly that tab active. */
  lemma SetActiveTabSingleActive(tabs: seq<Tab>, k: nat)
    requires UniqueIds(tabs) && k < |tabs|
    ensures OnlyActive(SetActiveTab(tabs, tabs[k].id), k)
  {
  }

  /** Activating an id that is not present leaves no tab active. */
  lemma SetActiveTabAbsent(tabs: seq<Tab>, id: string)
    requires forall i :: 0 <= i < |tabs| ==> tabs[i].id != id
    ensures forall i :: 0 <= i < |tabs| ==> !SetActiveTab(tabs, id)[i].active
  {
  }

  /**
   * `addTab({ url })`: the panel is enabled and shown, every existing tab is
   * deactivated, and a new active "New Tab" is appended.
   */
  function AddTab(b: Browser, newId: string, url: string): (r: Browser)
    ensures r.enabled && r.shown
    ensures |r.tabs| == |b.tabs| + 1
    ensures OnlyActive(r.tabs, |b.tabs|)
    ensures forall i :: 0 <= i < |b.tabs| ==> r.tabs[i] == b.tabs[i].(active := false)
    ensures r.tabs[|b.tabs|] == Tab(newId, true, NewTabTitle, url, None)
  {
    var kept := seq(|b.tabs|, i requires 0 <= i < |b.tabs| => b.tabs[i].(active := false));
    Browser(true, true, kept + [Tab(newId, true, NewTabTitle, url, None)])
  }

  /** `prev.findIndex((item) => item.id === id)`. */
  function FindIndex(tabs: seq<Tab>, id: string): (r: int)
    ensures -1 <= r < |tabs|
    ensures r >= 0 ==> tabs[r].id == id && forall j :: 0 <= j < r ==> tabs[j].id != id
    ensures r == -1 ==> forall j :: 0 <= j < |tabs| ==> tabs[j].id != id
    decreases |tabs|
  {
    if tabs == [] then -1
    else if tabs[0].id == id then 0
    else
      var r := FindIndex(tabs[1..], id);
      if r == -1 then -1 else r + 1
  }

  /** The `filter` callback of `closeTab`. */
  function HasNotId(id: string): Tab -> bool {
    (tab: Tab) => tab.id != id
  }

  function Max(a: int, b: int): int {
    if a < b then b else a
  }

  /**
   * `closeTab(id)`: an unknown id changes nothing; otherwise the tabs with
   * that id go, and when the first of them was active the tab at index
   * `max(itemIndex - 1, 0)` of what remains becomes the only active one.
   */
  function CloseTab(tabs: seq<Tab>, id: string): (r: seq<Tab>)
    ensures FindIndex(tabs, id) == -1 ==> r == tabs
    ensures forall t :: t in r ==> t.id != id
    ensures FindIndex(tabs, id) >= 0 ==> |r| == |Filter(tabs, HasNotId(id))|
    ensures FindIndex(tabs, id) >= 0 && !tabs[FindIndex(tabs, id)].active ==> r == Filter(tabs, HasNotId(id))
    ensures FindIndex(tabs, id) >= 0 && tabs[FindIndex(tabs, id)].active ==>
              forall i :: 0 <= i < |r| ==>
                (r[i].active <==> i == Max(FindIndex(tabs, id) - 1, 0))
                && r[i] == Filter(tabs, HasNotId(id))[i].(active := r[i].active)
  {
    var itemIndex := FindIndex(tabs, id);
    if itemIndex > -1 then
      var wasActive := tabs[itemIndex].active;
      var rest := Filter(tabs, HasNotId(id));
      var r := seq(|rest|, i requires 0 <= i < |rest| =>
                  rest[i].(active := if wasActive then i == Max(itemIndex - 1, 0) else rest[i].active));
      assert forall i :: 0 <= i < |rest| ==> rest[i] in rest && r[i].id == rest[i].id;
      assert !wasActive ==> r == rest;
      r
    else tabs
  }

  /** With unique ids, closing a present tab removes exactly its slot. */
  lemma CloseTabRemovesSlot(tabs: seq<Tab>, k: nat)
    requires UniqueIds(tabs) && k < |tabs|
    ensures Filter(tabs, HasNotId(tabs[k].id)) == tabs[..k] + tabs[k + 1..]
    ensures FindIndex(tabs, tabs[k].id) == k
  {
    FilterDropsOne(tabs, k, HasNotId(tabs[k].id));
  }

  /**
   * Closing the active tab of several activates its left neighbour, or the
   * new first tab when the first tab was closed.
   */
  lemma CloseActiveTabActivatesNeighbour(tabs: seq<Tab>, k: nat)
    requires UniqueIds(tabs) && k < |tabs| && tabs[k].active && |tabs| >= 2
    ensures var r := CloseTab(tabs, tabs[k].id);
      OnlyActive(r, Max(k - 1, 0))
      && r[Max(k - 1, 0)].id == (if k > 0 then tabs[k - 1].id else tabs[1].id)
  {
    CloseTabRemovesSlot(tabs, k);
    var rest := tabs[..k] + tabs[k + 1..];
    assert k > 0 ==> rest[k - 1] == tabs[k - 1];
    assert k == 0 ==> rest[0] == tabs[1];
  }

  /**
   * Closing an inactive tab keeps the active tab active; it moves one slot
   * left when it stood after the closed one.
   */
  lemma CloseInactiveTabKeepsActive(tabs: seq<Tab>, k: nat, a: int)
    requires UniqueIds(tabs) && k < |tabs| && !tabs[k].active && OnlyActive(tabs, a)
    ensures OnlyActive(CloseTab(tabs, tabs[k].id), if a < k then a else a - 1)
  {
    CloseTabRemovesSlot(tabs, k);
    var r := CloseTab(tabs, tabs[k].id);
    assert r == tabs[..k] + tabs[k + 1..];
    var b := if a < k then a else a - 1;
    forall j | 0 <= j < |r| ensures r[j].active <==> j == b {
      if j < k {
        assert r[j] == tabs[j];
      } else {
        assert r[j] == tabs[j + 1];
      }
    }
  }

  /**
   * Closing any tab but the last one keeps exactly one tab active, when
   * ids are unique and exactly one tab was active before.
   */
  lemma CloseTabKeepsOneActive(tabs: seq<Tab>, id: string)
    requires UniqueIds(tabs) && OneActive(tabs)
    requires !(|tabs| == 1 && tabs[0].id == id)
    ensures OneActive(CloseTab(tabs, id))
  {
    var k := FindIndex(tabs, id);
    if k >= 0 {
      if tabs[k].active {
        CloseActiveTabActivatesNeighbour(tabs, k);
      } else {
        var a :| 0 <= a < |tabs| && OnlyActive(tabs, a);
        CloseInactiveTabKeepsActive(tabs, k, a);
      }
    }
  }

  /** Closing the only tab leaves no tabs at all. */
  lemma CloseLastTab(tabs: seq<Tab>)
    requires |tabs| == 1
    ensures CloseTab(tabs, tabs[0].id) == []
  {
    assert tabs[0] !in CloseTab(tabs, tabs[0].id);
  }

  /** `updateTitle(id, title)`: the title of the tabs with that id changes, nothing else. */
  function UpdateTitle(tabs: seq<Tab>, id: string, title: string): (r: seq<Tab>)
    ensures |r| == |tabs|
    ensures forall i :: 0 <= i < |tabs| ==> r[i] == (if tabs[i].id == id then tabs[i].(title := title) else tabs[i])
  {
    seq(|tabs|, i requires 0 <= i < |tabs| => if tabs[i].id == id then tabs[i].(title := title) else tabs[i])
  }

  /** `icons[0]`, undefined for an empty list. */
  function FirstIcon(icons: seq<string>): (r: Option<string>)
    ensures r.Some? <==> |icons| > 0
    ensures r.Some? ==> r.value == icons[0]
  {
    if |icons| > 0 then Some(icons[0]) else None
  }

  /** `updateIcon(id, icons)`: the icon of the tabs with that id becomes `icons[0]`, nothing else. */
  function UpdateIcon(tabs: seq<Tab>, id: string, icons: seq<string>): (r: seq<Tab>)
    ensures |r| == |tabs|
    ensures forall i :: 0 <= i < |tabs| ==> r[i] == (if tabs[i].id == id then tabs[i].(icon := FirstIcon(icons)) else tabs[i])
  {
    seq(|tabs|, i requires 0 <= i < |tabs| => if tabs[i].id == id then tabs[i].(icon := FirstIcon(icons)) else tabs[i])
  }

  /** Title and icon updates keep ids and active flags, so the single active tab stays. */
  lemma UpdatesKeepActiveTab(tabs: seq<Tab>, id: string, title: string, icons: seq<string>, a: int)
    requires OnlyActive(tabs, a)
    ensures OnlyActive(UpdateTitle(tabs, id, title), a)
    ensures OnlyActive(UpdateIcon(tabs, id, icons), a)
    ensures UniqueIds(tabs) ==> UniqueIds(UpdateTitle(tabs, id, title)) && UniqueIds(UpdateIcon(tabs, id, icons))
  {
  }
}
