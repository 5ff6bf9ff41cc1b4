/**
 * The top bar of the in-app browser window: the tab strip mirrored from
 * the browser's tab events, the address field, and the window buttons.
 * Tabs are the plain objects the tab events deliver.
 */
module WebUI {
  import opened Wrappers
  import opened Lists
  import opened Records

  type ChromeTab = Record

  /** `tab.id`. */
  function IdOf(t: ChromeTab): Option<Value> {
    Field(t, "id")
  }

  /** `tab.active` holds. */
  predicate IsActive(t: ChromeTab) {
    Field(t, "active") == Some(Bool(true))
  }

  predicate UniqueIds(tabs: seq<ChromeTab>) {
    forall i, j :: 0 <= i < j < |tabs| ==> IdOf(tabs[i]) != IdOf(tabs[j])
  }

  /** The `setTabList` updater of `setActiveTab`: `{ ...t, active: t.id === id }` for every tab. */
  function MarkActive(tabs: seq<ChromeTab>, id: Option<Value>): (r: seq<ChromeTab>)
    ensures |r| == |tabs|
    ensures forall i :: 0 <= i < |tabs| ==>
              (IsActive(r[i]) <==> IdOf(tabs[i]) == id)
              && r[i].Keys == tabs[i].Keys + {"active"}
              && forall k :: k in tabs[i] && k != "active" ==> r[i][k] == tabs[i][k]
  {
    seq(|tabs|, i requires 0 <= i < |tabs| => tabs[i]["active" := Bool(IdOf(tabs[i]) == id)])
  }

  /** With unique ids, activating tab `k` leaves it the only active tab. */
  lemma MarkActiveSingle(tabs: seq<ChromeTab>, k: nat)
    requires UniqueIds(tabs) && k < |tabs|
    ensures forall i :: 0 <= i < |tabs| ==> (IsActive(MarkActive(tabs, IdOf(tabs[k]))[i]) <==> i == k)
  {
  }

  /** The `onCreated` updater: the tab is appended only when it opened in this window. */
  function AppendIfInWindow(tabs: seq<ChromeTab>, tab: ChromeTab, windowId: Option<Value>): (r: seq<ChromeTab>)
    ensures Field(tab, "windowId") == windowId ==> r == tabs + [tab]
    ensures Field(tab, "windowId") != windowId ==> r == tabs
  {
    if Field(tab, "windowId") != windowId then tabs else tabs + [tab]
  }

  /** The `onUpdated` updater: `{ ...t, ...tab }` for the tabs with id `tabId`, the others as they were. */
  function MergeUpdate(tabs: seq<ChromeTab>, tabId: Value, tab: ChromeTab): (r: seq<ChromeTab>)
    ensures |r| == |tabs|
    ensures forall i :: 0 <= i < |tabs| ==> r[i] == (if IdOf(tabs[i]) == Some(tabId) then Spread(tabs[i], tab) else tabs[i])
  {
    seq(|tabs|, i requires 0 <= i < |tabs| => if IdOf(tabs[i]) == Some(tabId) then Spread(tabs[i], tab) else tabs[i])
  }

  /** Delivering the same update twice is delivering it once. */
  lemma MergeUpdateIdempotent(tabs: seq<ChromeTab>, tabId: Value, tab: ChromeTab)
    requires IdOf(tab) == Some(tabId)
    ensures MergeUpdate(MergeUpdate(tabs, tabId, tab), tabId, tab) == MergeUpdate(tabs, tabId, tab)
  {
    var once := MergeUpdate(tabs, tabId, tab);
    forall i | 0 <= i < |tabs|
      ensures MergeUpdate(once, tabId, tab)[i] == once[i]
    {
      if IdOf(tabs[i]) == Some(tabId) {
        SpreadIdempotent(tabs[i], tab);
      }
    }
  }

  /** The `filter` callback of `onRemoved`. */
  function HasNotId(tabId: Value): ChromeTab -> bool {
    (t: ChromeTab) => IdOf(t) != Some(tabId)
  }

  /** The `onRemoved` updater: every tab with that id goes, the rest stay in order. */
  function RemoveTab(tabs: seq<ChromeTab>, tabId: Value): (r: seq<ChromeTab>)
    ensures forall t :: t in r <==> t in tabs && IdOf(t) != Some(tabId)
  {
    Filter(tabs, HasNotId(tabId))
  }

  /** Removal keeps the relative order: removing from a concatenation removes from each part. */
  lemma RemoveTabKeepsOrder(front: seq<ChromeTab>, back: seq<ChromeTab>, tabId: Value)
    ensures RemoveTab(front + back, tabId) == RemoveTab(front, tabId) + RemoveTab(back, tabId)
  {
    FilterAppend(front, back, HasNotId(tabId));
  }

  /** Removing a created tab undoes its creation. */
  lemma RemoveUndoesCreate(tabs: seq<ChromeTab>, tab: ChromeTab, tabId: Value, windowId: Option<Value>)
    requires IdOf(tab) == Some(tabId)
    ensures RemoveTab(AppendIfInWindow(tabs, tab, windowId), tabId) == RemoveTab(tabs, tabId)
  {
    FilterAppend(tabs, [tab], HasNotId(tabId));
    assert Filter([tab], HasNotId(tabId)) == [];
  }

  /** `tabs.find((t) => t.active)`: the first active tab. */
  function FindActive(tabs: seq<ChromeTab>): (r: Option<ChromeTab>)
    ensures r.Some? <==> exists i :: 0 <= i < |tabs| && IsActive(tabs[i])
    ensures r.Some? ==> exists i :: 0 <= i < |tabs| && tabs[i] == r.value && IsActive(tabs[i])
                                    && forall j :: 0 <= j < i ==> !IsActive(tabs[j])
  {
    if tabs == [] then None
    else if IsActive(tabs[0]) then Some(tabs[0])
    else
      assert forall i :: 1 <= i < |tabs| ==> tabs[i] == tabs[1..][i - 1];
      FindActive(tabs[1..])
  }

  datatype WindowState = Normal | Minimized | Maximized | Fullscreen

  /** The state the minimize button requests: back to normal when minimized, else minimized. */
  function MinimizeTarget(state: WindowState): (r: WindowState)
    ensures r == Normal <==> state == Minimized
    ensures r != Normal ==> r == Minimized
  {
    if state == Minimized then Normal else Minimized
  }

  /** The state the maximize button requests: back to normal when maximized, else maximized. */
  function MaximizeTarget(state: WindowState): (r: WindowState)
    ensures r == Normal <==> state == Maximized
    ensures r != Normal ==> r == Maximized
  {
    if state == Maximized then Normal else Maximized
  }

  /**
   * Each button toggles between normal and its own state: applied twice it
   * gives back normal or its own state, and from any other state (for
   * example fullscreen) two presses end at normal.
   */
  lemma WindowButtonsToggle(state: WindowState)
    ensures state == Normal || state == Minimized ==> MinimizeTarget(MinimizeTarget(state)) == state
    ensures state != Normal && state != Minimized ==> MinimizeTarget(MinimizeTarget(state)) == Normal
    ensures state == Normal || state == Maximized ==> MaximizeTarget(MaximizeTarget(state)) == state
    ensures state != Normal && state != Maximized ==> MaximizeTarget(MaximizeTarget(state)) == Normal
  {
  }

  /** The component's signals. */
  class TopBar {
    var windowId: Option<Value>
    var activeTabId: Option<Value>
    var tabList: seq<ChromeTab>
    var addressUrl: Option<Value>

    /** The signals' initial values: no window, no active tab, no tabs, an empty address. */
    constructor ()
      ensures windowId == Some(Num(-1)) && activeTabId == Some(Num(-1))
      ensures tabList == [] && addressUrl == Some(Str(""))
    {
      windowId := Some(Num(-1));
      activeTabId := Some(Num(-1));
      tabList := [];
      addressUrl := Some(Str(""));
    }

    /** `setActiveTab(tab)`: the tab's id, window and URL become current and only it is marked active. */
    method SetActiveTab(tab: ChromeTab)
      modifies this
      ensures activeTabId == IdOf(tab) && windowId == Field(tab, "windowId")
      ensures tabList == MarkActive(old(tabList), IdOf(tab))
      ensures addressUrl == Field(tab, "url")
    {
      activeTabId := IdOf(tab);
      windowId := Field(tab, "windowId");
      tabList := MarkActive(tabList, IdOf(tab));
      addressUrl := Field(tab, "url");
    }

    /** The mount step: take the window's tabs and activate the first active one, if any. */
    method Mount(tabs: seq<ChromeTab>)
      modifies this
      ensures FindActive(tabs).None? ==> tabList == tabs && unchanged(this`windowId, this`activeTabId, this`addressUrl)
      ensures FindActive(tabs).Some? ==>
                tabList == MarkActive(tabs, IdOf(FindActive(tabs).value))
                && activeTabId == IdOf(FindActive(tabs).value)
                && windowId == Field(FindActive(tabs).value, "windowId")
                && addressUrl == Field(FindActive(tabs).value, "url")
    {
      tabList := tabs;
      var active := FindActive(tabs);
      if active.Some? {
        SetActiveTab(active.value);
      }
    }

    /** The `onCreated` listener. */
    method OnCreated(tab: ChromeTab)
      modifies this`tabList
      ensures tabList == AppendIfInWindow(old(tabList), tab, windowId)
    {
      if Field(tab, "windowId") != windowId {
        return;
      }
      tabList := tabList + [tab];
    }

    /** The `onActivated` listener; `tab` is what the tab lookup for `tabId` delivers. */
    method OnActivated(activeWindowId: Option<Value>, tab: ChromeTab)
      modifies this
      ensures activeWindowId != old(windowId) ==> unchanged(this)
      ensures activeWindowId == old(windowId) ==>
                activeTabId == IdOf(tab) && windowId == Field(tab, "windowId")
                && tabList == MarkActive(old(tabList), IdOf(tab))
                && addressUrl == Field(tab, "url")
    {
      if activeWindowId != windowId {
        return;
      }
      SetActiveTab(tab);
    }

    /** The `onUpdated` listener: the address follows only the active tab. */
    method OnUpdated(tabId: Value, tab: ChromeTab)
      modifies this`tabList, this`addressUrl
      ensures tabList == MergeUpdate(old(tabList), tabId, tab)
      ensures Some(tabId) == activeTabId ==> addressUrl == Field(tab, "url")
      ensures Some(tabId) != activeTabId ==> addressUrl == old(addressUrl)
    {
      tabList := MergeUpdate(tabList, tabId, tab);
      if Some(tabId) == activeTabId {
        addressUrl := Field(tab, "url");
      }
    }

    /** The `onRemoved` listener. */
    method OnRemoved(tabId: Value)
      modifies this`tabList
      ensures tabList == RemoveTab(old(tabList), tabId)
    {
      tabList := RemoveTab(tabList, tabId);
    }
  }
}
