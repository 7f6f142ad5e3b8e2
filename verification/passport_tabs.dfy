/** The three tabs above a product passport (manufacturer, medication, unit): which tabs can be
    used, and what a click on one does — open the linked document directly when there is
    one, otherwise switch the tab. */
module PassportTabs {
  import opened Wrappers

  datatype Tab = HerstellerTab | MedikamentTab | EinheitTab

  /** The `linkedIds` property; `None` members are absent. */
  datatype LinkedIds = LinkedIds(medikament: Option<string>, hersteller: Option<string>, unit: Option<seq<string>>)

  /** A string member counts only when present and not empty (`!!linkedIds.medikament`). */
  predicate Given(s: Option<string>) {
    s.Some? && s.value != ""
  }

  /** The id a click on a tab opens, if the linked ids hold one: the first unit for the unit
      tab (whatever its text). */
  function LinkedId(linked: LinkedIds, tab: Tab): Option<string> {
    match tab
    case MedikamentTab => if Given(linked.medikament) then linked.medikament else None
    case HerstellerTab => if Given(linked.hersteller) then linked.hersteller else None
    case EinheitTab =>
      if linked.unit.Some? && |linked.unit.value| > 0 then Some(linked.unit.value[0]) else None
  }

  /** `isTabAvailable(tab)`. */
  function IsTabAvailable(active: Tab, linked: Option<LinkedIds>, tab: Tab): (r: bool)
    ensures tab == active ==> r
    ensures tab != active && linked.None? ==> !r
    ensures tab != active && linked.Some? && tab == MedikamentTab ==> (r <==> Given(linked.value.medikament))
    ensures tab != active && linked.Some? && tab == HerstellerTab ==> (r <==> Given(linked.value.hersteller))
    ensures tab != active && linked.Some? && tab == EinheitTab ==>
      (r <==> linked.value.unit.Some? && |linked.value.unit.value| > 0)
  {
    if tab == active then true
    else if linked.None? then false
    else
      match tab
      case MedikamentTab => Given(linked.value.medikament)
      case HerstellerTab => Given(linked.value.hersteller)
      case EinheitTab => linked.value.unit.Some? && |linked.value.unit.value| > 0
  }

  /** What a click does: call `onSearch` with an id, call `onTabChange`, or nothing. */
  datatype Click = Navigate(id: string) | SwitchTab(tab: Tab) | NoAction

  /** `handleTabClick(tab)`; `canSearch` says whether an `onSearch` handler was given. */
  function HandleTabClick(active: Tab, linked: Option<LinkedIds>, canSearch: bool, tab: Tab): (c: Click)
    ensures tab == active <==> c == NoAction
    ensures c.Navigate? <==> tab != active && canSearch && linked.Some? && LinkedId(linked.value, tab).Some?
    ensures c.Navigate? ==> c.id == LinkedId(linked.value, tab).value
    ensures c.SwitchTab? ==> c.tab == tab
    ensures tab != active && canSearch ==> (c.Navigate? <==> IsTabAvailable(active, linked, tab))
    ensures tab != active && canSearch && !IsTabAvailable(active, linked, tab) ==> c == SwitchTab(tab)
    ensures c.Navigate? && tab == EinheitTab ==> c.id == linked.value.unit.value[0]
  {
    if tab != active && canSearch && linked.Some? && LinkedId(linked.value, tab).Some? then
      Navigate(LinkedId(linked.value, tab).value)
    else if tab == active then NoAction
    else SwitchTab(tab)
  }

  /** A click on the rendered button: the button is `disabled` unless the tab is active or
      available, and a disabled button fires no `onClick`, so only available tabs react. */
  function ClickButton(active: Tab, linked: Option<LinkedIds>, canSearch: bool, tab: Tab): (c: Click)
    ensures !IsTabAvailable(active, linked, tab) ==> c == NoAction
    ensures c == NoAction <==> tab == active || !IsTabAvailable(active, linked, tab)
    ensures c.Navigate? <==> tab != active && canSearch && IsTabAvailable(active, linked, tab)
    ensures c.SwitchTab? <==> tab != active && !canSearch && IsTabAvailable(active, linked, tab)
    ensures c.Navigate? ==> c.id == LinkedId(linked.value, tab).value
    ensures c.SwitchTab? ==> c.tab == tab
    ensures IsTabAvailable(active, linked, tab) ==> c == HandleTabClick(active, linked, canSearch, tab)
  {
    var disabled := tab != active && !IsTabAvailable(active, linked, tab);
    if disabled then NoAction else HandleTabClick(active, linked, canSearch, tab)
  }

  /** With a search handler, no click on the tabs ever just switches the tab: a usable tab
      other than the active one always opens its linked id. */
  lemma {:induction false} SearchingTabsNeverSwitch(active: Tab, linked: Option<LinkedIds>, tab: Tab)
    ensures !ClickButton(active, linked, true, tab).SwitchTab?
    ensures tab != active && IsTabAvailable(active, linked, tab) ==>
      ClickButton(active, linked, true, tab) == Navigate(LinkedId(linked.value, tab).value)
  {
  }
}
