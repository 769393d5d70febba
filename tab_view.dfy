/**
 * The tab selection logic of src/components/TabView/TabView.tsx: which tab is
 * active in controlled and uncontrolled use, how the default tab is chosen,
 * what a click does, and which panel is shown. Rendering is not modelled.
 */
module TabView {
  import opened Options

  /** The props of a `<Tab>`; `panel` stands for its children. */
  datatype Tab<P> = Tab(id: string, caption: string, disabled: bool, panel: P)

  /**
   * A child of the tab view: a `<Tab>` element, some other React element
   * (whose `id` and `disabled` props may or may not be there), or a child that
   * is not an element at all, such as a text node.
   */
  datatype Child<P> =
    | TabElement(tab: Tab<P>)
    | OtherElement(id: Option<string>, disabled: bool)
    | TextChild

  /**
   * A value of `internalActiveTabId` or `currentActiveTabId`: `null`,
   * `undefined` (what the default-tab effect stores when the element it picks
   * has no `id` prop), or a tab id.
   */
  datatype ActiveId = NullId | UndefinedId | Id(value: string)

  // ------------------------------------------------------------ derivations

  /** `currentActiveTabId`: the `activeTabId` prop whenever it is given, else the internal id. */
  function CurrentActiveId(activeTabId: Option<string>, internal: ActiveId): (r: ActiveId)
    ensures activeTabId.Some? ==> r == Id(activeTabId.value)
    ensures activeTabId.None? ==> r == internal
  {
    match activeTabId
    case Some(id) => Id(id)
    case None => internal
  }

  /** The initial internal id, `activeTabId || null`: the prop unless it is missing or empty. */
  function InitialInternal(activeTabId: Option<string>): (r: ActiveId)
    ensures r == NullId <==> activeTabId.None? || activeTabId.value == ""
    ensures r != NullId ==> r == Id(activeTabId.value)
  {
    if activeTabId.Some? && activeTabId.value != "" then Id(activeTabId.value) else NullId
  }

  /** `tabs`: the children that are `<Tab>` elements, in order. */
  function Tabs<P>(children: seq<Child<P>>): (r: seq<Tab<P>>)
    ensures |r| <= |children|
    ensures forall t :: t in r ==> TabElement(t) in children
  {
    if |children| == 0 then []
    else
      var rest := Tabs(children[1..]);
      match children[0]
      case TabElement(t) => [t] + rest
      case _ => rest
  }

  /** The tab list keeps the order of the children: filtering a concatenation concatenates. */
  lemma {:induction false} TabsOfConcat<P>(a: seq<Child<P>>, b: seq<Child<P>>)
    ensures Tabs(a + b) == Tabs(a) + Tabs(b)
    decreases |a|
  {
    if |a| == 0 {
      assert a + b == b;
    } else {
      assert (a + b)[0] == a[0];
      assert (a + b)[1..] == a[1..] + b;
      TabsOfConcat(a[1..], b);
      match a[0]
      case TabElement(t) =>
        assert Tabs(a + b) == [t] + Tabs(a[1..] + b);
      case _ =>
    }
  }

  /** Every `<Tab>` child, and nothing else, is in the tab list. */
  lemma {:induction false} TabsKeepsEveryTab<P>(children: seq<Child<P>>, t: Tab<P>)
    ensures t in Tabs(children) <==> TabElement(t) in children
    decreases |children|
  {
    if |children| > 0 {
      TabsKeepsEveryTab(children[1..], t);
      assert children == [children[0]] + children[1..];
    }
  }

  /** A child the default-tab effect accepts: any valid element without a truthy `disabled`. */
  predicate EnabledElement<P>(c: Child<P>)
  {
    match c
    case TabElement(t) => !t.disabled
    case OtherElement(_, disabled) => !disabled
    case TextChild => false
  }

  /** The position of the first enabled element among `children[from..]`, as `find` returns it. */
  function FirstEnabled<P>(children: seq<Child<P>>, from: nat): (r: Option<nat>)
    requires from <= |children|
    ensures r.Some? ==> from <= r.value < |children| && EnabledElement(children[r.value])
    ensures r.Some? ==> forall j :: from <= j < r.value ==> !EnabledElement(children[j])
    ensures r.None? ==> forall j :: from <= j < |children| ==> !EnabledElement(children[j])
    decreases |children| - from
  {
    if from == |children| then None
    else if EnabledElement(children[from]) then Some(from)
    else FirstEnabled(children, from + 1)
  }

  /** `firstEnabledTab.props.id`: `undefined` when the picked element has no `id` prop. */
  function IdProp<P>(c: Child<P>): ActiveId
  {
    match c
    case TabElement(t) => Id(t.id)
    case OtherElement(Some(id), _) => Id(id)
    case OtherElement(None, _) => UndefinedId
    case TextChild => UndefinedId
  }

  /**
   * The default-tab effect: copy the `activeTabId` prop when it is given;
   * otherwise, while the internal id is `null`, take the id of the first
   * enabled child element, if any.
   */
  function SyncEffect<P>(activeTabId: Option<string>, children: seq<Child<P>>, internal: ActiveId): (r: ActiveId)
    ensures activeTabId.Some? ==> r == Id(activeTabId.value)
    ensures activeTabId.None? && internal != NullId ==> r == internal
    ensures activeTabId.None? && internal == NullId ==>
      match FirstEnabled(children, 0)
      case Some(k) => r == IdProp(children[k])
      case None => r == NullId
  {
    if activeTabId.Some? then Id(activeTabId.value)
    else if internal != NullId then internal
    else
      match FirstEnabled(children, 0)
      case Some(k) => IdProp(children[k])
      case None => NullId
  }

  /**
   * One run of the effect reaches a state in which a further run (triggered
   * by its own state update) changes nothing.
   */
  lemma SyncEffectIsIdempotent<P>(activeTabId: Option<string>, children: seq<Child<P>>, internal: ActiveId)
    ensures var once := SyncEffect(activeTabId, children, internal);
      SyncEffect(activeTabId, children, once) == once
  {
  }

  /** The position of the first tab whose id is `current`, as `tabs.find` returns it. */
  function FindTab<P>(tabs: seq<Tab<P>>, current: ActiveId, from: nat): (r: Option<nat>)
    requires from <= |tabs|
    ensures r.Some? ==> from <= r.value < |tabs| && current == Id(tabs[r.value].id)
    ensures r.Some? ==> forall j :: from <= j < r.value ==> current != Id(tabs[j].id)
    ensures r.None? ==> forall j :: from <= j < |tabs| ==> current != Id(tabs[j].id)
    decreases |tabs| - from
  {
    if from == |tabs| then None
    else if current == Id(tabs[from].id) then Some(from)
    else FindTab(tabs, current, from + 1)
  }

  /** The content of the tab panel: the first tab whose id is the active id, or nothing. */
  function Panel<P>(tabs: seq<Tab<P>>, current: ActiveId): (r: Option<P>)
    ensures r.None? <==> forall j :: 0 <= j < |tabs| ==> current != Id(tabs[j].id)
    ensures r.Some? ==> exists j :: (0 <= j < |tabs| && current == Id(tabs[j].id) && r.value == tabs[j].panel &&
      forall i :: 0 <= i < j ==> current != Id(tabs[i].id))
  {
    match FindTab(tabs, current, 0)
    case Some(k) => Some(tabs[k].panel)
    case None => None
  }

  /** Tab ids are unique. */
  predicate DistinctIds<P>(tabs: seq<Tab<P>>)
  {
    forall i, j :: 0 <= i < j < |tabs| ==> tabs[i].id != tabs[j].id
  }

  /** With unique ids, making a tab's id the active id shows exactly that tab's panel. */
  lemma ActiveTabPanelIsShown<P>(tabs: seq<Tab<P>>, k: nat)
    requires k < |tabs| && DistinctIds(tabs)
    ensures Panel(tabs, Id(tabs[k].id)) == Some(tabs[k].panel)
  {
    var r := FindTab(tabs, Id(tabs[k].id), 0);
    assert r.Some?;
    assert r.value == k;
  }

  /** In controlled use the internal id never shows through. */
  lemma ControlledIgnoresInternal(activeTabId: Option<string>, a: ActiveId, b: ActiveId)
    requires activeTabId.Some?
    ensures CurrentActiveId(activeTabId, a) == CurrentActiveId(activeTabId, b)
  {
  }

  // ------------------------------------------------------------- component

  class TabView<P> {
    var activeTabId: Option<string>
    var children: seq<Child<P>>
    var internalActiveTabId: ActiveId

    /** The effect has nothing left to do. */
    ghost predicate Synced()
      reads this
    {
      SyncEffect(activeTabId, children, internalActiveTabId) == internalActiveTabId
    }

    /** Mounting: the initial state, then the default-tab effect. */
    constructor (activeTabId: Option<string>, children: seq<Child<P>>)
      ensures this.activeTabId == activeTabId && this.children == children
      ensures internalActiveTabId == SyncEffect(activeTabId, children, InitialInternal(activeTabId))
      ensures Synced()
    {
      this.activeTabId := activeTabId;
      this.children := children;
      internalActiveTabId := InitialInternal(activeTabId);
      new;
      RunEffect();
    }

    /** The default-tab effect after a render. */
    method RunEffect()
      modifies this
      ensures activeTabId == old(activeTabId) && children == old(children)
      ensures internalActiveTabId == SyncEffect(activeTabId, children, old(internalActiveTabId))
      ensures Synced()
    {
      if activeTabId.Some? {
        internalActiveTabId := Id(activeTabId.value);
      } else if internalActiveTabId == NullId {
        var first := FirstEnabled(children, 0);
        if first.Some? {
          internalActiveTabId := IdProp(children[first.value]);
        }
      }
      SyncEffectIsIdempotent(old(activeTabId), old(children), old(internalActiveTabId));
    }

    /** A re-render with new props. */
    method Rerender(activeTabId: Option<string>, children: seq<Child<P>>)
      modifies this
      ensures this.activeTabId == activeTabId && this.children == children
      ensures internalActiveTabId == SyncEffect(activeTabId, children, old(internalActiveTabId))
      ensures Synced()
    {
      this.activeTabId := activeTabId;
      this.children := children;
      RunEffect();
    }

    /** `currentActiveTabId`. */
    function ActiveTabId(): ActiveId
      reads this
    {
      CurrentActiveId(activeTabId, internalActiveTabId)
    }

    /** The content shown in the tab panel. */
    function DisplayedPanel(): Option<P>
      reads this
    {
      Panel(Tabs(children), ActiveTabId())
    }

    /**
     * `handleTabClick`: in controlled use only the callback is called; in
     * uncontrolled use the internal id becomes the tab's and the callback is
     * called. `changed` is the argument of `onActiveTabChange` (when given).
     */
    method HandleTabClick(tabId: string) returns (changed: string)
      requires Synced()
      modifies this
      ensures changed == tabId
      ensures activeTabId == old(activeTabId) && children == old(children)
      ensures internalActiveTabId == if activeTabId.Some? then old(internalActiveTabId) else Id(tabId)
      ensures Synced()
    {
      if activeTabId.Some? {
        changed := tabId;
      } else {
        internalActiveTabId := Id(tabId);
        changed := tabId;
        RunEffect();
      }
    }

    /**
     * A click on the button of the `k`-th tab: a disabled tab does nothing at
     * all; an enabled one goes through `handleTabClick`.
     */
    method ClickTab(k: nat) returns (changed: Option<string>)
      requires k < |Tabs(children)| && Synced()
      modifies this
      ensures activeTabId == old(activeTabId) && children == old(children)
      ensures Tabs(children)[k].disabled ==> changed == None && internalActiveTabId == old(internalActiveTabId)
      ensures !Tabs(children)[k].disabled ==> changed == Some(Tabs(children)[k].id)
      ensures !Tabs(children)[k].disabled && activeTabId.None? ==> internalActiveTabId == Id(Tabs(children)[k].id)
      ensures activeTabId.Some? ==> internalActiveTabId == old(internalActiveTabId)
      ensures activeTabId.Some? ==> ActiveTabId() == old(ActiveTabId())
      ensures Synced()
    {
      var tab := Tabs(children)[k];
      if tab.disabled {
        changed := None;
        return;
      }
      var id := HandleTabClick(tab.id);
      changed := Some(id);
    }
  }

  /**
   * Three tabs, the third disabled, no `activeTabId`: the first tab is shown;
   * a click on the disabled tab changes nothing and calls nobody; a click on
   * the second shows its panel and reports "tab2".
   */
  method UncontrolledScenario()
  {
    var tab1 := Tab("tab1", "Tab 1", false, "Content 1");
    var tab2 := Tab("tab2", "Tab 2", false, "Content 2");
    var tab3 := Tab("tab3", "Tab 3", true, "Content 3");
    var children := [TabElement(tab1), TabElement(tab2), TabElement(tab3)];
    assert children[1..][1..][1..] == [];
    assert Tabs(children[1..][1..]) == [tab3];
    assert Tabs(children) == [tab1, tab2, tab3];
    var view := new TabView(None, children);
    assert view.internalActiveTabId == Id("tab1");
    ActiveTabPanelIsShown([tab1, tab2, tab3], 0);
    assert view.DisplayedPanel() == Some("Content 1");
    var changed := view.ClickTab(2);
    assert changed == None && view.DisplayedPanel() == Some("Content 1");
    changed := view.ClickTab(1);
    ActiveTabPanelIsShown([tab1, tab2, tab3], 1);
    assert changed == Some("tab2") && view.DisplayedPanel() == Some("Content 2");
  }

  /**
   * Controlled use: the `activeTabId` prop decides the panel; a click only
   * reports the tab, and a re-render with a new prop switches the panel.
   */
  method ControlledScenario()
  {
    var tab1 := Tab("tab1", "Tab 1", false, "Content 1");
    var tab2 := Tab("tab2", "Tab 2", false, "Content 2");
    var children := [TabElement(tab1), TabElement(tab2)];
    assert children[1..][1..] == [];
    assert Tabs(children) == [tab1, tab2];
    var view := new TabView(Some("tab1"), children);
    ActiveTabPanelIsShown([tab1, tab2], 0);
    assert view.DisplayedPanel() == Some("Content 1");
    var changed := view.ClickTab(1);
    assert changed == Some("tab2") && view.DisplayedPanel() == Some("Content 1");
    view.Rerender(Some("tab2"), children);
    ActiveTabPanelIsShown([tab1, tab2], 1);
    assert view.DisplayedPanel() == Some("Content 2");
  }

  /**
   * A leading enabled element that is not a `<Tab>` and has no `id` hides
   * every panel after mount; a click on the tab still shows its panel.
   */
  method LeadingOtherElementScenario()
  {
    var tab1 := Tab("tab1", "Tab 1", false, "Content 1");
    var children := [OtherElement(None, false), TabElement(tab1)];
    LeadingOtherElementHidesEveryPanel(tab1);
    var view := new TabView(None, children);
    assert view.DisplayedPanel() == None;
    assert Tabs(children) == [tab1];
    var changed := view.ClickTab(0);
    ActiveTabPanelIsShown([tab1], 0);
    assert changed == Some("tab1") && view.DisplayedPanel() == Some("Content 1");
  }

  /**
   * An element that is not a `<Tab>` but comes first is what the default-tab
   * effect picks; it has no `id`, so the active id becomes `undefined`, no
   * panel is shown, and the effect never picks again.
   */
  lemma LeadingOtherElementHidesEveryPanel<P>(t: Tab<P>)
    requires !t.disabled
    ensures var children := [OtherElement(None, false), TabElement(t)];
      var internal := SyncEffect(None, children, InitialInternal(None));
      internal == UndefinedId &&
      Panel(Tabs(children), CurrentActiveId(None, internal)) == None &&
      SyncEffect(None, children, internal) == UndefinedId
  {
    var children := [OtherElement(None, false), TabElement(t)];
    assert FirstEnabled(children, 0) == Some(0);
    assert Tabs(children) == [t];
  }
}
