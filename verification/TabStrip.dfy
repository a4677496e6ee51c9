/** The tab strip: pages are inserted and removed one by one, yet always show the configured
    tabs in their canonical order. */
module TabStrip {
  import opened Text
  import opened Fields

  ghost predicate Distinct<T>(s: seq<T>) {
    forall i, j :: 0 <= i < j < |s| ==> s[i] != s[j]
  }

  /** The canonical order restricted to a set of tabs. */
  function Shown(order: seq<string>, tabs: set<string>): seq<string> {
    if order == [] then []
    else (if order[0] in tabs then [order[0]] else []) + Shown(order[1..], tabs)
  }

  lemma {:induction false} ShownConcat(a: seq<string>, b: seq<string>, tabs: set<string>)
    ensures Shown(a + b, tabs) == Shown(a, tabs) + Shown(b, tabs)
  {
    if a == [] {
      assert a + b == b;
    } else {
      assert (a + b)[0] == a[0] && (a + b)[1..] == a[1..] + b;
      ShownConcat(a[1..], b, tabs);
    }
  }

  lemma {:induction false} ShownMembers(order: seq<string>, tabs: set<string>, name: string)
    ensures name in Shown(order, tabs) <==> name in order && name in tabs
  {
    if order != [] {
      assert order == [order[0]] + order[1..];
      ShownMembers(order[1..], tabs, name);
    }
  }

  lemma {:induction false} ShownDistinct(order: seq<string>, tabs: set<string>)
    requires Distinct(order)
    ensures Distinct(Shown(order, tabs))
  {
    if order != [] {
      ShownDistinct(order[1..], tabs);
      ShownMembers(order[1..], tabs, order[0]);
      assert order[0] !in order[1..];
    }
  }

  /** Only membership of the order's own names matters. */
  lemma {:induction false} ShownAgree(order: seq<string>, a: set<string>, b: set<string>)
    requires forall i :: 0 <= i < |order| ==> (order[i] in a <==> order[i] in b)
    ensures Shown(order, a) == Shown(order, b)
  {
    if order != [] { ShownAgree(order[1..], a, b); }
  }

  /** How the strip looks around position i of the order. */
  lemma ShownAround(order: seq<string>, tabs: set<string>, i: nat)
    requires Distinct(order) && i < |order|
    ensures var pre, post := Shown(order[..i], tabs), Shown(order[i + 1..], tabs);
            Shown(order, tabs + {order[i]}) == pre + [order[i]] + post && Shown(order, tabs - {order[i]}) == pre + post
  {
    var x := order[i];
    var a, b := order[..i], order[i + 1..];
    ShownAgree(a, tabs, tabs + {x});
    ShownAgree(b, tabs, tabs + {x});
    ShownAgree(a, tabs, tabs - {x});
    ShownAgree(b, tabs, tabs - {x});
    SplitInThree(order, i, i + 1);
    assert order[i..i + 1] == [x];
    ShownThree(a, [x], b, tabs + {x});
    ShownThree(a, [x], b, tabs - {x});
    assert Shown([x], tabs + {x}) == [x] && Shown([x], tabs - {x}) == [];
  }

  lemma ShownThree(a: seq<string>, b: seq<string>, c: seq<string>, tabs: set<string>)
    ensures Shown(a + b + c, tabs) == Shown(a, tabs) + Shown(b, tabs) + Shown(c, tabs)
  {
    ShownConcat(a + b, c, tabs);
    ShownConcat(a, b, tabs);
  }

  /** Names missing from the set disappear: what is shown starts with the next name that is in it. */
  lemma {:induction false} ShownSkips(order: seq<string>, tabs: set<string>, k: nat)
    requires k <= |order| && forall i :: 0 <= i < k ==> order[i] !in tabs
    ensures Shown(order, tabs) == Shown(order[k..], tabs)
  {
    if k > 0 {
      ShownSkips(order[1..], tabs, k - 1);
      assert order[1..][k - 1..] == order[k..];
    }
  }

  /** SHOWTAB<suffix>=value and the submenu name tabs by suffix, ignoring case. */
  datatype Event =
    | ShowTabSetting(suffix: string, value: string)
    | MenuToggled(suffix: string)
    | MidiSwitchedOff

  /** The configured tabs and the check marks of the submenu. */
  datatype Config = Config(visible: set<string>, marked: set<string>)

  const TAB_ORDER := ["tabPreset", "tabMessage", "tabInOut", "tabSettings", "tabLyrics", "tabFonts", "tabMidi",
    "tabWave", "tabShader"]
  const SUFFIXES := ["PRESET", "MESSAGE", "INOUT", "SETTINGS", "LYRICS", "FONTS", "MIDI", "WAVE", "SHADER"]
  const MIDI_SUFFIX := "MIDI"
  const MIDI_TAB := "tabMidi"

  /** The program's own order fits the theorems about any order. */
  lemma TabOrderFits()
    ensures Distinct(TAB_ORDER) && |TAB_ORDER| == |SUFFIXES| && MIDI_TAB in TAB_ORDER
  {
  }

  function With(s: set<string>, name: string, member: bool): set<string> {
    if member then s + {name} else s - {name}
  }

  /** What an event makes of the configuration. */
  function Configure(c: Config, order: seq<string>, suffixes: seq<string>, midiEnabled: bool, e: Event): Config
    requires |order| == |suffixes|
  {
    match e
    case ShowTabSetting(suffix, value) =>
      var i := SlotOf(suffixes, suffix);
      if i == |suffixes| then c
      else
        var show := value == "1" && (!EqualsIgnoreCase(suffix, MIDI_SUFFIX) || midiEnabled);
        Config(With(c.visible, order[i], show), With(c.marked, order[i], value == "1"))
    case MenuToggled(suffix) =>
      var i := SlotOf(suffixes, suffix);
      if i == |suffixes| then c
      else
        var visible := order[i] !in c.marked;
        Config(With(c.visible, order[i], visible), With(c.marked, order[i], visible))
    case MidiSwitchedOff => c.(visible := c.visible - {MIDI_TAB})
  }

  function ConfigureAll(c: Config, order: seq<string>, suffixes: seq<string>, midiEnabled: bool,
      events: seq<Event>): Config
    requires |order| == |suffixes|
  {
    if events == [] then c
    else
      var n := |events| - 1;
      Configure(ConfigureAll(c, order, suffixes, midiEnabled, events[..n]), order, suffixes, midiEnabled, events[n])
  }

  class TabControl {
    const order: seq<string>
    const suffixes: seq<string>
    const midiEnabled: bool
    var tabPages: seq<string>
    var selectedIndex: int
    var configuredVisibleTabs: set<string>
    var menuChecked: set<string>

    /** The strip shows some set of tabs, in canonical order. */
    ghost predicate InOrder()
      reads this
    {
      Distinct(order) && |order| == |suffixes| && tabPages == Shown(order, set p | p in tabPages)
    }

    /** Between events: exactly the configured tabs in canonical order, with a valid selection. */
    ghost predicate Valid()
      reads this
    {
      && Distinct(order) && |order| == |suffixes|
      && tabPages == Shown(order, configuredVisibleTabs)
      && (tabPages != [] ==> 0 <= selectedIndex < |tabPages|)
    }

    function Configured(): Config
      reads this
    {
      Config(configuredVisibleTabs, menuChecked)
    }

    constructor (order: seq<string>, suffixes: seq<string>, midiEnabled: bool)
      requires Distinct(order) && |order| == |suffixes|
      ensures Valid() && this.order == order && this.suffixes == suffixes && this.midiEnabled == midiEnabled
      ensures tabPages == order && configuredVisibleTabs == (set p | p in order) == menuChecked
    {
      this.order, this.suffixes, this.midiEnabled := order, suffixes, midiEnabled;
      tabPages, selectedIndex := order, 0;
      configuredVisibleTabs := set p | p in order;
      menuChecked := set p | p in order;
      AllShown(order, set p | p in order);
    }

    static lemma AllShown(order: seq<string>, tabs: set<string>)
      requires forall i :: 0 <= i < |order| ==> order[i] in tabs
      ensures Shown(order, tabs) == order
    {
    }

    /** TabPages.Insert and Remove; where the control moves its selection is its own business. */
    method Insert(at: nat, page: string)
      requires at <= |tabPages|
      modifies this`tabPages, this`selectedIndex
      ensures tabPages == old(tabPages[..at]) + [page] + old(tabPages[at..])
    {
      tabPages := tabPages[..at] + [page] + tabPages[at..];
      selectedIndex := *;
    }

    method Remove(page: string)
      requires page in tabPages
      modifies this`tabPages, this`selectedIndex
      ensures exists i :: 0 <= i < |old(tabPages)| && old(tabPages)[i] == page &&
                tabPages == old(tabPages)[..i] + old(tabPages)[i + 1..]
    {
      var i := IndexOfPage(page);
      tabPages := tabPages[..i] + tabPages[i + 1..];
      selectedIndex := *;
    }

    method IndexOfPage(page: string) returns (i: nat)
      requires page in tabPages
      ensures i < |tabPages| && tabPages[i] == page && page !in tabPages[..i]
    {
      i := 0;
      while tabPages[i] != page
        invariant i < |tabPages| && page in tabPages[i..] && page !in tabPages[..i]
        decreases |tabPages| - i
      {
        assert tabPages[i..] == [tabPages[i]] + tabPages[i + 1..];
        i := i + 1;
      }
    }

    method InsertTabAtCanonicalPosition(selfIdx: nat, ghost tabs: set<string>)
      requires Distinct(order) && selfIdx < |order|
      requires order[selfIdx] !in tabs && tabPages == Shown(order, tabs)
      modifies this`tabPages, this`selectedIndex
      ensures tabPages == Shown(order, tabs + {order[selfIdx]})
    {
      var page := order[selfIdx];
      ghost var pre, post := Shown(order[..selfIdx], tabs), Shown(order[selfIdx + 1..], tabs);
      ShownAround(order, tabs, selfIdx);
      assert tabs - {page} == tabs;
      var insertAt := |tabPages|;
      ShownMembersAll(order, tabs);
      var i := selfIdx + 1;
      while i < |order|
        invariant selfIdx < i <= |order|
        invariant forall k :: selfIdx < k < i ==> order[k] !in tabs
        invariant insertAt == |tabPages|
      {
        if order[i] in tabPages {
          insertAt := IndexOfPage(order[i]);
          NextShown(order, tabs, selfIdx, i, insertAt);
          break;
        }
        i := i + 1;
      }
      if i == |order| {
        ShownSkips(order[selfIdx + 1..], tabs, |order| - selfIdx - 1);
        assert order[selfIdx + 1..][|order| - selfIdx - 1..] == [];
      }
      assert insertAt == |pre|;
      Insert(insertAt, page);
    }

    static lemma ShownMembersAll(order: seq<string>, tabs: set<string>)
      ensures forall name :: name in Shown(order, tabs) <==> name in order && name in tabs
    {
      forall name ensures name in Shown(order, tabs) <==> name in order && name in tabs {
        ShownMembers(order, tabs, name);
      }
    }

    /** The next tab shown stands right behind the tabs shown before the gap. */
    static lemma NextShown(order: seq<string>, tabs: set<string>, gap: nat, next: nat, at: nat)
      requires Distinct(order) && gap < next < |order| && order[gap] !in tabs && order[next] in tabs
      requires forall k :: gap < k < next ==> order[k] !in tabs
      requires at < |Shown(order, tabs)| && Shown(order, tabs)[at] == order[next]
      ensures at == |Shown(order[..gap], tabs)|
    {
      var pre, post := Shown(order[..gap], tabs), Shown(order[gap + 1..], tabs);
      ShownAround(order, tabs, gap);
      assert tabs - {order[gap]} == tabs;
      ShownSkips(order[gap + 1..], tabs, next - gap - 1);
      assert order[gap + 1..][next - gap - 1..] == order[next..];
      assert post[0] == order[next];
      assert (pre + post)[|pre|] == order[next];
      ShownDistinct(order, tabs);
    }

    method RemoveTab(selfIdx: nat, ghost tabs: set<string>)
      requires Distinct(order) && selfIdx < |order|
      requires order[selfIdx] in tabs && tabPages == Shown(order, tabs)
      modifies this`tabPages, this`selectedIndex
      ensures tabPages == Shown(order, tabs - {order[selfIdx]})
    {
      ShownAround(order, tabs, selfIdx);
      ShownDistinct(order, tabs);
      assert tabs + {order[selfIdx]} == tabs;
      assert tabPages[|Shown(order[..selfIdx], tabs)|] == order[selfIdx];
      Remove(order[selfIdx]);
    }

    method UpdateTabPages()
      requires InOrder()
      modifies this`tabPages, this`selectedIndex
      ensures Valid()
    {
      ghost var tabs := set p | p in tabPages;
      for i := 0 to |order|
        invariant tabPages == Shown(order, tabs)
        invariant forall k :: 0 <= k < i ==> (order[k] in tabs <==> order[k] in configuredVisibleTabs)
      {
        var name := order[i];
        ShownMembers(order, tabs, name);
        var shouldShow, present := name in configuredVisibleTabs, name in tabPages;
        if shouldShow && !present {
          InsertTabAtCanonicalPosition(i, tabs);
          tabs := tabs + {name};
        } else if !shouldShow && present {
          RemoveTab(i, tabs);
          tabs := tabs - {name};
        }
      }
      ShownAgree(order, tabs, configuredVisibleTabs);
      if |tabPages| > 0 && (selectedIndex < 0 || selectedIndex >= |tabPages|) { selectedIndex := 0; }
    }

    method SetTabVisible(page: string, visible: bool)
      requires Valid()
      modifies this`tabPages, this`selectedIndex, this`configuredVisibleTabs
      ensures Valid() && configuredVisibleTabs == With(old(configuredVisibleTabs), page, visible)
    {
      ShownMembersAll(order, configuredVisibleTabs);
      ShownAgree(order, configuredVisibleTabs, set p | p in tabPages);
      configuredVisibleTabs := if visible then configuredVisibleTabs + {page} else configuredVisibleTabs - {page};
      UpdateTabPages();
    }

    method ApplyTabVisibility(suffix: string, value: string)
      requires Valid()
      modifies this
      ensures Valid()
      ensures Configured() == Configure(old(Configured()), order, suffixes, midiEnabled, ShowTabSetting(suffix, value))
    {
      var configured := value == "1";
      var i := SlotOf(suffixes, suffix);
      if i == |suffixes| { return; }
      menuChecked := if configured then menuChecked + {order[i]} else menuChecked - {order[i]};
      var show := configured && (!EqualsIgnoreCase(suffix, MIDI_SUFFIX) || midiEnabled);
      SetTabVisible(order[i], show);
    }

    method ShowTab_Click(suffix: string)
      requires Valid()
      modifies this
      ensures Valid()
      ensures Configured() == Configure(old(Configured()), order, suffixes, midiEnabled, MenuToggled(suffix))
    {
      var i := SlotOf(suffixes, suffix);
      if i == |suffixes| { return; }
      var visible := order[i] !in menuChecked;
      menuChecked := if visible then menuChecked + {order[i]} else menuChecked - {order[i]};
      SetTabVisible(order[i], visible);
    }

    /** After any events the strip is the canonical order filtered by the configuration they produce. */
    method Run(events: seq<Event>)
      requires Valid()
      modifies this
      ensures Valid()
      ensures tabPages == Shown(order, ConfigureAll(old(Configured()), order, suffixes, midiEnabled, events).visible)
    {
      assert events[..|events|] == events;
      for i := 0 to |events|
        invariant Valid()
        invariant Configured() == ConfigureAll(old(Configured()), order, suffixes, midiEnabled, events[..i])
      {
        assert events[..i + 1][..i] == events[..i];
        match events[i] {
          case ShowTabSetting(suffix, value) => ApplyTabVisibility(suffix, value);
          case MenuToggled(suffix) => ShowTab_Click(suffix);
          case MidiSwitchedOff => SetTabVisible(MIDI_TAB, false);
        }
      }
    }
  }

  // ----- What a configuration depends on -----

  predicate Addresses(suffixes: seq<string>, e: Event, i: nat) {
    e.ShowTabSetting? && SlotOf(suffixes, e.suffix) == i
  }

  /** The visible part follows each tab's last setting: settings for other tabs, in whatever
      number and order they arrive, make no difference to it. */
  lemma {:induction false} LastSettingWins(c: Config, order: seq<string>, suffixes: seq<string>, midiEnabled: bool,
                                           setting: Event, rest: seq<Event>, i: nat)
    requires Distinct(order) && |order| == |suffixes| && i < |order|
    requires Addresses(suffixes, setting, i)
    requires forall k :: 0 <= k < |rest| ==> rest[k].ShowTabSetting? && !Addresses(suffixes, rest[k], i)
    ensures order[i] in ConfigureAll(c, order, suffixes, midiEnabled, [setting] + rest).visible
       <==> setting.value == "1" && (!EqualsIgnoreCase(setting.suffix, MIDI_SUFFIX) || midiEnabled)
    decreases |rest|
  {
    hide SlotOf;
    var all := [setting] + rest;
    if rest == [] {
      assert all[..0] == [] && all == [setting];
    } else {
      var n := |rest| - 1;
      LastSettingWins(c, order, suffixes, midiEnabled, setting, rest[..n], i);
      assert all[..|all| - 1] == [setting] + rest[..n];
      var j := SlotOf(suffixes, rest[n].suffix);
      assert j < |order| ==> order[j] != order[i];
    }
  }

  /** The event is about tab i: a setting or a click with its suffix. */
  predicate Names(suffixes: seq<string>, e: Event, i: nat) {
    !e.MidiSwitchedOff? && SlotOf(suffixes, e.suffix) == i
  }

  /** The menu mark of one tab after a run: the last setting decides, and every click behind it flips it. */
  predicate MarkedAfter(before: bool, suffixes: seq<string>, events: seq<Event>, i: nat) {
    if events == [] then before
    else
      var e := events[|events| - 1];
      var earlier := MarkedAfter(before, suffixes, events[..|events| - 1], i);
      if !Names(suffixes, e, i) then earlier
      else if e.MenuToggled? then !earlier
      else e.value == "1"
  }

  /** Whether the tab is to be shown: a click shows it as its mark says, a setting as well, but the MIDI tab
      only with MIDI; switching MIDI off hides that tab. */
  predicate ShownAfter(c: Config, order: seq<string>, suffixes: seq<string>, midiEnabled: bool, events: seq<Event>,
                       i: nat)
    requires i < |order|
  {
    if events == [] then order[i] in c.visible
    else
      var e := events[|events| - 1];
      if e.MidiSwitchedOff? && order[i] == "tabMidi" then false
      else if !Names(suffixes, e, i) then ShownAfter(c, order, suffixes, midiEnabled, events[..|events| - 1], i)
      else if e.MenuToggled? then MarkedAfter(order[i] in c.marked, suffixes, events, i)
      else e.value == "1" && (midiEnabled || Lower(e.suffix) != Lower("MIDI"))
  }

  /** After any run each tab is marked and shown as its own events say. */
  lemma {:induction false} TabAfterRun(c: Config, order: seq<string>, suffixes: seq<string>, midiEnabled: bool,
                                       events: seq<Event>, i: nat)
    requires Distinct(order) && |order| == |suffixes| && i < |order|
    ensures var d := ConfigureAll(c, order, suffixes, midiEnabled, events);
            (order[i] in d.marked <==> MarkedAfter(order[i] in c.marked, suffixes, events, i)) &&
            (order[i] in d.visible <==> ShownAfter(c, order, suffixes, midiEnabled, events, i))
  {
    hide SlotOf;
    if events != [] {
      var n := |events| - 1;
      TabAfterRun(c, order, suffixes, midiEnabled, events[..n], i);
      if !events[n].MidiSwitchedOff? {
        var j := SlotOf(suffixes, events[n].suffix);
        assert j != i && j < |order| ==> order[j] != order[i];
      }
    }
  }

  /** Two clicks leave every mark as it was, and show the tab as its mark says. */
  lemma ClickTwice(c: Config, order: seq<string>, suffixes: seq<string>, midiEnabled: bool, suffix: string)
    requires |order| == |suffixes|
    ensures var e := MenuToggled(suffix);
            var once := Configure(c, order, suffixes, midiEnabled, e);
            var twice := Configure(once, order, suffixes, midiEnabled, e);
            var i := SlotOf(suffixes, suffix);
            twice.marked == c.marked &&
            (i < |order| ==>
              (order[i] in once.marked <==> order[i] !in c.marked) &&
              (order[i] in once.visible <==> order[i] in once.marked) &&
              (order[i] in twice.visible <==> order[i] in c.marked))
  {
  }

  // ----- Settings as fields of a message -----

  predicate AllSettings(events: seq<Event>) {
    forall i :: 0 <= i < |events| ==> events[i].ShowTabSetting?
  }

  function SettingFields(events: seq<Event>): (r: seq<Option<Field>>)
    requires AllSettings(events)
    ensures |r| == |events| && forall i :: 0 <= i < |r| ==> r[i] == Some(Field(events[i].suffix, events[i].value))
  {
    if events == [] then []
    else
      var n := |events| - 1;
      SettingFields(events[..n]) + [Some(Field(events[n].suffix, events[n].value))]
  }

  /** What a setting makes of one tab: whether it is shown and whether its menu entry is checked. */
  function TabProtocol(suffixes: seq<string>, midiEnabled: bool): (p: Protocol<(bool, bool)>)
    ensures p.keys == suffixes
  {
    Protocol(suffixes, (i: nat, value: string) =>
      if i < |suffixes| then
        Some((value == "1" && (!EqualsIgnoreCase(suffixes[i], MIDI_SUFFIX) || midiEnabled), value == "1"))
      else None)
  }

  /** A configuration, tab by tab. */
  function View(c: Config, order: seq<string>): (r: seq<(bool, bool)>)
    ensures |r| == |order| && forall i :: 0 <= i < |r| ==> r[i] == (order[i] in c.visible, order[i] in c.marked)
  {
    if order == [] then []
    else
      var n := |order| - 1;
      View(c, order[..n]) + [(order[n] in c.visible, order[n] in c.marked)]
  }

  ghost predicate SameOutside(c: Config, d: Config, order: seq<string>) {
    forall name :: name !in order ==>
      (name in c.visible <==> name in d.visible) && (name in c.marked <==> name in d.marked)
  }

  lemma ConfigureView(c: Config, order: seq<string>, suffixes: seq<string>, midiEnabled: bool, e: Event)
    requires Distinct(order) && |order| == |suffixes| && e.ShowTabSetting?
    ensures var d := Configure(c, order, suffixes, midiEnabled, e);
            View(d, order)
              == Apply(TabProtocol(suffixes, midiEnabled), View(c, order), Some(Field(e.suffix, e.value))) &&
            SameOutside(c, d, order)
  {
    hide View, SlotOf;
    var d := Configure(c, order, suffixes, midiEnabled, e);
    var i := SlotOf(suffixes, e.suffix);
    var applied := Apply(TabProtocol(suffixes, midiEnabled), View(c, order), Some(Field(e.suffix, e.value)));
    if i < |suffixes| {
      forall j | 0 <= j < |order| ensures View(d, order)[j] == applied[j] {
        assert j != i ==> order[j] != order[i];
      }
    }
  }

  lemma PrefixFields(events: seq<Event>, n: nat)
    requires AllSettings(events) && n < |events|
    ensures AllSettings(events[..n]) && SettingFields(events)[..n] == SettingFields(events[..n]) &&
              events[n].ShowTabSetting?
  {
    hide SettingFields;
  }

  lemma LastSetting(c: Config, order: seq<string>, suffixes: seq<string>, midiEnabled: bool, events: seq<Event>)
    requires |order| == |suffixes| && AllSettings(events) && events != []
    ensures var n, p := |events| - 1, TabProtocol(suffixes, midiEnabled);
            && ConfigureAll(c, order, suffixes, midiEnabled, events)
               == Configure(ConfigureAll(c, order, suffixes, midiEnabled, events[..n]), order, suffixes, midiEnabled,
                            events[n])
            && ApplyAll(p, View(c, order), SettingFields(events))
               == Apply(p, ApplyAll(p, View(c, order), SettingFields(events)[..n]),
                        Some(Field(events[n].suffix, events[n].value)))
  {
    hide Apply, Configure, View, TabProtocol, SettingFields;
  }

  /** A run of settings acts on each tab as fields of a message act on their controls. */
  lemma {:induction false} ConfigureAllView(c: Config, order: seq<string>, suffixes: seq<string>, midiEnabled: bool,
          events: seq<Event>)
    requires Distinct(order) && |order| == |suffixes| && AllSettings(events)
    ensures var d := ConfigureAll(c, order, suffixes, midiEnabled, events);
            View(d, order) == ApplyAll(TabProtocol(suffixes, midiEnabled), View(c, order), SettingFields(events)) &&
            SameOutside(c, d, order)
  {
    if events != [] {
      hide *;
      var n := |events| - 1;
      var before := ConfigureAll(c, order, suffixes, midiEnabled, events[..n]);
      var after := ConfigureAll(c, order, suffixes, midiEnabled, events);
      PrefixFields(events, n);
      ConfigureAllView(c, order, suffixes, midiEnabled, events[..n]);
      ConfigureView(before, order, suffixes, midiEnabled, events[n]);
      LastSetting(c, order, suffixes, midiEnabled, events);
      OutsideTwice(c, before, after, order);
    }
  }

  lemma OutsideTwice(a: Config, b: Config, c: Config, order: seq<string>)
    requires SameOutside(a, b, order) && SameOutside(b, c, order)
    ensures SameOutside(a, c, order)
  {
  }

  lemma SameConfig(c: Config, d: Config, order: seq<string>)
    requires View(c, order) == View(d, order) && SameOutside(c, d, order)
    ensures c == d
  {
    forall name ensures (name in c.visible <==> name in d.visible) && (name in c.marked <==> name in d.marked) {
      if name in order {
        var i :| 0 <= i < |order| && order[i] == name;
        assert View(c, order)[i] == View(d, order)[i];
      }
    }
  }

  /** The same settings again change nothing. */
  lemma SettingsTwice(c: Config, order: seq<string>, suffixes: seq<string>, midiEnabled: bool, events: seq<Event>)
    requires Distinct(order) && |order| == |suffixes| && AllSettings(events)
    ensures var once := ConfigureAll(c, order, suffixes, midiEnabled, events);
            ConfigureAll(once, order, suffixes, midiEnabled, events) == once
  {
    hide View, TabProtocol, SettingFields, ApplyAll, ConfigureAll;
    var once := ConfigureAll(c, order, suffixes, midiEnabled, events);
    ConfigureAllView(c, order, suffixes, midiEnabled, events);
    ConfigureAllView(once, order, suffixes, midiEnabled, events);
    ApplyTwice(TabProtocol(suffixes, midiEnabled), View(c, order), SettingFields(events));
    SameConfig(once, ConfigureAll(once, order, suffixes, midiEnabled, events), order);
  }

  lemma FieldsWithout(events: seq<Event>, k: nat)
    requires AllSettings(events) && k < |events|
    ensures var rest, all := events[..k] + events[k + 1..], SettingFields(events);
            AllSettings(rest) && SettingFields(rest) == all[..k] + all[k + 1..]
  {
    hide SettingFields;
    assert AllSettings(events[..k] + events[k + 1..]);
  }

  lemma {:induction false} FieldsMultiset(events: seq<Event>, permuted: seq<Event>)
    requires AllSettings(events) && AllSettings(permuted) && multiset(events) == multiset(permuted)
    ensures multiset(SettingFields(events)) == multiset(SettingFields(permuted))
    decreases |events|
  {
    hide SettingFields, AllSettings;
    assert |events| == |multiset(events)| == |permuted|;
    if events == [] {
      assert events == permuted;
    } else {
      var n := |events| - 1;
      assert events[n] in multiset(permuted);
      var k :| 0 <= k < |permuted| && permuted[k] == events[n];
      Without(events, n);
      Without(permuted, k);
      FieldsWithout(events, n);
      FieldsWithout(permuted, k);
      Cancel(multiset(events[..n] + events[n + 1..]), multiset(permuted[..k] + permuted[k + 1..]), events[n]);
      FieldsMultiset(events[..n] + events[n + 1..], permuted[..k] + permuted[k + 1..]);
      Without(SettingFields(events), n);
      Without(SettingFields(permuted), k);
    }
  }

  /** Settings for different tabs may come in any order. */
  lemma SettingsAnyOrder(c: Config, order: seq<string>, suffixes: seq<string>, midiEnabled: bool, events: seq<Event>,
          permuted: seq<Event>)
    requires Distinct(order) && |order| == |suffixes| && AllSettings(events) && AllSettings(permuted)
    requires DistinctKeys(TabProtocol(suffixes, midiEnabled), SettingFields(events)) &&
              multiset(events) == multiset(permuted)
    ensures ConfigureAll(c, order, suffixes, midiEnabled, events)
         == ConfigureAll(c, order, suffixes, midiEnabled, permuted)
  {
    hide View, TabProtocol, SettingFields, ApplyAll, ConfigureAll;
    ConfigureAllView(c, order, suffixes, midiEnabled, events);
    ConfigureAllView(c, order, suffixes, midiEnabled, permuted);
    FieldsMultiset(events, permuted);
    AnyOrder(TabProtocol(suffixes, midiEnabled), View(c, order), SettingFields(events), SettingFields(permuted));
    SameConfig(ConfigureAll(c, order, suffixes, midiEnabled, events),
               ConfigureAll(c, order, suffixes, midiEnabled, permuted), order);
  }
}
