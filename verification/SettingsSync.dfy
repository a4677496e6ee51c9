/** The SETTINGS| message: the visualizer's state copied into the Remote's controls, without the
    controls' own events sending anything back. */
module SettingsSync {
  import opened Text
  import opened Numerals
  import opened Fields
  import TabStrip

  // ----- The controls -----

  datatype Control = Check(on: bool) | Content(text: string) | Number(value: Dec) | Choice(index: int)

  type Byte = n: int | 0 <= n < 0x100

  /** How a control reads the text of its field. */
  datatype Kind =
    | CheckBox
    | TextBox
    | StrictNumber                       // decimal.Parse; out of range raises an exception
    | ClampedNumber                      // decimal.TryParse, then Math.Clamp
    | ClampedWhole                       // decimal.TryParse of a whole number, then Math.Clamp
    | ClampedInteger                     // int.TryParse, then Math.Clamp
    | ClampedIndex(shift: int)           // int.TryParse, shifted, clamped to the items if there are any
    | ColorComponent(default: Byte)       // int.TryParse clamped to a byte, or a default
    | Item                               // the item with exactly this text
    | ItemIgnoringCase

  datatype Entry = Entry(key: string, kind: Kind)

  /** The fields in the order the parser tries their keys. */
  const TABLE: seq<Entry> := SPOUT_AND_PRESET + DISPLAY + LYRICS_TEXT + LYRICS_PLACE

  const SPOUT_AND_PRESET: seq<Entry> := [
    Entry("ACTIVE", CheckBox), Entry("FIXEDSIZE", CheckBox), Entry("FIXEDWIDTH", TextBox),
    Entry("FIXEDHEIGHT", TextBox),
    Entry("QUALITY", StrictNumber), Entry("AUTO", CheckBox), Entry("HUE", ClampedNumber), Entry("LOCKED", CheckBox),
    Entry("RANDOM", CheckBox), Entry("MIXTYPE", ClampedIndex(1)), Entry("CHANGEWITHSONG", CheckBox)]

  const DISPLAY: seq<Entry> := [
    Entry("DISPLAYCOVER", CheckBox), Entry("COVERSTYLE", ClampedIndex(0)), Entry("SONGINFOPOLLING", CheckBox),
    Entry("PRESETINFOONCHANGE", CheckBox), Entry("INVERTPRESET", CheckBox), Entry("INPUTTOP", CheckBox),
    Entry("LUMAACTIVE", CheckBox), Entry("LUMATHR", ClampedWhole), Entry("LUMASOFT", ClampedWhole)]

  const LYRICS_TEXT: seq<Entry> := [
    Entry("LYRICSACTIVE", CheckBox), Entry("LYRICSAUTO", CheckBox), Entry("LYRICSSTATUS", TextBox),
    Entry("LYRICSLINE", TextBox), Entry("LYRICSFILE", TextBox), Entry("LYRICSFONT", Item),
    Entry("LYRICSFONTSIZE", ClampedInteger), Entry("LYRICSFONTBOLD", CheckBox), Entry("LYRICSFONTITALIC", CheckBox),
    Entry("LYRICSFONTAA", CheckBox), Entry("LYRICSCOLORR", ColorComponent(255)),
    Entry("LYRICSCOLORG", ColorComponent(255)),
    Entry("LYRICSCOLORB", ColorComponent(255)), Entry("LYRICSOUTLINE", ClampedIndex(0)),
    Entry("LYRICSOUTLINEAMOUNT", ClampedNumber), Entry("LYRICSOUTLINECOLORR", ColorComponent(0)),
    Entry("LYRICSOUTLINECOLORG", ColorComponent(0)), Entry("LYRICSOUTLINECOLORB", ColorComponent(0))]

  const LYRICS_PLACE: seq<Entry> := [
    Entry("LYRICSPOSX", ClampedNumber), Entry("LYRICSPOSY", ClampedNumber), Entry("LYRICSSTARTX", ClampedNumber),
    Entry("LYRICSSTARTY", ClampedNumber), Entry("LYRICSZOOM", ClampedNumber), Entry("LYRICSFADE", ClampedNumber),
    Entry("LYRICSOFFSET", ClampedNumber), Entry("LYRICSWIDTH", ClampedNumber), Entry("LYRICSBURN", ClampedNumber),
    Entry("LYRICSBURNTYPE", ClampedNumber), Entry("LYRICSAUTOSCALE", CheckBox), Entry("TEXTBORDER", ClampedNumber),
    Entry("TEXTBORDERCOLORR", ColorComponent(0)), Entry("TEXTBORDERCOLORG", ColorComponent(0)),
    Entry("TEXTBORDERCOLORB", ColorComponent(0)), Entry("DESKTOMMONITORS", ItemIgnoringCase)]

  const LOCKED := 7
  const SONG := 10

  lemma LockAndSong()
    ensures TABLE[LOCKED] == Entry("LOCKED", CheckBox) && TABLE[SONG] == Entry("CHANGEWITHSONG", CheckBox)
  {
  }

  function KeysOf(table: seq<Entry>): (r: seq<string>)
    ensures |r| == |table| && forall i :: 0 <= i < |r| ==> r[i] == table[i].key
  {
    seq(|table|, i requires 0 <= i < |table| => table[i].key)
  }

  /** Ranges of the numeric controls and items of the combo boxes, by control. */
  datatype Form = Form(minimum: nat -> Dec, maximum: nat -> Dec, items: nat -> seq<string>)

  function Clamp(d: Dec, lo: Dec, hi: Dec): Dec {
    if LessEq(d, lo) && !LessEq(lo, d) then lo else if LessEq(hi, d) && !LessEq(d, hi) then hi else d
  }

  function ClampInt(n: int, lo: int, hi: int): int {
    if n < lo then lo else if n > hi then hi else n
  }

  /** 32-bit addition wraps around. */
  function Wrap(n: int): int {
    (n + 0x8000_0000) % 0x1_0000_0000 - 0x8000_0000
  }

  function ItemIndex(items: seq<string>, text: string, ignoreCase: bool): (r: nat)
    ensures r <= |items|
  {
    if items == [] || (if ignoreCase then EqualsIgnoreCase(items[0], text) else items[0] == text) then 0
    else 1 + ItemIndex(items[1..], text, ignoreCase)
  }

  function Accept(form: Form, kind: Kind, i: nat, text: string): Option<Control> {
    match kind
    case CheckBox => Some(Check(text == "1"))
    case TextBox => Some(Content(text))
    case StrictNumber =>
      (match ParseDecimal(text)
       case Some(d) => if LessEq(form.minimum(i), d) && LessEq(d, form.maximum(i)) then Some(Number(d)) else None
       case None => None)
    case ClampedNumber =>
      (match ParseDecimal(text)
       case Some(d) => Some(Number(Clamp(d, form.minimum(i), form.maximum(i))))
       case None => None)
    case ClampedWhole =>
      (match ParseWhole(text)
       case Some(d) => Some(Number(Clamp(d, form.minimum(i), form.maximum(i))))
       case None => None)
    case ClampedInteger =>
      (match ParseInt(text)
       case Some(d) => Some(Number(Clamp(d, form.minimum(i), form.maximum(i))))
       case None => None)
    case ClampedIndex(shift) =>
      (match ParseInt(text)
       case Some(d) =>
         if form.items(i) == [] then None else Some(Choice(ClampInt(Wrap(d.coeff + shift), 0, |form.items(i)| - 1)))
       case None => None)
    case ColorComponent(default) =>
      (match ParseInt(text)
       case Some(d) => Some(Choice(ClampInt(d.coeff, 0, 255)))
       case None => Some(Choice(default)))
    case Item =>
      var k := ItemIndex(form.items(i), text, false);
      if k < |form.items(i)| then Some(Choice(k)) else None
    case ItemIgnoringCase =>
      var k := ItemIndex(form.items(i), text, true);
      if k < |form.items(i)| then Some(Choice(k)) else None
  }

  function ProtocolOf(form: Form): Protocol<Control> {
    Protocol(KeysOf(TABLE), (i: nat, text: string) =>
      if i < |TABLE| then Accept(form, TABLE[i].kind, i, text) else None)
  }

  // ----- What a field leaves in its control -----

  /** The first item that is the text, or is so ignoring case. */
  ghost predicate FirstItem(items: seq<string>, text: string, ignoreCase: bool, j: int) {
    && 0 <= j < |items| && Same(items[j], text, ignoreCase)
    && forall k :: 0 <= k < j ==> !Same(items[k], text, ignoreCase)
  }

  predicate Same(a: string, b: string, ignoreCase: bool) { if ignoreCase then Lower(a) == Lower(b) else a == b }

  predicate Listed(items: seq<string>, text: string, ignoreCase: bool) {
    exists j :: 0 <= j < |items| && Same(items[j], text, ignoreCase)
  }

  predicate Between(lo: Dec, d: Dec, hi: Dec) { LessEq(lo, d) && LessEq(d, hi) }

  /** What the text leaves in a control that held something before. */
  ghost predicate Leaves(form: Form, kind: Kind, i: nat, text: string, before: Control, after: Control) {
    var items, lo, hi := form.items(i), form.minimum(i), form.maximum(i);
    match kind
    case CheckBox => after == Check(text == "1")
    case TextBox => after == Content(text)
    case Item =>
      if Listed(items, text, false) then after.Choice? && FirstItem(items, text, false, after.index)
      else after == before
    case ItemIgnoringCase =>
      if Listed(items, text, true) then after.Choice? && FirstItem(items, text, true, after.index)
      else after == before
    case ColorComponent(default) =>
      (match ParseInt(text)
       case None => after == Choice(default)
       case Some(d) => after == Choice(if d.coeff < 0 then 0 else if d.coeff > 255 then 255 else d.coeff))
    case ClampedIndex(shift) =>
      (match ParseInt(text)
       case None => after == before
       case Some(d) =>
         var n, index := |items|, d.coeff + shift;
         if n == 0 then after == before
         else 0 <= index < n && index < 0x8000_0000 ==> after == Choice(index))
    case StrictNumber =>
      (match ParseDecimal(text)
       case None => after == before
       case Some(d) => after == if Between(lo, d, hi) then Number(d) else before)
    case ClampedNumber => NumberLeft(ParseDecimal(text), lo, hi, before, after)
    case ClampedWhole => NumberLeft(ParseWhole(text), lo, hi, before, after)
    case ClampedInteger => NumberLeft(ParseInt(text), lo, hi, before, after)
  }

  /** A number in the range as it is, any other the end of the range on its side; no number, nothing. */
  ghost predicate NumberLeft(read: Option<Dec>, lo: Dec, hi: Dec, before: Control, after: Control) {
    match read
    case None => after == before
    case Some(d) =>
      && (Between(lo, d, hi) ==> after == Number(d))
      && (LessEq(lo, hi) && !LessEq(lo, d) ==> after == Number(lo))
      && (LessEq(lo, hi) && !LessEq(d, hi) ==> after == Number(hi))
  }

  lemma {:induction false} ItemIndexIs(items: seq<string>, text: string, ignoreCase: bool)
    ensures var k := ItemIndex(items, text, ignoreCase);
            if k < |items| then FirstItem(items, text, ignoreCase, k) && Listed(items, text, ignoreCase)
            else !Listed(items, text, ignoreCase)
  {
    if items != [] {
      ItemIndexIs(items[1..], text, ignoreCase);
      assert forall j :: 0 < j < |items| ==> items[j] == items[1..][j - 1];
    }
  }

  /** What lies above the upper end of a range lies above its lower end. */
  lemma AboveBoth(lo: Dec, hi: Dec, d: Dec)
    requires LessEq(lo, hi) && !LessEq(d, hi)
    ensures LessEq(lo, d)
  {
    var l, m, h := Pow10(lo.scale), Pow10(d.scale), Pow10(hi.scale);
    ScaledAtMost(lo.coeff * h, hi.coeff * l, m);
    ScaledAtMost(hi.coeff * m, d.coeff * h, l);
    Swap(lo.coeff, h, m);
    Swap(hi.coeff, l, m);
    Swap(d.coeff, h, l);
    Unscaled(lo.coeff * m, d.coeff * l, h);
  }

  lemma Swap(a: int, b: int, c: int)
    ensures a * b * c == a * c * b
  {
  }

  lemma ScaledAtMost(a: int, b: int, k: nat)
    requires a <= b
    ensures a * k <= b * k
  {
  }

  lemma Unscaled(a: int, b: int, k: nat)
    requires a * k <= b * k && k >= 1
    ensures a <= b
  {
    if a > b { ScaledAtMost(b + 1, a, k); }
  }

  lemma ClampLeaves(d: Dec, lo: Dec, hi: Dec, before: Control)
    ensures NumberLeft(Some(d), lo, hi, before, Number(Clamp(d, lo, hi)))
  {
    if LessEq(lo, hi) && !LessEq(d, hi) { AboveBoth(lo, hi, d); }
  }

  lemma AcceptLeaves(form: Form, kind: Kind, i: nat, text: string, before: Control)
    ensures var v := Accept(form, kind, i, text);
            Leaves(form, kind, i, text, before, if v.Some? then v.value else before)
  {
    hide ParseInt, ParseDecimal, ParseWhole, FirstItem, Listed, ItemIndex, LessEq, Clamp;
    ItemIndexIs(form.items(i), text, false);
    ItemIndexIs(form.items(i), text, true);
    forall d ensures NumberLeft(Some(d), form.minimum(i), form.maximum(i), before,
                                Number(Clamp(d, form.minimum(i), form.maximum(i))))
    {
      ClampLeaves(d, form.minimum(i), form.maximum(i), before);
    }
  }

  /** The last field for a control leaves what its kind of control makes of the text, wherever it stands and
      whatever else the message says. */
  lemma FieldLeaves(form: Form, controls: seq<Control>, fields: seq<Option<Field>>, k: nat, i: nat)
    requires |controls| == |TABLE| && i < |TABLE| && LastFor(ProtocolOf(form), fields, k, i)
    ensures var p := ProtocolOf(form);
            Leaves(form, TABLE[i].kind, i, fields[k].value.value, ApplyAll(p, controls, fields[..k])[i],
                   ApplyAll(p, controls, fields)[i])
  {
    hide Accept, SlotOf, Leaves, ApplyAll;
    LastFieldDecides(ProtocolOf(form), controls, fields, k, i);
    AcceptLeaves(form, TABLE[i].kind, i, fields[k].value.value, ApplyAll(ProtocolOf(form), controls, fields[..k])[i]);
  }

  // ----- Tab fields -----

  const TAB_PREFIX := "SHOWTAB"

  /** A SHOWTAB* field is handed on to the tab strip, unless its key is a control's. */
  predicate IsTabField(f: Option<Field>) {
    f.Some? && SlotOf(KeysOf(TABLE), f.value.key) == |TABLE| && StartsWithIgnoreCase(f.value.key, TAB_PREFIX)
  }

  function TabEvents(fields: seq<Option<Field>>): seq<TabStrip.Event> {
    if fields == [] then []
    else
      var n := |fields| - 1;
      TabEvents(fields[..n]) +
      if IsTabField(fields[n]) then [TabStrip.ShowTabSetting(fields[n].value.key[7..], fields[n].value.value)] else []
  }

  /** None of the controls' keys begins like a tab's. */
  predicate NoTabKey(table: seq<Entry>) {
    forall i :: 0 <= i < |table| ==>
      var key := table[i].key;
      |key| >= 2 && !(LowerChar(key[0]) == 's' && LowerChar(key[1]) == 'h')
  }

  lemma NoTabKeys()
    ensures NoTabKey(SPOUT_AND_PRESET) && NoTabKey(DISPLAY)
  {
  }

  lemma NoTabKeysInLyrics()
    ensures NoTabKey(LYRICS_TEXT)
  {
  }

  lemma NoTabKeysInPlaces()
    ensures NoTabKey(LYRICS_PLACE)
  {
  }

  lemma KeyDiffers(key: string, suffix: string)
    requires |key| >= 2 && !(LowerChar(key[0]) == 's' && LowerChar(key[1]) == 'h')
    ensures !EqualsIgnoreCase(key, "SHOWTAB" + suffix)
  {
    var other := "SHOWTAB" + suffix;
    assert Lower(other)[0] == 's' && Lower(other)[1] == 'h';
    assert Lower(key)[0] == LowerChar(key[0]) && Lower(key)[1] == LowerChar(key[1]);
  }

  lemma NotAControl(suffix: string)
    ensures SlotOf(KeysOf(TABLE), "SHOWTAB" + suffix) == |TABLE|
  {
    NoTabKeys();
    NoTabKeysInLyrics();
    NoTabKeysInPlaces();
    hide SlotOf, SPOUT_AND_PRESET, DISPLAY, LYRICS_TEXT, LYRICS_PLACE, EqualsIgnoreCase;
    forall i | 0 <= i < |TABLE| ensures !EqualsIgnoreCase(KeysOf(TABLE)[i], "SHOWTAB" + suffix) {
      KeyDiffers(TABLE[i].key, suffix);
    }
  }

  /** A field SHOWTAB<suffix> is handed to the tab strip as the setting of that tab, and touches no control. */
  lemma TabFieldReaches(suffix: string, value: string)
    ensures var f := Some(Field("SHOWTAB" + suffix, value));
            IsTabField(f) && TabEvents([f]) == [TabStrip.ShowTabSetting(suffix, value)] &&
            forall form, i :: Sets(ProtocolOf(form), f, i) == None
  {
    NotAControl(suffix);
    var key := "SHOWTAB" + suffix;
    assert key[..7] == "SHOWTAB" && key[7..] == suffix;
    var f := Some(Field(key, value));
    assert [f][..0] == [];
  }

  // ----- The Remote's form -----

  class SettingsForm {
    const form: Form
    const tabs: TabStrip.TabControl
    var controls: seq<Control>
    var songEnabled: bool
    var afterEnabled: bool
    var updatingSettingsParams: bool
    var sent: seq<nat>

    ghost predicate Valid()
      reads this, tabs
    {
      |controls| == |TABLE| && controls[LOCKED].Check? && controls[SONG].Check? && tabs.Valid()
    }

    /** "Song" is available unless the preset is locked, "After" unless it is locked or changes with the song. */
    predicate DependentsRight()
      requires |controls| == |TABLE|
      reads this
    {
      songEnabled == (controls[LOCKED] != Check(true)) &&
      afterEnabled == (controls[LOCKED] != Check(true) && controls[SONG] != Check(true))
    }

    constructor (form: Form, tabs: TabStrip.TabControl, controls: seq<Control>)
      requires |controls| == |TABLE| && controls[LOCKED].Check? && controls[SONG].Check? && tabs.Valid()
      ensures Valid() && this.form == form && this.tabs == tabs && this.controls == controls
      ensures !updatingSettingsParams && sent == [] && DependentsRight()
    {
      this.form, this.tabs, this.controls := form, tabs, controls;
      updatingSettingsParams, sent := false, [];
      songEnabled := controls[LOCKED] != Check(true);
      afterEnabled := controls[LOCKED] != Check(true) && controls[SONG] != Check(true);
    }

    method UpdatePresetDependentControls()
      requires Valid()
      modifies this`songEnabled, this`afterEnabled
      ensures DependentsRight()
    {
      var locked, changeWithSong := controls[LOCKED].on, controls[SONG].on;
      songEnabled := !locked;
      afterEnabled := !locked && !changeWithSong;
    }

    /** Assigning a control's value: a change raises its event. The lock and song events refresh the
        dependent controls first; every event then returns early while a message is being applied. */
    method Assign(i: nat, value: Control)
      requires Valid() && i < |TABLE| && (i == LOCKED || i == SONG ==> value.Check?)
      modifies this`controls, this`songEnabled, this`afterEnabled, this`sent
      ensures Valid() && controls == old(controls)[i := value]
      ensures old(DependentsRight()) ==> DependentsRight()
      ensures sent == old(sent) + if updatingSettingsParams || old(controls)[i] == value then [] else [i]
    {
      if controls[i] == value { return; }
      controls := controls[i := value];
      if i == LOCKED || i == SONG { UpdatePresetDependentControls(); }
      if updatingSettingsParams { return; }
      sent := sent + [i];
    }

    /** The fields of a SETTINGS| message, one after the other. */
    method ApplyFields(params: seq<string>)
      requires Valid() && updatingSettingsParams
      modifies this`controls, this`songEnabled, this`afterEnabled, this`sent, tabs
      ensures Valid() && sent == old(sent)
      ensures controls == ApplyAll(ProtocolOf(form), old(controls), ParseEach(params))
      ensures tabs.Configured() == TabStrip.ConfigureAll(old(tabs.Configured()), tabs.order, tabs.suffixes,
                tabs.midiEnabled, TabEvents(ParseEach(params)))
    {
      hide ParseField, Apply, IsTabField, TabStrip.Configure, TABLE;
      ghost var fields := ParseEach(params);
      for k := 0 to |params|
        invariant Valid() && updatingSettingsParams && sent == old(sent)
        invariant controls == ApplyAll(ProtocolOf(form), old(controls), fields[..k])
        invariant tabs.Configured() == TabStrip.ConfigureAll(old(tabs.Configured()), tabs.order, tabs.suffixes,
                  tabs.midiEnabled, TabEvents(fields[..k]))
      {
        ParsedParam(params, k);
        assert fields[..k + 1][..k] == fields[..k];
        var f := ParseField(params[k]);
        ApplyField(f);
        EventsStep(fields, k, old(tabs.Configured()), tabs.order, tabs.suffixes, tabs.midiEnabled);
      }
      assert fields[..|params|] == fields;
    }

    /** A SETTINGS| message: what its fields leave in the controls, each by the kind of its control. */
    method OnSettingsMessage(body: string)
      requires Valid()
      modifies this, tabs
      ensures Valid() && !updatingSettingsParams && DependentsRight()
      ensures sent == old(sent)
      ensures controls == ApplyAll(ProtocolOf(form), old(controls), ParseFields(body))
      ensures tabs.Configured() == TabStrip.ConfigureAll(old(tabs.Configured()), tabs.order, tabs.suffixes,
                tabs.midiEnabled, TabEvents(ParseFields(body)))
      ensures var fields := ParseFields(body);
              forall k: nat, i: nat :: i < |TABLE| && LastFor(ProtocolOf(form), fields, k, i) ==>
                Leaves(form, TABLE[i].kind, i, fields[k].value.value,
                       ApplyAll(ProtocolOf(form), old(controls), fields[..k])[i], controls[i])
    {
      hide Split, ParseEach, ApplyAll, Leaves, SlotOf, TabStrip.ConfigureAll;
      updatingSettingsParams := true;
      ApplyFields(Split(body, '|'));
      updatingSettingsParams := false;
      ghost var fields := ParseFields(body);
      forall k: nat, i: nat | i < |TABLE| && LastFor(ProtocolOf(form), fields, k, i)
        ensures Leaves(form, TABLE[i].kind, i, fields[k].value.value,
                       ApplyAll(ProtocolOf(form), old(controls), fields[..k])[i], controls[i])
      {
        FieldLeaves(form, old(controls), fields, k, i);
      }
      UpdatePresetDependentControls();
    }

    /** One field: a control's key, a tab's, or neither. */
    method ApplyField(f: Option<Field>)
      requires Valid() && updatingSettingsParams
      modifies this`controls, this`songEnabled, this`afterEnabled, this`sent, tabs
      ensures Valid() && sent == old(sent)
      ensures controls == Apply(ProtocolOf(form), old(controls), f)
      ensures tabs.Configured() ==
                if IsTabField(f)
                then TabStrip.Configure(old(tabs.Configured()), tabs.order, tabs.suffixes, tabs.midiEnabled,
                                        TabStrip.ShowTabSetting(f.value.key[7..], f.value.value))
                else old(tabs.Configured())
    {
      hide SlotOf, TabStrip.Configure;
      if f.None? { return; }
      var i := SlotOf(KeysOf(TABLE), f.value.key);
      if i < |TABLE| {
        var v := Accept(form, TABLE[i].kind, i, f.value.value);
        assert v == ProtocolOf(form).accept(i, f.value.value);
        LockAndSong();
        if v.Some? { Assign(i, v.value); }
      } else if StartsWithIgnoreCase(f.value.key, TAB_PREFIX) {
        tabs.ApplyTabVisibility(f.value.key[7..], f.value.value);
      }
    }
  }

  lemma EventsStep(fields: seq<Option<Field>>, k: nat, c: TabStrip.Config, order: seq<string>, suffixes: seq<string>,
          midiEnabled: bool)
    requires k < |fields| && |order| == |suffixes|
    ensures TabStrip.ConfigureAll(c, order, suffixes, midiEnabled, TabEvents(fields[..k + 1])) ==
              var before := TabStrip.ConfigureAll(c, order, suffixes, midiEnabled, TabEvents(fields[..k]));
              if IsTabField(fields[k])
              then TabStrip.Configure(before, order, suffixes, midiEnabled,
                                      TabStrip.ShowTabSetting(fields[k].value.key[7..], fields[k].value.value))
              else before
  {
    hide IsTabField, TabStrip.Configure;
    var events := TabEvents(fields[..k]);
    assert fields[..k + 1][..k] == fields[..k];
    if IsTabField(fields[k]) {
      var e := TabStrip.ShowTabSetting(TabKey(fields[k])[7..], fields[k].value.value);
      assert (events + [e])[..|events|] == events;
    } else {
      assert events + [] == events;
    }
  }

  function TabKey(f: Option<Field>): (key: string)
    requires IsTabField(f)
    ensures |key| >= 7 && f.Some? && key == f.value.key
  {
    f.value.key
  }

  // ----- What a message leaves behind -----

  lemma {:induction false} TabEventsAreSettings(fields: seq<Option<Field>>)
    ensures TabStrip.AllSettings(TabEvents(fields))
  {
    hide IsTabField;
    if fields != [] { TabEventsAreSettings(fields[..|fields| - 1]); }
  }

  lemma {:induction false} TabEventsConcat(a: seq<Option<Field>>, b: seq<Option<Field>>)
    ensures TabEvents(a + b) == TabEvents(a) + TabEvents(b)
  {
    hide IsTabField;
    if b == [] {
      assert a + b == a;
    } else {
      assert (a + b)[..|a + b| - 1] == a + b[..|b| - 1];
      TabEventsConcat(a, b[..|b| - 1]);
    }
  }

  lemma TabEventsAround(a: seq<Option<Field>>, x: Option<Field>, b: seq<Option<Field>>)
    ensures multiset(TabEvents(a + [x] + b)) == multiset(TabEvents(a + b)) + multiset(TabEvents([x]))
  {
    hide TabEvents;
    TabEventsConcat(a + [x], b);
    TabEventsConcat(a, [x]);
    TabEventsConcat(a, b);
  }

  lemma {:induction false} TabEventsMultiset(fields: seq<Option<Field>>, permuted: seq<Option<Field>>)
    requires multiset(fields) == multiset(permuted)
    ensures multiset(TabEvents(fields)) == multiset(TabEvents(permuted))
    decreases |fields|
  {
    hide TabEvents;
    assert |fields| == |multiset(fields)| == |permuted|;
    if fields == [] {
      assert fields == permuted;
    } else {
      var n := |fields| - 1;
      var x := fields[n];
      assert x in multiset(permuted);
      var k :| 0 <= k < |permuted| && permuted[k] == x;
      var rest := permuted[..k] + permuted[k + 1..];
      assert fields == fields[..n] + [x] + [] && fields[..n] + [] == fields[..n];
      assert permuted == permuted[..k] + [x] + permuted[k + 1..];
      TabEventsAround(fields[..n], x, []);
      TabEventsAround(permuted[..k], x, permuted[k + 1..]);
      Without(permuted, k);
      assert multiset(fields) == multiset(fields[..n]) + multiset{x};
      Cancel(multiset(fields[..n]), multiset(rest), x);
      TabEventsMultiset(fields[..n], rest);
    }
  }

  /** A second delivery of the same message changes no control and no tab. */
  lemma SettingsIdempotent(form: Form, controls: seq<Control>, tabs: TabStrip.Config, order: seq<string>,
          suffixes: seq<string>,
                           midiEnabled: bool, body: string)
    requires |controls| == |TABLE| && TabStrip.Distinct(order) && |order| == |suffixes|
    ensures var once := ApplyAll(ProtocolOf(form), controls, ParseFields(body));
            ApplyAll(ProtocolOf(form), once, ParseFields(body)) == once
    ensures var events := TabEvents(ParseFields(body));
            var once := TabStrip.ConfigureAll(tabs, order, suffixes, midiEnabled, events);
            TabStrip.ConfigureAll(once, order, suffixes, midiEnabled, events) == once
  {
    ApplyTwice(ProtocolOf(form), controls, ParseFields(body));
    TabEventsAreSettings(ParseFields(body));
    TabStrip.SettingsTwice(tabs, order, suffixes, midiEnabled, TabEvents(ParseFields(body)));
  }

  /** Two messages with the same fields for different controls and tabs, in whatever order, lead to
      the same controls, therefore to the same dependent ones, and to the same tabs. */
  lemma SettingsAnyOrder(form: Form, controls: seq<Control>, tabs: TabStrip.Config, order: seq<string>,
          suffixes: seq<string>,
                         midiEnabled: bool, body: string, permuted: string)
    requires |controls| == |TABLE| && TabStrip.Distinct(order) && |order| == |suffixes|
    requires multiset(ParseFields(body)) == multiset(ParseFields(permuted))
    requires DistinctKeys(ProtocolOf(form), ParseFields(body))
    requires TabStrip.AllSettings(TabEvents(ParseFields(body))) &&
             DistinctKeys(TabStrip.TabProtocol(suffixes, midiEnabled),
               TabStrip.SettingFields(TabEvents(ParseFields(body))))
    ensures ApplyAll(ProtocolOf(form), controls, ParseFields(body))
         == ApplyAll(ProtocolOf(form), controls, ParseFields(permuted))
    ensures TabStrip.ConfigureAll(tabs, order, suffixes, midiEnabled, TabEvents(ParseFields(body))) ==
            TabStrip.ConfigureAll(tabs, order, suffixes, midiEnabled, TabEvents(ParseFields(permuted)))
  {
    hide ParseFields, TabEvents;
    AnyOrder(ProtocolOf(form), controls, ParseFields(body), ParseFields(permuted));
    TabEventsAreSettings(ParseFields(permuted));
    TabEventsMultiset(ParseFields(body), ParseFields(permuted));
    TabStrip.SettingsAnyOrder(tabs, order, suffixes, midiEnabled, TabEvents(ParseFields(body)),
      TabEvents(ParseFields(permuted)));
  }

  predicate InRange(form: Form, i: nat, d: Dec) {
    LessEq(form.minimum(i), d) && LessEq(d, form.maximum(i))
  }

  /** What a control of a kind may hold. */
  predicate Fitting(form: Form, kind: Kind, i: nat, c: Control) {
    match kind
    case CheckBox => c.Check?
    case TextBox => c.Content?
    case StrictNumber | ClampedNumber | ClampedWhole | ClampedInteger => c.Number? && InRange(form, i, c.value)
    case ColorComponent(_) => c.Choice? && 0 <= c.index < 0x100
    case _ => c.Choice? && 0 <= c.index < |form.items(i)|
  }

  lemma ClampFits(d: Dec, lo: Dec, hi: Dec)
    requires LessEq(lo, hi)
    ensures LessEq(lo, Clamp(d, lo, hi)) && LessEq(Clamp(d, lo, hi), hi)
    ensures LessEq(lo, d) && LessEq(d, hi) ==> Clamp(d, lo, hi) == d
  {
  }

  lemma AcceptFits(form: Form, kind: Kind, i: nat, text: string)
    requires LessEq(form.minimum(i), form.maximum(i))
    ensures Accept(form, kind, i, text).Some? ==> Fitting(form, kind, i, Accept(form, kind, i, text).value)
  {
    hide ParseInt, ParseDecimal, ParseWhole, LessEq, Clamp;
    match kind
    case ClampedNumber =>
      if ParseDecimal(text).Some? { ClampFits(ParseDecimal(text).value, form.minimum(i), form.maximum(i)); }
    case ClampedWhole =>
      if ParseWhole(text).Some? { ClampFits(ParseWhole(text).value, form.minimum(i), form.maximum(i)); }
    case ClampedInteger =>
      if ParseInt(text).Some? { ClampFits(ParseInt(text).value, form.minimum(i), form.maximum(i)); }
    case _ =>
  }

  ghost predicate Wellformed(form: Form, controls: seq<Control>) {
    && |controls| == |TABLE|
    && forall i :: 0 <= i < |TABLE| ==> Fitting(form, TABLE[i].kind, i, controls[i])
  }

  /** Whatever a message says, every number, index and colour component stays in its range. */
  lemma {:induction false} SettingsStayInRange(form: Form, controls: seq<Control>, fields: seq<Option<Field>>)
    requires Wellformed(form, controls)
    requires forall i :: 0 <= i < |TABLE| ==> LessEq(form.minimum(i), form.maximum(i))
    ensures Wellformed(form, ApplyAll(ProtocolOf(form), controls, fields))
  {
    hide Fitting, Accept, Apply, SlotOf, LessEq, TABLE;
    if fields != [] {
      var n := |fields| - 1;
      SettingsStayInRange(form, controls, fields[..n]);
      var before, f := ApplyAll(ProtocolOf(form), controls, fields[..n]), fields[n];
      forall i | 0 <= i < |TABLE| ensures Fitting(form, TABLE[i].kind, i, Apply(ProtocolOf(form), before, f)[i]) {
        if f.Some? { AcceptFits(form, TABLE[i].kind, i, f.value.value); }
      }
    }
  }

  /** A readable number always reaches a clamped control: itself if it is in range, otherwise the end of the
      range on its side. The quality keeps its value instead, exactly for a number out of range. */
  lemma RefusedOrClamped(form: Form, i: nat, text: string)
    requires ParseDecimal(text).Some? && LessEq(form.minimum(i), form.maximum(i))
    ensures var d := ParseDecimal(text).value;
            var clamped := Accept(form, ClampedNumber, i, text);
            && clamped.Some? && InRange(form, i, clamped.value.value)
            && (InRange(form, i, d) ==> clamped.value.value == d)
            && (!LessEq(form.minimum(i), d) ==> clamped.value.value == form.minimum(i))
            && (!LessEq(d, form.maximum(i)) ==> clamped.value.value == form.maximum(i))
            && ('.' !in text ==> Accept(form, ClampedWhole, i, text) == clamped)
            && (ParseInt(text).Some? ==> Accept(form, ClampedInteger, i, text) == clamped)
    ensures Accept(form, StrictNumber, i, text).None? <==> !InRange(form, i, ParseDecimal(text).value)
  {
    var d := ParseDecimal(text).value;
    ClampFits(d, form.minimum(i), form.maximum(i));
    if !LessEq(d, form.maximum(i)) { AboveBoth(form.minimum(i), form.maximum(i), d); }
  }

  /** The largest transition type wraps around as one is added, and selects the first item. */
  lemma LargestMixTypeWraps(form: Form)
    requires |form.items(9)| > 0
    ensures Accept(form, ClampedIndex(1), 9, "2147483647") == Some(Choice(0))
  {
    var text := "2147483647";
    assert Value("2147483647") == 2147483647 by { ValueOfDigits(2147483647); DigitsOfMax(); }
    NoPoint(text);
    assert text + "" == text;
  }

  lemma DigitsOfMax()
    ensures Digits(2147483647) == "2147483647"
  {
    assert Digits(2) == "2" && Digits(21) == "21" && Digits(214) == "214" && Digits(2147) == "2147";
    assert Digits(21474) == "21474" && Digits(214748) == "214748" && Digits(2147483) == "2147483";
    assert Digits(21474836) == "21474836" && Digits(214748364) == "214748364";
  }
}
