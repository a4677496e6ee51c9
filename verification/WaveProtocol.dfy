/** The WAVE| message: printed from the wave controls, parsed back into them without an echo. */
module WaveProtocol {
  import opened Text
  import opened Numerals
  import opened Fields

  // ----- The 21 fields -----

  const NUMERICS := 13
  const MODE := 0
  const RED := 2
  const GREEN := 3
  const BLUE := 4

  const KEYS := [
    "MODE", "ALPHA", "COLORR", "COLORG", "COLORB", "PUSHX", "PUSHY", "ZOOM", "WARP", "ROTATION", "DECAY", "SCALE",
      "ECHO",
    "BRIGHTEN", "DARKEN", "SOLARIZE", "INVERT", "ADDITIVE", "DOTTED", "THICK", "VOLALPHA"]

  /** Minimum and maximum of the numeric controls. */
  function Minimum(i: nat): Dec {
    if i == 5 || i == 6 then Dec(-1, 0) else if i == 9 then Dec(-9999, 3) else Dec(0, 0)
  }

  function Maximum(i: nat): Dec {
    if i == MODE then Dec(17, 0)
    else if i == 1 then Dec(9999, 0)
    else if RED <= i <= BLUE then Dec(255, 0)
    else if i == 5 || i == 6 || i == 10 then Dec(1, 0)
    else Dec(9999, 3)
  }

  predicate InRange(i: nat, d: Dec) {
    LessEq(Minimum(i), d) && LessEq(d, Maximum(i))
  }

  /** Mode and colour components are read with int.Parse. */
  predicate ReadsInteger(i: nat) { i == MODE || RED <= i <= BLUE }

  datatype Control = Number(value: Dec) | Check(on: bool)

  /** What a control accepts a text as; a number outside its range raises an exception that the
      parser swallows. */
  function Accept(i: nat, text: string): Option<Control> {
    if i < NUMERICS then
      match if ReadsInteger(i) then ParseInt(text) else ParseDecimal(text)
      case Some(d) => if InRange(i, d) then Some(Number(d)) else None
      case None => None
    else Some(Check(text == "1"))
  }

  const PROTOCOL := Protocol(KEYS, (i: nat, text: string) => Accept(i, text))

  /** Numbers in their ranges, followed by check boxes. */
  predicate Wellformed(controls: seq<Control>) {
    && |controls| == |KEYS|
    && (forall i :: 0 <= i < |controls| ==> Fitting(i, controls[i]))
  }

  predicate Fitting(i: nat, c: Control) {
    if i < NUMERICS then c.Number? && InRange(i, c.value) else c.Check?
  }

  /** What a text leaves in a control: a number that is read and in range, or what was there; a check box is
      checked by 1 and unchecked by anything else. */
  ghost predicate Leaves(i: nat, text: string, before: Control, after: Control) {
    if i >= NUMERICS then after == Check(text == "1")
    else
      var read := if i == 0 || 2 <= i <= 4 then ParseInt(text) else ParseDecimal(text);
      match read
      case None => after == before
      case Some(d) => after == if LessEq(Minimum(i), d) && LessEq(d, Maximum(i)) then Number(d) else before
  }

  lemma AcceptLeaves(i: nat, text: string, before: Control)
    ensures Leaves(i, text, before, match Accept(i, text) { case Some(v) => v case None => before })
  {
    hide ParseInt, ParseDecimal, LessEq, Minimum, Maximum;
  }

  /** The last field for a control decides, whatever the rest of the message says. */
  lemma FieldLeaves(controls: seq<Control>, fields: seq<Option<Field>>, k: nat, i: nat)
    requires |controls| == |KEYS| && i < |KEYS| && LastFor(PROTOCOL, fields, k, i)
    ensures Leaves(i, fields[k].value.value, ApplyAll(PROTOCOL, controls, fields[..k])[i],
                   ApplyAll(PROTOCOL, controls, fields)[i])
  {
    hide Accept, SlotOf, Leaves, ApplyAll, KEYS;
    LastFieldDecides(PROTOCOL, controls, fields, k, i);
    AcceptLeaves(i, fields[k].value.value, ApplyAll(PROTOCOL, controls, fields[..k])[i]);
  }

  // ----- Printing -----

  type Channel = c: int | 0 <= c <= 255

  /** The colour of the panel beside the numeric controls; the message is printed from it. */
  datatype Color = Color(red: Channel, green: Channel, blue: Channel)

  /** The colour the panel is given when the form is shown. */
  const SHOWN := Color(0, 200, 0)

  function Component(panel: Color, i: nat): Channel {
    if i == RED then panel.red else if i == GREEN then panel.green else panel.blue
  }

  function PrintedValue(panel: Color, i: nat, c: Control): Control {
    if RED <= i <= BLUE then Number(Dec(Component(panel, i), 0)) else c
  }

  function PrintControl(panel: Color, i: nat, c: Control): string {
    match PrintedValue(panel, i, c)
    case Number(d) => Print(d)
    case Check(on) => if on then "1" else "0"
  }

  function FieldsFrom(panel: Color, controls: seq<Control>, from: nat): (r: seq<Field>)
    requires |controls| == |KEYS| && from <= |KEYS|
    ensures |r| == |KEYS| - from
    decreases |KEYS| - from
  {
    if from == |KEYS| then []
    else [Field(KEYS[from], PrintControl(panel, from, controls[from]))] + FieldsFrom(panel, controls, from + 1)
  }

  /** The message without its tag. */
  function PrintWave(panel: Color, controls: seq<Control>): string
    requires |controls| == |KEYS|
  {
    PrintFields(FieldsFrom(panel, controls, 0))
  }

  /** What the parser makes of the message. */
  function ParseWave(controls: seq<Control>, body: string): seq<Control>
    requires |controls| == |KEYS|
  {
    ApplyAll(PROTOCOL, controls, ParseFields(body))
  }

  // ----- Round trip -----

  predicate IsKeyChar(c: char) { 'A' <= c <= 'Z' }

  predicate KeyText(s: string) {
    s != "" && forall i :: 0 <= i < |s| ==> IsKeyChar(s[i])
  }

  lemma {:induction false} FieldAt(panel: Color, controls: seq<Control>, from: nat, i: nat)
    requires |controls| == |KEYS| && from <= i < |KEYS|
    ensures FieldsFrom(panel, controls, from)[i - from] == Field(KEYS[i], PrintControl(panel, i, controls[i]))
    decreases i - from
  {
    hide PrintControl, KEYS;
    if from < i { FieldAt(panel, controls, from + 1, i); }
  }

  /** The text of each field: a colour from the panel, a number as it is, 1 or 0 for a check box. */
  lemma PrintedFields(panel: Color, controls: seq<Control>, i: nat)
    requires Wellformed(controls) && i < |KEYS|
    ensures FieldsFrom(panel, controls, 0)[i].value ==
              if i == 2 then Print(Dec(panel.red, 0))
              else if i == 3 then Print(Dec(panel.green, 0))
              else if i == 4 then Print(Dec(panel.blue, 0))
              else if controls[i].Number? then Print(controls[i].value)
              else if controls[i].on then "1"
              else "0"
  {
    hide Print;
    FieldAt(panel, controls, 0, i);
  }

  lemma KeysAreKeyTexts()
    ensures forall i :: 0 <= i < |KEYS| ==> KeyText(KEYS[i])
    ensures forall j, k :: 0 <= j < k < |KEYS| ==> KEYS[j] != KEYS[k]
  {
  }

  lemma KeyTextPlain(s: string)
    requires KeyText(s)
    ensures Plain(s)
  {
  }

  lemma KeyTextFolds(a: string, b: string)
    requires KeyText(a) && KeyText(b) && EqualsIgnoreCase(a, b)
    ensures a == b
  {
    assert |a| == |Lower(a)| == |b|;
    forall i | 0 <= i < |a| ensures a[i] == b[i] { assert Lower(a)[i] == Lower(b)[i]; }
  }

  lemma OwnSlot(i: nat)
    requires i < |KEYS|
    ensures SlotOf(KEYS, KEYS[i]) == i
  {
    KeysAreKeyTexts();
    var r := SlotOf(KEYS, KEYS[i]);
    assert EqualsIgnoreCase(KEYS[i], KEYS[i]);
    KeyTextFolds(KEYS[r], KEYS[i]);
  }

  lemma PrintPlain(d: Dec)
    ensures Plain(Print(d)) && Print(d) != ""
  {
    hide Print;
    forall i | 0 <= i < |Print(d)| ensures IsDigit(Print(d)[i]) || Print(d)[i] in {'-', '.'} { PrintCharacters(d, i); }
    PrintNonEmpty(d);
  }

  lemma PrintNonEmpty(d: Dec)
    ensures Print(d) != ""
  {
    var u := PrintSigned(d);
  }

  lemma ControlPlain(panel: Color, i: nat, c: Control)
    ensures Plain(PrintControl(panel, i, c))
  {
    hide Print;
    match PrintedValue(panel, i, c)
    case Number(d) => PrintPlain(d);
    case Check(on) =>
  }

  lemma ColourRange(i: nat, d: Dec)
    requires RED <= i <= BLUE
    ensures InRange(i, d) <==> 0 <= d.coeff <= 255 * Pow10(d.scale)
  {
    assert Pow10(0) == 1;
  }

  lemma QuotientAtMost(n: nat, p: nat, k: nat)
    requires p >= 1 && n <= k * p
    ensures 0 <= n / p <= k
  {
    var q := n / p;
    assert n == p * q + n % p;
    AtLeast(p, q - k);
    assert p * q - k * p == p * (q - k);
  }

  lemma AtLeast(p: nat, x: int)
    ensures x >= 1 ==> p * x >= p
  {
    if x >= 1 { assert p * x == p + p * (x - 1); }
  }

  /** What arrives in control i: a mode with a fraction is refused, colours are the panel's, everything
      else arrives as it is. */
  function Arrived(panel: Color, i: nat, sent: Control, received: Control): Control {
    if i == MODE && sent.Number? && sent.value.scale > 0 then received else PrintedValue(panel, i, sent)
  }

  lemma AcceptPrinted(panel: Color, i: nat, c: Control)
    requires i < |KEYS| && Fitting(i, c)
    ensures Accept(i, PrintControl(panel, i, c))
         == if i == MODE && c.value.scale > 0 then None else Some(PrintedValue(panel, i, c))
  {
    hide Print, ParseInt, ParseDecimal;
    if RED <= i <= BLUE {
      var d := Dec(Component(panel, i), 0);
      assert InRange(i, d) by { ColourRange(i, d); assert Pow10(0) == 1; }
      PrintParseInt(d);
    } else if i < NUMERICS {
      if i == MODE { ModeBounds(c.value); PrintParseInt(c.value); } else { PrintParse(c.value); }
    }
  }

  lemma ModeBounds(d: Dec)
    requires InRange(MODE, d)
    ensures d.scale == 0 ==> 0 <= d.coeff <= 17
  {
    assert Pow10(0) == 1;
  }

  lemma ControlArrives(panel: Color, sender: seq<Control>, receiver: seq<Control>, i: nat)
    requires Wellformed(sender) && |receiver| == |KEYS| && i < |KEYS|
    ensures ParseWave(receiver, PrintWave(panel, sender))[i] == Arrived(panel, i, sender[i], receiver[i])
  {
    hide Accept, PrintControl, KEYS, Plain, FieldsFrom, InRange, PrintedValue;
    var fields := FieldsFrom(panel, sender, 0);
    forall k | 0 <= k < |fields|
      ensures fields[k] == Field(KEYS[k], PrintControl(panel, k, sender[k]))
      ensures Plain(fields[k].key) && Plain(fields[k].value)
      ensures SlotOf(KEYS, fields[k].key) == k
    {
      FieldAt(panel, sender, 0, k);
      KeysAreKeyTexts();
      KeyTextPlain(KEYS[k]);
      ControlPlain(panel, k, sender[k]);
      OwnSlot(k);
    }
    PrintParseFields(fields);
    LastSetWins(PROTOCOL, receiver, Somes(fields), i);
    OnlySetter(PROTOCOL, Somes(fields), i, i);
    AcceptPrinted(panel, i, sender[i]);
  }

  /** The panel shows the three components, which are whole. */
  predicate Shows(panel: Color, controls: seq<Control>)
    requires Wellformed(controls)
  {
    forall i :: RED <= i <= BLUE ==> controls[i].value == Dec(Component(panel, i), 0)
  }

  predicate WholeComponents(controls: seq<Control>)
    requires Wellformed(controls)
  {
    forall i :: RED <= i <= BLUE ==> controls[i].value.scale == 0
  }

  /** The mode is whole, or the receiver already has it. */
  predicate ModeArrives(sender: seq<Control>, receiver: seq<Control>)
    requires Wellformed(sender) && Wellformed(receiver)
  {
    sender[MODE].value.scale == 0 || receiver[MODE] == sender[MODE]
  }

  /** Sending the wave controls to another Remote transfers all 21 of them exactly, whatever the
      receiver showed, if and only if the panel shows the colour components and the mode is whole (or
      the receiver already has it). */
  lemma RoundTrip(panel: Color, sender: seq<Control>, receiver: seq<Control>)
    requires Wellformed(sender) && Wellformed(receiver)
    ensures ParseWave(receiver, PrintWave(panel, sender)) == sender <==>
              Shows(panel, sender) && ModeArrives(sender, receiver)
  {
    hide PrintWave, InRange, ApplyAll;
    var arrived := ParseWave(receiver, PrintWave(panel, sender));
    assert |arrived| == |KEYS|;
    forall i | 0 <= i < |KEYS|
      ensures arrived[i] == Arrived(panel, i, sender[i], receiver[i]) && Fitting(i, sender[i])
    {
      ControlArrives(panel, sender, receiver, i);
    }
    if arrived == sender {
      assert arrived[RED] == sender[RED] && arrived[GREEN] == sender[GREEN] && arrived[BLUE] == sender[BLUE];
      assert arrived[MODE] == sender[MODE];
    }
  }

  lemma LengthOfWellformed(controls: seq<Control>)
    requires Wellformed(controls)
    ensures |controls| == |KEYS| > BLUE
  {
  }

  /** When the form has been shown, its panel is dark green and its components are 255: dark green is what
      arrives, in whatever receiver. */
  lemma ShownFormSendsPanel(sender: seq<Control>, receiver: seq<Control>)
    requires Wellformed(sender) && Wellformed(receiver)
    requires forall i :: RED <= i <= BLUE ==> sender[i] == Number(Dec(255, 0))
    ensures var arrived := ParseWave(receiver, PrintWave(SHOWN, sender));
            arrived[RED] == Number(Dec(0, 0)) && arrived[GREEN] == Number(Dec(200, 0)) &&
            arrived[BLUE] == Number(Dec(0, 0)) && arrived != sender
  {
    hide PrintWave, ParseWave, KEYS;
    LengthOfWellformed(sender);
    ControlArrives(SHOWN, sender, receiver, RED);
    ControlArrives(SHOWN, sender, receiver, GREEN);
    ControlArrives(SHOWN, sender, receiver, BLUE);
  }

  // ----- When the panel follows the components -----

  /** A component's value cut to an int. */
  function Whole(d: Dec): int {
    if d.coeff >= 0 then d.coeff / Pow10(d.scale) else -(-d.coeff / Pow10(d.scale))
  }

  /** Cutting off the fraction keeps a colour component between 0 and 255. */
  lemma WholeInRange(i: nat, d: Dec)
    requires RED <= i <= BLUE && InRange(i, d)
    ensures 0 <= Whole(d) <= 255
    ensures d == Dec(Whole(d), 0) <==> d.scale == 0
  {
    hide InRange;
    ColourRange(i, d);
    QuotientAtMost(d.coeff, Pow10(d.scale), 255);
    assert Pow10(0) == 1;
  }

  lemma ChannelOf(controls: seq<Control>, i: nat)
    requires Wellformed(controls) && RED <= i <= BLUE
    ensures 0 <= Whole(controls[i].value) <= 255
  {
    hide InRange, Whole;
    assert Fitting(i, controls[i]);
    WholeInRange(i, controls[i].value);
  }

  /** The colour of the three components, as the panel is set to it. */
  function ColorOf(controls: seq<Control>): Color
    requires Wellformed(controls)
  {
    ChannelOf(controls, RED);
    ChannelOf(controls, GREEN);
    ChannelOf(controls, BLUE);
    Color(Whole(controls[RED].value), Whole(controls[GREEN].value), Whole(controls[BLUE].value))
  }

  /** The controls and the panel. */
  datatype Tab = Tab(controls: seq<Control>, panel: Color)

  predicate InStep(t: Tab)
    requires Wellformed(t.controls)
  {
    t.panel == ColorOf(t.controls)
  }

  /** A panel in step shows the components exactly when they are whole. */
  lemma InStepShows(t: Tab)
    requires Wellformed(t.controls) && InStep(t)
    ensures Shows(t.panel, t.controls) <==> WholeComponents(t.controls)
  {
    hide InRange, Whole;
    forall i | RED <= i <= BLUE
      ensures t.controls[i].value == Dec(Component(t.panel, i), 0) <==> t.controls[i].value.scale == 0
    {
      assert Fitting(i, t.controls[i]);
      WholeInRange(i, t.controls[i].value);
    }
  }

  /** A control is assigned a value, by the user or by a field of a message, or a colour is chosen in the
      colour dialog. */
  datatype Event = Assigned(i: nat, value: Control) | Chosen(color: Color)

  predicate Possible(e: Event) {
    e.Assigned? ==> e.i < |KEYS| && Fitting(e.i, e.value)
  }

  function SetComponents(controls: seq<Control>, color: Color): seq<Control>
    requires |controls| == |KEYS|
  {
    controls[RED := Number(Dec(color.red, 0))][GREEN := Number(Dec(color.green, 0))][BLUE := Number(Dec(color.blue, 0))]
  }

  lemma ChosenColor(controls: seq<Control>, color: Color)
    requires Wellformed(controls)
    ensures var r := SetComponents(controls, color); Wellformed(r) && ColorOf(r) == color && Shows(color, r)
  {
    var r := SetComponents(controls, color);
    assert Pow10(0) == 1;
    hide Pow10;
    forall i | 0 <= i < |r| ensures Fitting(i, r[i]) {
      if RED <= i <= BLUE { ColourRange(i, r[i].value); } else { assert Fitting(i, controls[i]); }
    }
  }

  lemma AssignedFits(controls: seq<Control>, i: nat, value: Control)
    requires Wellformed(controls) && i < |KEYS| && Fitting(i, value)
    ensures Wellformed(controls[i := value])
  {
    hide Fitting;
  }

  /** A component that changes takes the panel along; other controls, and assignments of the value a
      control already has, leave it as it is. */
  function Step(t: Tab, e: Event): (r: Tab)
    requires Wellformed(t.controls) && Possible(e)
    ensures Wellformed(r.controls)
  {
    match e
    case Assigned(i, value) =>
      AssignedFits(t.controls, i, value);
      if t.controls[i] == value then t
      else Tab(t.controls[i := value], if RED <= i <= BLUE then ColorOf(t.controls[i := value]) else t.panel)
    case Chosen(color) =>
      ChosenColor(t.controls, color);
      Tab(SetComponents(t.controls, color), color)
  }

  predicate AllPossible(run: seq<Event>) {
    forall k :: 0 <= k < |run| ==> Possible(run[k])
  }

  function Run(t: Tab, run: seq<Event>): (r: Tab)
    requires Wellformed(t.controls) && AllPossible(run)
    ensures Wellformed(r.controls)
  {
    if run == [] then t
    else
      assert Possible(run[|run| - 1]);
      Step(Run(t, run[..|run| - 1]), run[|run| - 1])
  }

  /** The dialog is used, or a component changes. */
  predicate Touches(t: Tab, e: Event)
    requires |t.controls| == |KEYS| && Possible(e)
  {
    e.Chosen? || (RED <= e.i <= BLUE && e.value != t.controls[e.i])
  }

  predicate Touched(t: Tab, run: seq<Event>)
    requires Wellformed(t.controls) && AllPossible(run)
  {
    run != [] &&
      var n := |run| - 1;
      assert Possible(run[n]);
      Touched(t, run[..n]) || Touches(Run(t, run[..n]), run[n])
  }

  lemma StepInStep(t: Tab, e: Event)
    requires Wellformed(t.controls) && Possible(e)
    ensures InStep(Step(t, e)) <==> InStep(t) || Touches(t, e)
  {
    hide Whole, Fitting;
    if e.Chosen? { ChosenColor(t.controls, e.color); } else { AssignedFits(t.controls, e.i, e.value); }
  }

  /** After any run the panel is in step exactly when it was so before, or a component has changed
      or the colour dialog was used. */
  lemma {:induction false} RunInStep(t: Tab, run: seq<Event>)
    requires Wellformed(t.controls) && AllPossible(run)
    ensures InStep(Run(t, run)) <==> InStep(t) || Touched(t, run)
  {
    hide InStep, Step, Touches, Possible, Wellformed;
    if run != [] {
      var n := |run| - 1;
      RunInStep(t, run[..n]);
      assert Possible(run[n]);
      StepInStep(Run(t, run[..n]), run[n]);
    }
  }

  /** From then on only a fraction keeps the controls from arriving exactly. */
  lemma RoundTripAfter(t: Tab, run: seq<Event>, receiver: seq<Control>)
    requires Wellformed(t.controls) && AllPossible(run) && Touched(t, run) && Wellformed(receiver)
    ensures var r := Run(t, run);
            ParseWave(receiver, PrintWave(r.panel, r.controls)) == r.controls <==>
              WholeComponents(r.controls) && ModeArrives(r.controls, receiver)
  {
    hide PrintWave, ParseWave, InStep, Step, Touched, Run, Shows, WholeComponents, ModeArrives;
    var r := Run(t, run);
    RunInStep(t, run);
    InStepShows(r);
    RoundTrip(r.panel, r.controls, receiver);
  }

  /** Wave controls at zero, except for the mode and the red component. */
  function Sample(mode: Dec, red: Dec): seq<Control> {
    var zero, off := Number(Dec(0, 0)), Check(false);
    [Number(mode), zero, Number(red), zero, zero, zero, zero, zero, zero, zero, zero, zero, zero] +
    [off, off, off, off, off, off, off, off]
  }

  lemma SampleFits(mode: Dec, red: Dec)
    requires InRange(MODE, mode) && InRange(RED, red)
    ensures Wellformed(Sample(mode, red)) && |Sample(mode, red)| == |KEYS|
    ensures Sample(mode, red)[MODE] == Number(mode) && Sample(mode, red)[RED] == Number(red)
  {
    assert Pow10(0) == 1;
  }

  lemma SmallNumbers()
    ensures InRange(MODE, Dec(15, 1)) && InRange(RED, Dec(15, 1)) && InRange(MODE, Dec(0, 0)) && InRange(RED, Dec(0, 0))
    ensures Whole(Dec(15, 1)) == 1
  {
    assert Pow10(0) == 1 && Pow10(1) == 10;
  }

  /** A mode and a red component of 1.5, typed into the sender's controls: the mode does not arrive and the
      component arrives as 1. */
  lemma FractionsDoNotArrive()
    ensures var sender, receiver := Sample(Dec(15, 1), Dec(15, 1)), Sample(Dec(0, 0), Dec(0, 0));
            Wellformed(sender) && Wellformed(receiver) &&
            ParseWave(receiver, PrintWave(ColorOf(sender), sender))[MODE] == Number(Dec(0, 0)) &&
            ParseWave(receiver, PrintWave(ColorOf(sender), sender))[RED] == Number(Dec(1, 0))
  {
    hide PrintWave, ParseWave, KEYS, Sample, Wellformed;
    SmallNumbers();
    hide InRange;
    var sender, receiver := Sample(Dec(15, 1), Dec(15, 1)), Sample(Dec(0, 0), Dec(0, 0));
    SampleFits(Dec(15, 1), Dec(15, 1));
    SampleFits(Dec(0, 0), Dec(0, 0));
    LengthOfWellformed(sender);
    ControlArrives(ColorOf(sender), sender, receiver, MODE);
    ControlArrives(ColorOf(sender), sender, receiver, RED);
  }

  lemma AcceptFitting(i: nat, text: string)
    ensures Accept(i, text).Some? ==> Fitting(i, Accept(i, text).value)
  {
    hide InRange, ParseInt, ParseDecimal;
  }

  lemma ApplyWellformed(controls: seq<Control>, f: Option<Field>)
    requires Wellformed(controls)
    ensures Wellformed(Apply(PROTOCOL, controls, f))
  {
    hide InRange, SlotOf, Accept, Apply;
    var r := Apply(PROTOCOL, controls, f);
    forall i | 0 <= i < |r| ensures Fitting(i, r[i]) {
      if f.Some? { AcceptFitting(i, f.value.value); }
      assert Fitting(i, controls[i]);
    }
  }

  /** Whatever a message says, every number stays within its control's range. */
  lemma {:induction false} StaysInRange(controls: seq<Control>, fields: seq<Option<Field>>)
    requires Wellformed(controls)
    ensures Wellformed(ApplyAll(PROTOCOL, controls, fields))
  {
    hide Fitting, Apply, KEYS, SlotOf;
    if fields != [] {
      var n := |fields| - 1;
      StaysInRange(controls, fields[..n]);
      ApplyWellformed(ApplyAll(PROTOCOL, controls, fields[..n]), fields[n]);
    }
  }

  /** The assignment a field makes, if any. */
  function AssignmentOf(f: Option<Field>): (r: seq<Event>)
    ensures AllPossible(r)
  {
    if f.None? then []
    else
      var i := SlotOf(KEYS, f.value.key);
      if i == |KEYS| then []
      else
        AcceptFitting(i, f.value.value);
        match Accept(i, f.value.value)
        case None => []
        case Some(v) => [Assigned(i, v)]
  }

  function Assignments(fields: seq<Option<Field>>): (r: seq<Event>)
    ensures AllPossible(r)
  {
    if fields == [] then [] else Assignments(fields[..|fields| - 1]) + AssignmentOf(fields[|fields| - 1])
  }

  lemma RunOne(t: Tab, run: seq<Event>, e: Event)
    requires Wellformed(t.controls) && AllPossible(run) && Possible(e)
    ensures AllPossible(run + [e]) && Run(t, run + [e]) == Step(Run(t, run), e)
  {
    assert (run + [e])[..|run|] == run;
  }

  /** One field more, one assignment more, or none. */
  function SetBy(t: Tab, f: Option<Field>): (r: Tab)
    requires Wellformed(t.controls)
    ensures Wellformed(r.controls)
  {
    var a := AssignmentOf(f);
    if a == [] then t else assert Possible(a[0]); Step(t, a[0])
  }

  lemma RunAssignment(t: Tab, run: seq<Event>, f: Option<Field>)
    requires Wellformed(t.controls) && AllPossible(run)
    ensures AllPossible(run + AssignmentOf(f))
    ensures Run(t, run + AssignmentOf(f)) == SetBy(Run(t, run), f)
    ensures Run(t, run + AssignmentOf(f)).controls == Apply(PROTOCOL, Run(t, run).controls, f)
  {
    hide Run, Accept, SlotOf, Fitting, ColorOf, Wellformed;
    var a := AssignmentOf(f);
    if a == [] { assert run + a == run; } else { RunOne(t, run, a[0]); }
  }

  /** Receiving a message is a run of assignments; what they leave in the controls is what the parser
      makes of the message. */
  lemma {:induction false} MessageIsRun(t: Tab, fields: seq<Option<Field>>)
    requires Wellformed(t.controls)
    ensures Run(t, Assignments(fields)).controls == ApplyAll(PROTOCOL, t.controls, fields)
  {
    hide Run, Apply, AssignmentOf, Wellformed;
    if fields == [] {
      RunNothing(t);
    } else {
      var n := |fields| - 1;
      MessageIsRun(t, fields[..n]);
      RunAssignment(t, Assignments(fields[..n]), fields[n]);
    }
  }

  lemma RunNothing(t: Tab)
    requires Wellformed(t.controls)
    ensures AllPossible([]) && Run(t, []) == t
  {
  }

  // ----- The wave tab -----

  class WaveTab {
    var controls: seq<Control>
    var panelColor: Color
    var chkWaveLink: bool
    var updatingWaveParams: bool
    var sendingMessage: bool
    var sent: seq<string>

    ghost predicate Valid()
      reads this
    {
      Wellformed(controls) && !updatingWaveParams && !sendingMessage
    }

    ghost function State(): Tab
      reads this
    {
      Tab(controls, panelColor)
    }

    /** The tab as the form is shown: the panel gets its colour whatever the components are. */
    constructor (controls: seq<Control>, linked: bool)
      requires Wellformed(controls)
      ensures Valid() && State() == Tab(controls, SHOWN) && chkWaveLink == linked && sent == []
    {
      this.controls, panelColor := controls, SHOWN;
      chkWaveLink, updatingWaveParams, sendingMessage, sent := linked, false, false, [];
    }

    /** What is sent when nothing else is being sent. */
    function Message(canSendPipeMessage: bool): seq<string>
      requires |controls| == |KEYS|
      reads this
    {
      if canSendPipeMessage then ["WAVE|" + PrintWave(panelColor, controls)] else []
    }

    method SendToMilkwaveVisualizer(canSendPipeMessage: bool)
      requires |controls| == |KEYS|
      modifies this`sent, this`sendingMessage
      ensures sent == old(sent) + (if old(sendingMessage) then [] else Message(canSendPipeMessage))
      ensures !sendingMessage
    {
      if !sendingMessage {
        sendingMessage := true;
        if canSendPipeMessage { sent := sent + ["WAVE|" + PrintWave(panelColor, controls)]; }
      }
      sendingMessage := false;
    }

    method SendWaveInfo(canSendPipeMessage: bool)
      requires |controls| == |KEYS|
      modifies this`sent, this`sendingMessage
      ensures sent == old(sent) +
                if updatingWaveParams || old(sendingMessage) then [] else Message(canSendPipeMessage)
      ensures sendingMessage ==> old(sendingMessage)
    {
      if !updatingWaveParams { SendToMilkwaveVisualizer(canSendPipeMessage); }
    }

    method UpdateWaveColorPicker()
      requires Wellformed(controls)
      modifies this`panelColor
      ensures InStep(State())
    {
      panelColor := ColorOf(controls);
    }

    /** Assigning a control's value; a change raises its event, which may send. */
    method Assign(i: nat, value: Control, canSendPipeMessage: bool)
      requires Wellformed(controls) && Possible(Assigned(i, value))
      modifies this`controls, this`panelColor, this`sent, this`sendingMessage
      ensures State() == Step(old(State()), Assigned(i, value))
      ensures sent == old(sent) +
                if chkWaveLink && !updatingWaveParams && !old(sendingMessage) && value != old(controls)[i]
                then Message(canSendPipeMessage) else []
      ensures sendingMessage ==> old(sendingMessage)
    {
      hide PrintWave, Fitting, ColorOf;
      if controls[i] == value { return; }
      controls := controls[i := value];
      if RED <= i <= BLUE { UpdateWaveColorPicker(); }
      if chkWaveLink { SendWaveInfo(canSendPipeMessage); }
    }

    /** The colour dialog was closed with OK: the components are set with their handlers detached. */
    method ColorChosen(color: Color, canSendPipeMessage: bool)
      requires Valid()
      modifies this`controls, this`panelColor, this`sent, this`sendingMessage
      ensures Valid() && State() == Step(old(State()), Chosen(color))
      ensures sent == old(sent) + if chkWaveLink then Message(canSendPipeMessage) else []
    {
      hide PrintWave, Fitting, ColorOf;
      ChosenColor(controls, color);
      panelColor := color;
      controls := controls[RED := Number(Dec(color.red, 0))];
      controls := controls[GREEN := Number(Dec(color.green, 0))];
      controls := controls[BLUE := Number(Dec(color.blue, 0))];
      if chkWaveLink { SendWaveInfo(canSendPipeMessage); }
    }

    /** One field of a WAVE| message. */
    method SetFrom(param: string, canSendPipeMessage: bool)
      requires Wellformed(controls) && updatingWaveParams
      modifies this`controls, this`panelColor, this`sent, this`sendingMessage
      ensures State() == SetBy(old(State()), ParseField(param)) && sent == old(sent)
      ensures sendingMessage ==> old(sendingMessage)
    {
      hide Accept, SlotOf, Fitting, ColorOf, ParseField, PrintWave, Step, Wellformed;
      var f := ParseField(param);
      if f.Some? {
        var i := SlotOf(KEYS, f.value.key);
        if i < |KEYS| {
          AcceptFitting(i, f.value.value);
          var v := Accept(i, f.value.value);
          if v.Some? { Assign(i, v.value, canSendPipeMessage); }
        }
      }
    }

    /** A WAVE| message: every acceptable field is assigned, nothing is sent back. */
    method OnWaveMessage(body: string, canSendPipeMessage: bool)
      requires Valid()
      modifies this
      ensures Valid() && controls == ParseWave(old(controls), body)
      ensures State() == Run(old(State()), Assignments(ParseFields(body)))
      ensures sent == old(sent) && chkWaveLink == old(chkWaveLink)
    {
      hide SetBy, ParseField, Split, Run, Wellformed, AssignmentOf, Apply, ApplyAll, Step, Fitting, AllPossible;
      var params := Split(body, '|');
      ghost var fields := ParseEach(params);
      updatingWaveParams := true;
      RunNothing(State());
      for k := 0 to |params|
        invariant Wellformed(controls) && updatingWaveParams && !sendingMessage
        invariant State() == Run(old(State()), Assignments(fields[..k]))
        invariant sent == old(sent) && chkWaveLink == old(chkWaveLink)
      {
        ParsedParam(params, k);
        assert fields[..k + 1][..k] == fields[..k];
        RunAssignment(old(State()), Assignments(fields[..k]), fields[k]);
        SetFrom(params[k], canSendPipeMessage);
      }
      assert fields[..|params|] == fields;
      MessageIsRun(old(State()), fields);
      updatingWaveParams := false;
    }
  }
}
