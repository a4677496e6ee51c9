/** What the visualizer knows of the mix controls: the values in the messages, not just their kinds. */
module MixSettings {
  import opened MixSwitches

  /** The settings the visualizer was last told. */
  datatype Heard = Heard(opacity: int, onTop: bool, threshold: int, softness: int, device: int, sender: string)

  function Hear(h: Heard, msg: Message): Heard {
    match msg
    case Opacity(percent) => h.(opacity := percent)
    case OnTop(on) => h.(onTop := on)
    case LumaKey(threshold, softness) => h.(threshold := threshold, softness := softness)
    case VideoDevice(index) => h.(device := index)
    case SpoutSender(name) => h.(sender := name)
    case EnableVideo(on) => h
    case EnableSpout(on) => h
  }

  /** After the messages of a trace, from whatever it knew before. */
  function Knows(start: Heard, trace: seq<Message>): Heard {
    if trace == [] then start else Hear(Knows(start, trace[..|trace| - 1]), trace[|trace| - 1])
  }

  lemma KnowsMore(start: Heard, trace: seq<Message>, msg: Message)
    ensures Knows(start, trace + [msg]) == Hear(Knows(start, trace), msg)
  {
    assert (trace + [msg])[..|trace|] == trace;
  }

  /** Opacity, layer and luma key are as the controls show them; a luma key that is off has the threshold -1. */
  predicate SettingsKnown(f: Form, h: Heard) {
    && h.opacity == f.opacity && h.onTop == f.onTop
    && h.threshold == (if f.lumaActive then f.threshold else -1) && h.softness == f.softness
  }

  /** So is the source of the input that is checked, if one is selected. */
  predicate SourceKnown(f: Form, h: Heard) {
    (f.video && f.videoIndex >= 0 ==> h.device == f.videoIndex) &&
    (f.spout && f.senderIndex >= 0 ==> h.sender == f.senderName)
  }

  predicate Known(start: Heard, f: Form) {
    SettingsKnown(f, Knows(start, f.sent)) && SourceKnown(f, Knows(start, f.sent))
  }

  // ----- When an input is switched on -----

  lemma SettingsTold(start: Heard, f: Form)
    ensures var g := f.Settings(true);
            g == f.(sent := g.sent) && SettingsKnown(g, Knows(start, g.sent)) &&
            Knows(start, g.sent).device == Knows(start, f.sent).device &&
            Knows(start, g.sent).sender == Knows(start, f.sent).sender
  {
    hide Knows;
    var a := f.Say(true, Opacity(f.opacity));
    var b := a.Say(true, OnTop(f.onTop));
    KnowsMore(start, f.sent, Opacity(f.opacity));
    KnowsMore(start, a.sent, OnTop(f.onTop));
    KnowsMore(start, b.sent, f.Luma());
  }

  lemma EnableTold(start: Heard, f: Form, hasSource: bool, source: Message, enable: Message)
    requires source.VideoDevice? || source.SpoutSender?
    requires enable.EnableVideo? || enable.EnableSpout?
    ensures var a := f.Settings(true);
            var g := (if hasSource then a.Say(true, source) else a).Say(true, enable);
            var h := Knows(start, g.sent);
            g == f.(sent := g.sent) && g.sent != [] && g.sent[|g.sent| - 1] == enable && SettingsKnown(g, h) &&
            (hasSource && source.VideoDevice? ==> h.device == source.index) &&
            (hasSource && source.SpoutSender? ==> h.sender == source.name)
  {
    hide Knows, Form.Settings;
    SettingsTold(start, f);
    var a := f.Settings(true);
    KnowsMore(start, a.sent, source);
    KnowsMore(start, (if hasSource then a.Say(true, source) else a).sent, enable);
  }

  /** A box that is checked while the pipe can send: its messages end in the enable, and the visualizer then
      knows every setting and the source as the controls show them, whatever it was told or not told before. */
  lemma CheckTellsAll(start: Heard, f: Form, check: Event)
    requires check in {SetVideo(true), SetSpout(true)} && Flips(f, check)
    ensures var g := Step(f, check, true);
            Known(start, g) && g.sent != [] &&
            g.sent[|g.sent| - 1] == if check.SetVideo? then EnableVideo(true) else EnableSpout(true)
  {
    hide Knows, Form.Settings;
    StepBoxes(f, check, true);
    if check.SetVideo? {
      var b := f.(video := true).SpoutOff(true);
      EnableTold(start, b, b.videoIndex >= 0, VideoDevice(b.videoIndex), EnableVideo(true));
    } else {
      var b := f.(spout := true).VideoOff(true);
      EnableTold(start, b, b.senderIndex >= 0, SpoutSender(b.senderName), EnableSpout(true));
    }
  }

  // ----- And afterwards -----

  /** A sender is picked that the form takes for the last one it announced, though the visualizer has another:
      the announcement is skipped. */
  predicate Skips(start: Heard, f: Form, e: Event) {
    e.PickSender? && f.spout && e.index >= 0 && e.name == f.lastSender && Knows(start, f.sent).sender != e.name
  }

  lemma OffTellsNothing(start: Heard, f: Form)
    ensures Knows(start, f.VideoOff(true).sent) == Knows(start, f.sent)
    ensures Knows(start, f.SpoutOff(true).sent) == Knows(start, f.sent)
  {
    hide Knows;
    KnowsMore(start, f.sent, EnableVideo(false));
    KnowsMore(start, f.sent, EnableSpout(false));
  }

  lemma CheckKnown(start: Heard, f: Form, check: Event)
    requires check in {SetVideo(true), SetSpout(true)} && Flips(f, check)
    ensures Known(start, Step(f, check, true))
  {
    hide Step, Known;
    CheckTellsAll(start, f, check);
  }

  lemma SwitchKnown(start: Heard, f: Form, e: Event)
    requires e.SetVideo? || e.SetSpout?
    ensures var g := Step(f, e, true);
            (SettingsKnown(f, Knows(start, f.sent)) ==> SettingsKnown(g, Knows(start, g.sent))) &&
            (SourceKnown(f, Knows(start, f.sent)) ==> SourceKnown(g, Knows(start, g.sent)))
  {
    hide Knows, Form.VideoOn, Form.SpoutOn, Form.Settings;
    if Flips(f, e) && e.on { CheckKnown(start, f, e); } else { Checked(f, true); OffTellsNothing(start, f); }
  }

  lemma PickKnown(start: Heard, f: Form, e: Event)
    requires e.PickVideo? || e.PickSender?
    ensures var g := Step(f, e, true);
            (SettingsKnown(f, Knows(start, f.sent)) ==> SettingsKnown(g, Knows(start, g.sent))) &&
            (SourceKnown(f, Knows(start, f.sent)) ==>
               (SourceKnown(g, Knows(start, g.sent)) <==> !Skips(start, f, e)))
  {
    hide Knows;
    match e
    case PickVideo(index) => KnowsMore(start, f.sent, VideoDevice(index));
    case PickSender(index, name) => KnowsMore(start, f.sent, SpoutSender(name));
    case _ =>
  }

  /** Every event that can be sent keeps the settings known, and all but that one keep the source known. */
  lemma StepKnown(start: Heard, f: Form, e: Event)
    ensures var g := Step(f, e, true);
            (SettingsKnown(f, Knows(start, f.sent)) ==> SettingsKnown(g, Knows(start, g.sent))) &&
            (SourceKnown(f, Knows(start, f.sent)) ==>
               (SourceKnown(g, Knows(start, g.sent)) <==> !Skips(start, f, e)))
  {
    hide Knows, Form.VideoOn, Form.SpoutOn, Form.Settings;
    match e
    case SetVideo(on) => SwitchKnown(start, f, e);
    case SetSpout(on) => SwitchKnown(start, f, e);
    case PickVideo(index) => PickKnown(start, f, e);
    case PickSender(index, name) => PickKnown(start, f, e);
    case SetOpacity(percent) => KnowsMore(start, f.sent, Opacity(percent));
    case SetOnTop(on) => KnowsMore(start, f.sent, OnTop(on));
    case SetLumaActive(on) => KnowsMore(start, f.sent, f.(lumaActive := on).Luma());
    case SetThreshold(percent) => KnowsMore(start, f.sent, f.(threshold := percent).Luma());
    case SetSoftness(percent) => KnowsMore(start, f.sent, f.(softness := percent).Luma());
  }

  predicate AllSent(run: seq<Occurrence>) {
    forall i :: 0 <= i < |run| ==> run[i].sendable
  }

  /** Known at the start and after each event. */
  predicate AlwaysKnown(start: Heard, f: Form, run: seq<Occurrence>) {
    Known(start, Run(f, run)) && (run != [] ==> AlwaysKnown(start, f, run[..|run| - 1]))
  }

  predicate NeverSkips(start: Heard, f: Form, run: seq<Occurrence>) {
    run != [] ==>
      var n := |run| - 1;
      NeverSkips(start, f, run[..n]) && !Skips(start, Run(f, run[..n]), run[n].event)
  }

  /** Over a run that can be sent, the visualizer knows all settings and the source throughout exactly when no
      announcement of a sender is skipped. */
  lemma {:induction false} KnownIff(start: Heard, f: Form, run: seq<Occurrence>)
    requires Known(start, f) && AllSent(run)
    ensures AlwaysKnown(start, f, run) <==> NeverSkips(start, f, run)
  {
    hide SettingsKnown, SourceKnown, Knows, Skips, Step;
    if run != [] {
      var n := |run| - 1;
      KnownIff(start, f, run[..n]);
      if AlwaysKnown(start, f, run[..n]) { StepKnown(start, Run(f, run[..n]), run[n].event); }
    }
  }

  /** The settings alone are known throughout, skipped announcements or not. */
  lemma {:induction false} SettingsStayKnown(start: Heard, f: Form, run: seq<Occurrence>)
    requires SettingsKnown(f, Knows(start, f.sent)) && AllSent(run)
    ensures var g := Run(f, run); SettingsKnown(g, Knows(start, g.sent))
  {
    hide SettingsKnown, Knows, Step;
    if run != [] {
      var n := |run| - 1;
      SettingsStayKnown(start, f, run[..n]);
      StepKnown(start, Run(f, run[..n]), run[n].event);
    }
  }

  lemma RunLast(f: Form, run: seq<Occurrence>, e: Event)
    ensures Run(f, run + [Occurrence(e, true)]) == Step(Run(f, run), e, true)
  {
    hide Step;
    assert (run + [Occurrence(e, true)])[..|run|] == run;
  }

  /** Sender B is picked while spout is off and told with the enable; back at A, which was the last one announced
      by a pick, nothing is sent: the form shows A and the visualizer keeps B. Every event could be sent. */
  lemma PickedSenderNotTold(start: Heard, f: Form)
    requires f.spout && f.senderIndex >= 0 && f.senderName == f.lastSender == "A"
    ensures var run := [] + [Occurrence(SetSpout(false), true)] + [Occurrence(PickSender(1, "B"), true)]
                       + [Occurrence(SetSpout(true), true)] + [Occurrence(PickSender(0, "A"), true)];
            var g := Run(f, run);
            g.spout && g.senderIndex == 0 && g.senderName == "A" && Knows(start, g.sent).sender == "B"
  {
    var a := Step(f, SetSpout(false), true);
    var b := Step(a, PickSender(1, "B"), true);
    assert !b.spout && b.senderIndex == 1 && b.senderName == "B" && b.lastSender == "A";
    hide Knows, Form.Settings;
    var c := Step(b, SetSpout(true), true);
    StepBoxes(b, SetSpout(true), true);
    var v := b.(spout := true).VideoOff(true);
    EnableTold(start, v, true, SpoutSender("B"), EnableSpout(true));
    hide Step;
    var r0: seq<Occurrence> := [];
    assert Run(f, r0) == f;
    RunLast(f, r0, SetSpout(false));
    RunLast(f, r0 + [Occurrence(SetSpout(false), true)], PickSender(1, "B"));
    RunLast(f, r0 + [Occurrence(SetSpout(false), true)] + [Occurrence(PickSender(1, "B"), true)], SetSpout(true));
    RunLast(f, r0 + [Occurrence(SetSpout(false), true)] + [Occurrence(PickSender(1, "B"), true)]
               + [Occurrence(SetSpout(true), true)], PickSender(0, "A"));
    PickSkipped(c);
  }

  lemma PickSkipped(f: Form)
    requires f.spout && f.lastSender == "A"
    ensures Step(f, PickSender(0, "A"), true) == f.(senderIndex := 0, senderName := "A")
  {
  }
}
