/** The two mutually exclusive mix switches and the messages they send to the visualizer. */
module MixSwitches {

  datatype Message =
    | Opacity(percent: int)
    | OnTop(on: bool)
    | LumaKey(threshold: int, softness: int)
    | VideoDevice(index: int)
    | SpoutSender(name: string)
    | EnableVideo(on: bool)
    | EnableSpout(on: bool)

  // ----- What the visualizer makes of the messages -----

  datatype Mixing = Mixing(video: bool, spout: bool)

  /** The visualizer's own handling: a request for the state an input already has is ignored, and an
      input that is switched on switches the other one off. */
  function Receive(m: Mixing, msg: Message): Mixing {
    match msg
    case EnableVideo(on) => if on == m.video then m else if on then Mixing(true, false) else m.(video := false)
    case EnableSpout(on) => if on == m.spout then m else if on then Mixing(false, true) else m.(spout := false)
    case _ => m
  }

  function Replay(trace: seq<Message>): Mixing {
    if trace == [] then Mixing(false, false)
    else Receive(Replay(trace[..|trace| - 1]), trace[|trace| - 1])
  }

  function Ask(m: Mixing, msg: Message): Mixing {
    match msg
    case EnableVideo(on) => m.(video := on)
    case EnableSpout(on) => m.(spout := on)
    case _ => m
  }

  /** The last word of the messages on each input by itself. */
  function Requests(trace: seq<Message>): Mixing {
    if trace == [] then Mixing(false, false)
    else Ask(Requests(trace[..|trace| - 1]), trace[|trace| - 1])
  }

  /** At no point do the messages ask for both inputs. */
  ghost predicate NeverBoth(trace: seq<Message>) {
    forall k :: 0 <= k <= |trace| ==> !(Requests(trace[..k]).video && Requests(trace[..k]).spout)
  }

  /** The message at i is an enable that comes right after opacity, layer and luma key, with at
      most the source's name in between. */
  predicate PreparedAt(trace: seq<Message>, i: nat)
    requires i < |trace|
  {
    var j := if i > 0 && (trace[i - 1].VideoDevice? || trace[i - 1].SpoutSender?) then i - 1 else i;
    trace[i] in {EnableVideo(true), EnableSpout(true)} ==>
      j >= 3 && trace[j - 3].Opacity? && trace[j - 2].OnTop? && trace[j - 1].LumaKey?
  }

  predicate Prepared(trace: seq<Message>) {
    forall i :: 0 <= i < |trace| ==> PreparedAt(trace, i)
  }

  lemma ReplayAppend(trace: seq<Message>, msg: Message)
    ensures Replay(trace + [msg]) == Receive(Replay(trace), msg)
  {
    assert (trace + [msg])[..|trace|] == trace;
  }

  lemma NeverBothAppend(trace: seq<Message>, msg: Message)
    ensures var m := Ask(Requests(trace), msg);
            Requests(trace + [msg]) == m &&
            (NeverBoth(trace + [msg]) <==> NeverBoth(trace) && !(m.video && m.spout))
  {
    var t := trace + [msg];
    assert t[..|trace|] == trace && t[..|t|] == t;
    assert Requests(t) == Ask(Requests(trace), msg);
    hide Requests;
    forall k | 0 <= k <= |trace| ensures t[..k] == trace[..k] {}
  }

  lemma PreparedAppend(trace: seq<Message>, msg: Message)
    requires Prepared(trace) && PreparedAt(trace + [msg], |trace|)
    ensures Prepared(trace + [msg])
  {
    forall i | 0 <= i < |trace| ensures PreparedAt(trace + [msg], i) {
      assert PreparedAt(trace, i);
    }
  }

  /** Whatever is sent to it, the visualizer mixes at most one input. */
  lemma {:induction false} OneAtMost(trace: seq<Message>)
    ensures !(Replay(trace).video && Replay(trace).spout)
  {
    if trace != [] { OneAtMost(trace[..|trace| - 1]); }
  }

  /** Messages that never ask for both inputs get exactly what they ask for: the visualizer's own
      exclusion does not come into play. */
  lemma {:induction false} RequestsFollowed(trace: seq<Message>)
    requires NeverBoth(trace)
    ensures Replay(trace) == Requests(trace)
  {
    if trace != [] {
      var n := |trace| - 1;
      assert trace == trace[..n] + [trace[n]];
      NeverBothAppend(trace[..n], trace[n]);
      RequestsFollowed(trace[..n]);
    }
  }

  // ----- The form -----

  /** The mix controls and the messages sent so far. */
  datatype Form = Form(
    video: bool, spout: bool,
    opacity: int, onTop: bool, lumaActive: bool, threshold: int, softness: int,
    videoIndex: int, senderIndex: int, senderName: string, lastSender: string,
    sent: seq<Message>)
  {
    function Say(sendable: bool, msg: Message): Form {
      if sendable then this.(sent := sent + [msg]) else this
    }

    function Luma(): Message {
      LumaKey(if lumaActive then threshold else -1, softness)
    }

    function LumaChanged(report: bool): Form {
      Say(report, Luma())
    }

    function Settings(sendable: bool): Form {
      Say(sendable, Opacity(opacity)).Say(sendable, OnTop(onTop)).Say(sendable, Luma())
    }

    /** The handler of an unchecked switch reports the new state. */
    function VideoOff(sendable: bool): Form {
      if video then this.(video := false).Say(sendable, EnableVideo(false)) else this
    }

    function SpoutOff(sendable: bool): Form {
      if spout then this.(spout := false).Say(sendable, EnableSpout(false)) else this
    }

    /** The handler of a checked switch: the other one goes first, then settings, source, enable. */
    function VideoChecked(sendable: bool): Form {
      var f := SpoutOff(sendable).Settings(sendable);
      (if videoIndex >= 0 then f.Say(sendable, VideoDevice(videoIndex)) else f).Say(sendable, EnableVideo(true))
    }

    function SpoutChecked(sendable: bool): Form {
      var f := VideoOff(sendable).Settings(sendable);
      (if senderIndex >= 0 then f.Say(sendable, SpoutSender(senderName)) else f).Say(sendable, EnableSpout(true))
    }

    function VideoOn(sendable: bool): Form {
      if video then this else this.(video := true).VideoChecked(sendable)
    }

    function SpoutOn(sendable: bool): Form {
      if spout then this else this.(spout := true).SpoutChecked(sendable)
    }
  }

  datatype Event =
    | SetVideo(on: bool)
    | SetSpout(on: bool)
    | SetOpacity(percent: int)
    | SetOnTop(on: bool)
    | SetLumaActive(on: bool)
    | SetThreshold(percent: int)
    | SetSoftness(percent: int)
    | PickVideo(index: int)
    | PickSender(index: int, name: string)

  /** One top-level event, with the pipe able to send or not while it is handled. */
  function Step(f: Form, e: Event, sendable: bool): Form {
    match e
    case SetVideo(on) => if on then f.VideoOn(sendable) else f.VideoOff(sendable)
    case SetSpout(on) => if on then f.SpoutOn(sendable) else f.SpoutOff(sendable)
    case SetOpacity(percent) =>
      if percent == f.opacity then f else f.(opacity := percent).Say(sendable, Opacity(percent))
    case SetOnTop(on) => if on == f.onTop then f else f.(onTop := on).Say(sendable, OnTop(on))
    case SetLumaActive(on) => f.(lumaActive := on).LumaChanged(on != f.lumaActive && sendable)
    case SetThreshold(percent) => f.(threshold := percent).LumaChanged(percent != f.threshold && sendable)
    case SetSoftness(percent) => f.(softness := percent).LumaChanged(percent != f.softness && sendable)
    case PickVideo(index) =>
      if index == f.videoIndex then f
      else f.(videoIndex := index).Say(sendable && f.video && index >= 0, VideoDevice(index))
    case PickSender(index, name) =>
      var report := f.spout && index >= 0 && name != f.lastSender && sendable;
      f.(senderIndex := index, senderName := name, lastSender := if report then name else f.lastSender)
       .Say(report, SpoutSender(name))
  }

  datatype Occurrence = Occurrence(event: Event, sendable: bool)

  function Run(f: Form, run: seq<Occurrence>): Form {
    if run == [] then f
    else
      var last := run[|run| - 1];
      Step(Run(f, run[..|run| - 1]), last.event, last.sendable)
  }

  predicate Exclusive(f: Form) {
    !(f.video && f.spout)
  }

  /** The visualizer mixes exactly what the check boxes say. */
  predicate Synced(f: Form) {
    Replay(f.sent) == Mixing(f.video, f.spout)
  }

  ghost predicate Sound(f: Form) {
    Exclusive(f) && Synced(f) && NeverBoth(f.sent) && Prepared(f.sent)
  }

  // ----- The effect of one message -----

  /** The message does not ask for an input while the other one is mixed. */
  predicate Harmless(m: Mixing, msg: Message) {
    match msg
    case EnableVideo(on) => !on || !m.spout
    case EnableSpout(on) => !on || !m.video
    case _ => true
  }

  lemma SayEffect(f: Form, msg: Message)
    ensures var g := f.Say(true, msg);
            Replay(g.sent) == Receive(Replay(f.sent), msg) &&
            (NeverBoth(f.sent) && Harmless(Replay(f.sent), msg) ==> NeverBoth(g.sent))
  {
    hide NeverBoth;
    ReplayAppend(f.sent, msg);
    if NeverBoth(f.sent) {
      RequestsFollowed(f.sent);
      OneAtMost(f.sent);
      NeverBothAppend(f.sent, msg);
    }
  }

  /** A message that switches nothing. */
  predicate Neutral(msg: Message) { !msg.EnableVideo? && !msg.EnableSpout? }

  lemma NeutralEffect(f: Form, sendable: bool, msg: Message)
    requires Neutral(msg)
    ensures var g := f.Say(sendable, msg);
            Replay(g.sent) == Replay(f.sent) && (NeverBoth(f.sent) ==> NeverBoth(g.sent))
  {
    hide NeverBoth, Replay;
    SayEffect(f, msg);
  }

  lemma SettingsEffect(f: Form, sendable: bool)
    ensures var g := f.Settings(sendable);
            Replay(g.sent) == Replay(f.sent) && (NeverBoth(f.sent) ==> NeverBoth(g.sent)) && g == f.(sent := g.sent)
  {
    hide NeverBoth, Replay;
    var a := f.Say(sendable, Opacity(f.opacity));
    NeutralEffect(f, sendable, Opacity(f.opacity));
    NeutralEffect(a, sendable, OnTop(f.onTop));
    NeutralEffect(a.Say(sendable, OnTop(f.onTop)), sendable, f.Luma());
  }

  /** Settings, perhaps a source, and an enable. */
  lemma EnableEffect(f: Form, hasSource: bool, source: Message, enable: Message)
    requires Neutral(source)
    ensures var a := f.Settings(true);
            var g := (if hasSource then a.Say(true, source) else a).Say(true, enable);
            Replay(g.sent) == Receive(Replay(f.sent), enable) &&
            (NeverBoth(f.sent) && Harmless(Replay(f.sent), enable) ==> NeverBoth(g.sent))
  {
    hide NeverBoth, Replay, Form.Settings;
    SettingsEffect(f, true);
    var a := f.Settings(true);
    NeutralEffect(a, hasSource, source);
    SayEffect(if hasSource then a.Say(true, source) else a, enable);
  }

  // ----- The effect of one event -----

  /** The event flips a check box. */
  predicate Flips(f: Form, e: Event) {
    match e
    case SetVideo(on) => on != f.video
    case SetSpout(on) => on != f.spout
    case _ => false
  }

  /** What the visualizer mixes after the event if it mixed m before. */
  function After(f: Form, e: Event, sendable: bool, m: Mixing): Mixing {
    if !sendable || !Flips(f, e) then m
    else
      match e
      case SetVideo(on) => if on then Mixing(true, false) else m.(video := false)
      case SetSpout(on) => if on then Mixing(false, true) else m.(spout := false)
      case _ => m
  }

  lemma OffEffect(f: Form)
    ensures var g := f.VideoOff(true);
            Replay(g.sent) == (if f.video then Replay(f.sent).(video := false) else Replay(f.sent)) &&
            (NeverBoth(f.sent) ==> NeverBoth(g.sent))
    ensures var g := f.SpoutOff(true);
            Replay(g.sent) == (if f.spout then Replay(f.sent).(spout := false) else Replay(f.sent)) &&
            (NeverBoth(f.sent) ==> NeverBoth(g.sent))
  {
    hide NeverBoth, Replay;
    SayEffect(f.(video := false), EnableVideo(false));
    SayEffect(f.(spout := false), EnableSpout(false));
  }

  lemma VideoOnEffect(f: Form)
    requires !f.video
    ensures var g := f.VideoOn(true);
            Replay(g.sent) == Mixing(true, false) &&
            (NeverBoth(f.sent) && Synced(f) ==> NeverBoth(g.sent))
  {
    hide NeverBoth, Replay, Form.Settings;
    var a := f.(video := true);
    var b := a.SpoutOff(true);
    OffEffect(a);
    OneAtMost(b.sent);
    EnableEffect(b, b.videoIndex >= 0, VideoDevice(b.videoIndex), EnableVideo(true));
  }

  lemma SpoutOnEffect(f: Form)
    requires !f.spout
    ensures var g := f.SpoutOn(true);
            Replay(g.sent) == Mixing(false, true) &&
            (NeverBoth(f.sent) && Synced(f) ==> NeverBoth(g.sent))
  {
    hide NeverBoth, Replay, Form.Settings;
    var a := f.(spout := true);
    var b := a.VideoOff(true);
    OffEffect(a);
    OneAtMost(b.sent);
    EnableEffect(b, b.senderIndex >= 0, SpoutSender(b.senderName), EnableSpout(true));
  }

  lemma Unsent(f: Form, e: Event)
    ensures Step(f, e, false).sent == f.sent
  {
  }

  lemma Checked(f: Form, sendable: bool)
    ensures f.video ==> f.VideoOn(sendable) == f
    ensures f.spout ==> f.SpoutOn(sendable) == f
  {
  }

  /** What an event makes of the visualizer, whatever was sent to it before; nested handlers included. */
  lemma StepEffect(f: Form, e: Event, sendable: bool)
    ensures var g := Step(f, e, sendable);
            Replay(g.sent) == After(f, e, sendable, Replay(f.sent)) &&
            (NeverBoth(f.sent) && Synced(f) ==> NeverBoth(g.sent))
  {
    hide NeverBoth, Replay, Form.VideoOn, Form.SpoutOn;
    if !sendable {
      Unsent(f, e);
    } else {
      match e
      case SetVideo(on) => if !on { OffEffect(f); } else if !f.video { VideoOnEffect(f); } else { Checked(f, true); }
      case SetSpout(on) => if !on { OffEffect(f); } else if !f.spout { SpoutOnEffect(f); } else { Checked(f, true); }
      case SetOpacity(percent) => NeutralEffect(f, true, Opacity(percent));
      case SetOnTop(on) => NeutralEffect(f, true, OnTop(on));
      case SetLumaActive(on) => NeutralEffect(f, true, f.(lumaActive := on).Luma());
      case SetThreshold(percent) => NeutralEffect(f, true, f.(threshold := percent).Luma());
      case SetSoftness(percent) => NeutralEffect(f, true, f.(softness := percent).Luma());
      case PickVideo(index) => NeutralEffect(f, true, VideoDevice(index));
      case PickSender(index, name) => NeutralEffect(f, true, SpoutSender(name));
    }
  }

  lemma SettingsBoxes(f: Form, sendable: bool)
    ensures var g := f.Settings(sendable); g.video == f.video && g.spout == f.spout
  {
  }

  lemma OnBoxes(f: Form, sendable: bool)
    ensures var g := f.VideoOn(sendable); !f.video ==> g.video && !g.spout
    ensures var g := f.SpoutOn(sendable); !f.spout ==> g.spout && !g.video
  {
    hide Form.Settings;
    SettingsBoxes(f.(video := true).SpoutOff(sendable), sendable);
    SettingsBoxes(f.(spout := true).VideoOff(sendable), sendable);
  }

  /** What an event makes of the boxes: checking one unchecks the other. */
  lemma StepBoxes(f: Form, e: Event, sendable: bool)
    ensures var g := Step(f, e, sendable);
            Mixing(g.video, g.spout) == After(f, e, true, Mixing(f.video, f.spout))
  {
    if e.SetVideo? || e.SetSpout? {
      hide Form.VideoOn, Form.SpoutOn;
      OnBoxes(f, sendable);
      Checked(f, sendable);
    }
  }

  /** Every event leaves its value in its own control and touches no other setting; a changed setting is one
      message, if it can be sent, and the picked device is one only while video is checked. */
  lemma StepControls(f: Form, e: Event, sendable: bool)
    ensures var g := Step(f, e, sendable);
            && g.opacity == (if e.SetOpacity? then e.percent else f.opacity)
            && g.onTop == (if e.SetOnTop? then e.on else f.onTop)
            && g.lumaActive == (if e.SetLumaActive? then e.on else f.lumaActive)
            && g.threshold == (if e.SetThreshold? then e.percent else f.threshold)
            && g.softness == (if e.SetSoftness? then e.percent else f.softness)
            && g.videoIndex == (if e.PickVideo? then e.index else f.videoIndex)
            && g.senderIndex == (if e.PickSender? then e.index else f.senderIndex)
            && g.senderName == (if e.PickSender? then e.name else f.senderName)
    ensures var g := Step(f, e, sendable);
            && (e.SetOpacity? ==>
                  g.sent == f.sent + if sendable && e.percent != f.opacity then [Opacity(e.percent)] else [])
            && (e.SetOnTop? ==> g.sent == f.sent + if sendable && e.on != f.onTop then [OnTop(e.on)] else [])
            && (e.PickVideo? ==>
                  g.sent == f.sent +
                    if sendable && f.video && e.index >= 0 && e.index != f.videoIndex then [VideoDevice(e.index)]
                    else [])
            && (e.SetLumaActive? || e.SetThreshold? || e.SetSoftness? ==>
                  |g.sent| == |f.sent| + if sendable && g != f then 1 else 0)
  {
    if e.SetVideo? || e.SetSpout? { SwitchControls(f, e, sendable); }
  }

  lemma SettingsControls(f: Form, sendable: bool)
    ensures var g := f.Settings(sendable); g == f.(sent := g.sent)
  {
  }

  lemma SwitchControls(f: Form, e: Event, sendable: bool)
    requires e.SetVideo? || e.SetSpout?
    ensures var g := Step(f, e, sendable); g == f.(video := g.video, spout := g.spout, sent := g.sent)
  {
    hide Form.Settings;
    SettingsControls(f.(video := true).SpoutOff(sendable), sendable);
    SettingsControls(f.(spout := true).VideoOff(sendable), sendable);
  }

  // ----- In step with the visualizer -----

  /** The two boxes exclude each other on every run, whether or not messages get through. */
  lemma {:induction false} RunExclusive(f: Form, run: seq<Occurrence>)
    requires Exclusive(f)
    ensures Exclusive(Run(f, run))
  {
    hide Step;
    if run != [] {
      var n := |run| - 1;
      RunExclusive(f, run[..n]);
      StepBoxes(Run(f, run[..n]), run[n].event, run[n].sendable);
    }
  }

  /** Exactly when the visualizer is in step after an event, whatever was sent to it, or lost, before. */
  lemma SyncedAfter(f: Form, e: Event, sendable: bool)
    requires Exclusive(f)
    ensures !Flips(f, e) ==> (Synced(Step(f, e, sendable)) <==> Synced(f))
    ensures Flips(f, e) && sendable && e in {SetVideo(true), SetSpout(true)} ==> Synced(Step(f, e, sendable))
    ensures Flips(f, e) && sendable && e == SetVideo(false) ==>
              (Synced(Step(f, e, sendable)) <==> !Replay(f.sent).spout)
    ensures Flips(f, e) && sendable && e == SetSpout(false) ==>
              (Synced(Step(f, e, sendable)) <==> !Replay(f.sent).video)
    ensures Flips(f, e) && Synced(f) ==> (Synced(Step(f, e, sendable)) <==> sendable)
  {
    hide Step, Replay;
    StepEffect(f, e, sendable);
    StepBoxes(f, e, sendable);
  }

  /** In step with the visualizer at the start and after each event. */
  predicate AlwaysSynced(f: Form, run: seq<Occurrence>) {
    Synced(Run(f, run)) && (run != [] ==> AlwaysSynced(f, run[..|run| - 1]))
  }

  predicate FlipsSent(f: Form, run: seq<Occurrence>) {
    run != [] ==>
      var n := |run| - 1;
      FlipsSent(f, run[..n]) && (Flips(Run(f, run[..n]), run[n].event) ==> run[n].sendable)
  }

  lemma AlwaysAtEnd(f: Form, run: seq<Occurrence>)
    requires AlwaysSynced(f, run)
    ensures Synced(Run(f, run))
  {
  }

  /** Once in step, the visualizer stays so over a whole run exactly when the pipe can send during every
      event that flips a box; and then the messages never ask for both inputs. */
  lemma {:induction false} SyncedIff(f: Form, run: seq<Occurrence>)
    requires Exclusive(f) && Synced(f)
    ensures AlwaysSynced(f, run) <==> FlipsSent(f, run)
    ensures AlwaysSynced(f, run) && NeverBoth(f.sent) ==> NeverBoth(Run(f, run).sent)
  {
    hide Exclusive, Synced, Flips, NeverBoth, Step;
    if run != [] {
      var n := |run| - 1;
      var g := Run(f, run[..n]);
      SyncedIff(f, run[..n]);
      RunExclusive(f, run[..n]);
      if AlwaysSynced(f, run[..n]) {
        AlwaysAtEnd(f, run[..n]);
        SyncedAfter(g, run[n].event, run[n].sendable);
        StepEffect(g, run[n].event, run[n].sendable);
      }
    }
  }

  /** Whatever was lost before, a box that is checked while the pipe can send brings the visualizer
      back into step, and from then on it stays there exactly as if nothing had been lost. */
  lemma ResyncedIff(f: Form, before: seq<Occurrence>, check: Event, run: seq<Occurrence>)
    requires Exclusive(f) && check in {SetVideo(true), SetSpout(true)} && Flips(Run(f, before), check)
    ensures var g := Step(Run(f, before), check, true);
            Synced(g) && (AlwaysSynced(g, run) <==> FlipsSent(g, run))
  {
    hide Step, Flips;
    var g := Run(f, before);
    RunExclusive(f, before);
    SyncedAfter(g, check, true);
    StepBoxes(g, check, true);
    SyncedIff(Step(g, check, true), run);
  }

  // ----- Prepared enables -----

  predicate SettingsLast(trace: seq<Message>) {
    var n := |trace|;
    n >= 3 && trace[n - 3].Opacity? && trace[n - 2].OnTop? && trace[n - 1].LumaKey?
  }

  lemma NeutralPrepared(f: Form, sendable: bool, msg: Message)
    requires Prepared(f.sent) && msg !in {EnableVideo(true), EnableSpout(true)}
    ensures Prepared(f.Say(sendable, msg).sent)
  {
    hide Prepared;
    if sendable { PreparedAppend(f.sent, msg); }
  }

  lemma SettingsPrepared(f: Form, sendable: bool)
    requires Prepared(f.sent)
    ensures var g := f.Settings(sendable); Prepared(g.sent) && (sendable ==> SettingsLast(g.sent))
  {
    hide Prepared;
    var a := f.Say(sendable, Opacity(f.opacity));
    NeutralPrepared(f, sendable, Opacity(f.opacity));
    NeutralPrepared(a, sendable, OnTop(f.onTop));
    NeutralPrepared(a.Say(sendable, OnTop(f.onTop)), sendable, f.Luma());
  }

  /** After the settings, the source and the enable may follow. */
  lemma EnablePrepared(f: Form, sendable: bool, hasSource: bool, source: Message, enable: Message)
    requires Prepared(f.sent) && (source.VideoDevice? || source.SpoutSender?)
    ensures var a := f.Settings(sendable);
            Prepared((if hasSource then a.Say(sendable, source) else a).Say(sendable, enable).sent)
  {
    hide Prepared, Form.Settings;
    SettingsPrepared(f, sendable);
    var a := f.Settings(sendable);
    NeutralPrepared(a, sendable && hasSource, source);
    if sendable { PreparedAppend((if hasSource then a.Say(true, source) else a).sent, enable); }
  }

  lemma OffPrepared(f: Form, sendable: bool)
    requires Prepared(f.sent)
    ensures Prepared(f.VideoOff(sendable).sent) && Prepared(f.SpoutOff(sendable).sent)
  {
    hide Prepared;
    NeutralPrepared(f.(video := false), sendable, EnableVideo(false));
    NeutralPrepared(f.(spout := false), sendable, EnableSpout(false));
  }

  lemma StepPrepared(f: Form, e: Event, sendable: bool)
    requires Prepared(f.sent)
    ensures Prepared(Step(f, e, sendable).sent)
  {
    hide Prepared, Form.Settings;
    match e
    case SetVideo(on) =>
      var a := f.(video := true);
      OffPrepared(f, sendable);
      OffPrepared(a, sendable);
      EnablePrepared(a.SpoutOff(sendable), sendable, f.videoIndex >= 0, VideoDevice(f.videoIndex), EnableVideo(true));
    case SetSpout(on) =>
      var a := f.(spout := true);
      OffPrepared(f, sendable);
      OffPrepared(a, sendable);
      EnablePrepared(a.VideoOff(sendable), sendable, f.senderIndex >= 0, SpoutSender(f.senderName), EnableSpout(true));
    case SetOpacity(percent) => NeutralPrepared(f, sendable, Opacity(percent));
    case SetOnTop(on) => NeutralPrepared(f, sendable, OnTop(on));
    case SetLumaActive(on) => NeutralPrepared(f, sendable, f.(lumaActive := on).Luma());
    case SetThreshold(percent) => NeutralPrepared(f, sendable, f.(threshold := percent).Luma());
    case SetSoftness(percent) => NeutralPrepared(f, sendable, f.(softness := percent).Luma());
    case PickVideo(index) => NeutralPrepared(f, sendable, VideoDevice(index));
    case PickSender(index, name) => NeutralPrepared(f, sendable, SpoutSender(name));
  }

  /** On every run, whatever is lost, each enable that is sent is prepared. */
  lemma {:induction false} RunPrepared(f: Form, run: seq<Occurrence>)
    requires Prepared(f.sent)
    ensures Prepared(Run(f, run).sent)
  {
    hide Step, Prepared;
    if run != [] {
      var n := |run| - 1;
      RunPrepared(f, run[..n]);
      StepPrepared(Run(f, run[..n]), run[n].event, run[n].sendable);
    }
  }

  // ----- All together -----

  lemma {:induction false} AllSentFlipsSent(f: Form, run: seq<Occurrence>)
    requires forall i :: 0 <= i < |run| ==> run[i].sendable
    ensures FlipsSent(f, run)
  {
    hide Flips;
    if run != [] { AllSentFlipsSent(f, run[..|run| - 1]); }
  }

  /** With a pipe that can send, no run ever asks for both inputs, every enable is prepared, and the
      visualizer follows the check boxes. */
  lemma RunSound(f: Form, run: seq<Occurrence>)
    requires Sound(f)
    requires forall i :: 0 <= i < |run| ==> run[i].sendable
    ensures Sound(Run(f, run))
  {
    hide Exclusive, Synced, NeverBoth, Prepared, FlipsSent;
    RunExclusive(f, run);
    RunPrepared(f, run);
    AllSentFlipsSent(f, run);
    SyncedIff(f, run);
    AlwaysAtEnd(f, run);
  }

  /** Why the pipe matters: video is mixed, the change to spout is lost, and then spout is switched off;
      both boxes are unchecked, and video is still mixed. */
  lemma LostMessageLeavesVideo(f: Form)
    requires f.sent == [] && !f.video && !f.spout
    ensures var run := [Occurrence(SetVideo(true), true), Occurrence(SetSpout(true), false),
                        Occurrence(SetSpout(false), true)];
            var g := Run(f, run);
            Mixing(g.video, g.spout) == Mixing(false, false) && Replay(g.sent) == Mixing(true, false)
  {
    hide Step, Replay;
    var run := [Occurrence(SetVideo(true), true), Occurrence(SetSpout(true), false), Occurrence(SetSpout(false), true)];
    assert run[..2] == [run[0], run[1]] && run[..2][..1] == [run[0]] && [run[0]][..0] == [];
    var a := Step(f, SetVideo(true), true);
    var b := Step(a, SetSpout(true), false);
    assert Run(f, []) == f && Run(f, [run[0]]) == a && Run(f, run[..2]) == b;
    StepEffect(f, SetVideo(true), true);
    StepBoxes(f, SetVideo(true), true);
    StepEffect(a, SetSpout(true), false);
    StepBoxes(a, SetSpout(true), false);
    StepEffect(b, SetSpout(false), true);
    StepBoxes(b, SetSpout(false), true);
  }

  // ----- The handlers -----

  /** The controls as fields; the CheckedChanged handlers call each other through the boxes. */
  class MixForm {
    var chkVideoMix: bool
    var chkSpoutMix: bool
    var numInputMixOpacity: int
    var chkInputTop: bool
    var chkMixLumaActive: bool
    var numLumaThreshold: int
    var numLumaSoftness: int
    var cboVideoInput: int
    var cboSputInput: int
    var spoutSenderName: string
    var lastSpoutSenderName: string
    var sent: seq<Message>

    constructor (opacity: int, onTop: bool)
      ensures State() == Form(false, false, opacity, onTop, false, 20, 20, -1, -1, "", "", [])
    {
      chkVideoMix, chkSpoutMix, sent := false, false, [];
      numInputMixOpacity, chkInputTop := opacity, onTop;
      chkMixLumaActive, numLumaThreshold, numLumaSoftness := false, 20, 20;
      cboVideoInput, cboSputInput, spoutSenderName, lastSpoutSenderName := -1, -1, "", "";
    }

    function State(): Form
      reads this
    {
      Form(chkVideoMix, chkSpoutMix, numInputMixOpacity, chkInputTop, chkMixLumaActive,
           numLumaThreshold, numLumaSoftness, cboVideoInput, cboSputInput, spoutSenderName,
           lastSpoutSenderName, sent)
    }

    method PipeSendSignal(msg: Message)
      modifies this`sent
      ensures State() == old(State()).Say(true, msg)
    {
      sent := sent + [msg];
    }

    method SendSettings()
      modifies this`sent
      ensures State() == old(State()).Settings(true)
    {
      PipeSendSignal(Opacity(numInputMixOpacity));
      PipeSendSignal(OnTop(chkInputTop));
      PipeSendSignal(LumaKey(if chkMixLumaActive then numLumaThreshold else -1, numLumaSoftness));
    }

    /** Assigning Checked raises CheckedChanged only when the value changes. */
    method SetVideoMix(value: bool, canSendPipeMessage: bool)
      modifies this
      ensures State() == Step(old(State()), SetVideo(value), canSendPipeMessage)
      decreases if value then 3 else 1
    {
      if chkVideoMix != value {
        chkVideoMix := value;
        VideoMixCheckedChanged(canSendPipeMessage);
      }
    }

    method SetSpoutMix(value: bool, canSendPipeMessage: bool)
      modifies this
      ensures State() == Step(old(State()), SetSpout(value), canSendPipeMessage)
      decreases if value then 3 else 1
    {
      if chkSpoutMix != value {
        chkSpoutMix := value;
        SpoutMixCheckedChanged(canSendPipeMessage);
      }
    }

    method VideoMixCheckedChanged(canSendPipeMessage: bool)
      modifies this
      ensures State() == if old(chkVideoMix) then old(State()).VideoChecked(canSendPipeMessage)
                         else old(State()).Say(canSendPipeMessage, EnableVideo(false))
      decreases if chkVideoMix then 2 else 0
    {
      var enabled := chkVideoMix;
      if enabled && chkSpoutMix {
        SetSpoutMix(false, canSendPipeMessage);
      }
      if canSendPipeMessage {
        if enabled { SendSettings(); }
        if enabled && cboVideoInput >= 0 { PipeSendSignal(VideoDevice(cboVideoInput)); }
        PipeSendSignal(EnableVideo(enabled));
      }
    }

    method SpoutMixCheckedChanged(canSendPipeMessage: bool)
      modifies this
      ensures State() == if old(chkSpoutMix) then old(State()).SpoutChecked(canSendPipeMessage)
                         else old(State()).Say(canSendPipeMessage, EnableSpout(false))
      decreases if chkSpoutMix then 2 else 0
    {
      var enabled := chkSpoutMix;
      if enabled && chkVideoMix {
        SetVideoMix(false, canSendPipeMessage);
      }
      if canSendPipeMessage {
        if enabled { SendSettings(); }
        if enabled && cboSputInput >= 0 { PipeSendSignal(SpoutSender(spoutSenderName)); }
        PipeSendSignal(EnableSpout(enabled));
      }
    }

    method SpoutSenderSelected(index: int, name: string, canSendPipeMessage: bool)
      modifies this
      ensures State() == Step(old(State()), PickSender(index, name), canSendPipeMessage)
      ensures var announced := chkSpoutMix && index >= 0 && name != old(lastSpoutSenderName) && canSendPipeMessage;
              sent == old(sent) + (if announced then [SpoutSender(name)] else []) &&
              lastSpoutSenderName == if announced then name else old(lastSpoutSenderName)
    {
      cboSputInput, spoutSenderName := index, name;
      if chkSpoutMix && cboSputInput >= 0 {
        if name == lastSpoutSenderName { return; }
        if canSendPipeMessage {
          PipeSendSignal(SpoutSender(name));
          lastSpoutSenderName := name;
        }
      }
    }
  }
}
