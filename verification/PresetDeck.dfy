/** The preset deck: screenshots are captured by background pollers that share one table of
    pending assignments, while the user assigns, unassigns and switches banks. */
module PresetDeck {

  datatype Preset = Preset(path: string, name: string)
  datatype Entry = Entry(preset: Preset, thumbnail: int)

  const BANKS := 3
  const BUTTONS := 15

  // ----- Banks -----

  predicate IsGlobal(g: int) { 1 <= g <= BANKS * BUTTONS }

  /** Settings.CurrentPresetBank and a local button number give the global index. */
  function Global(bank: int, local: int): int {
    local + (bank - 1) * BUTTONS
  }

  function BankOf(g: int): int { (g - 1) / BUTTONS + 1 }

  function LocalOf(g: int): int { (g - 1) % BUTTONS + 1 }

  lemma BankBijection(bank: int, local: int, g: int)
    requires 1 <= bank <= BANKS && 1 <= local <= BUTTONS && IsGlobal(g)
    ensures IsGlobal(Global(bank, local)) && BankOf(Global(bank, local)) == bank &&
              LocalOf(Global(bank, local)) == local
    ensures 1 <= BankOf(g) <= BANKS && 1 <= LocalOf(g) <= BUTTONS && Global(BankOf(g), LocalOf(g)) == g
  {
    assert (g - 1) == BUTTONS * ((g - 1) / BUTTONS) + (g - 1) % BUTTONS;
  }

  // ----- The shared state -----

  /** What a background task is doing. A capture holds the preset it found pending when it began. */
  datatype Task = Starting | Polling | Capturing(preset: Preset) | Ended

  datatype Poller = Poller(g: int, task: Task)

  /** What a deck button shows. */
  datatype Face = CommandCaption(local: int) | Number(g: int) | Picture(entry: Entry)

  datatype Deck = Deck(
    bank: int, presetMode: bool,
    assignments: map<int, Entry>,
    pending: map<int, Preset>,
    pollers: seq<Poller>,
    faces: map<int, Face>)

  datatype Event =
    | Assign(local: int, preset: Preset)
    | Unassign(local: int)
    | NextBank
    | ToggleMode
    | PollBegins(p: nat)
    | CaptureFound(p: nat)
    | CaptureLocked(p: nat)
    | TimedOut(p: nat)
    | ThumbnailSaved(p: nat)
    | ThumbnailFailed(p: nat)

  function FaceOf(assignments: map<int, Entry>, g: int): Face {
    if g in assignments then Picture(assignments[g]) else Number(g)
  }

  /** Redraws one button for the current bank. */
  function Redraw(d: Deck, local: int): Deck {
    d.(faces := d.faces[local := FaceOf(d.assignments, Global(d.bank, local))])
  }

  function RedrawAll(d: Deck): Deck {
    d.(faces := map i | 1 <= i <= BUTTONS :: FaceOf(d.assignments, Global(d.bank, i)))
  }

  /** A change at g is drawn only when its bank is the current one. */
  function RedrawAt(d: Deck, g: int): Deck {
    if BankOf(g) == d.bank then Redraw(d, LocalOf(g)) else d
  }

  function SetTask(d: Deck, p: nat, task: Task): Deck
    requires p < |d.pollers|
  {
    d.(pollers := d.pollers[p := d.pollers[p].(task := task)])
  }

  function Step(d: Deck, e: Event): Deck {
    match e
    case Assign(local, preset) =>
      if d.presetMode && 1 <= local <= BUTTONS then
        var g := Global(d.bank, local);
        d.(pending := d.pending[g := preset], pollers := d.pollers + [Poller(g, Starting)])
      else d
    case Unassign(local) =>
      var g := Global(d.bank, local);
      if d.presetMode && 1 <= local <= BUTTONS && g in d.assignments then
        RedrawAt(d.(assignments := d.assignments - {g}), g)
      else d
    case NextBank =>
      if d.presetMode then RedrawAll(d.(bank := d.bank % BANKS + 1)) else d
    case ToggleMode =>
      if d.presetMode then d.(presetMode := false, faces := map i | 1 <= i <= BUTTONS :: CommandCaption(i))
      else RedrawAll(d.(presetMode := true))
    case PollBegins(p) =>
      if p < |d.pollers| && d.pollers[p].task == Starting then
        SetTask(d, p, if d.pollers[p].g in d.pending then Polling else Ended)
      else d
    case CaptureFound(p) =>
      if p < |d.pollers| && d.pollers[p].task == Polling then
        SetTask(d, p, if d.pollers[p].g in d.pending then Capturing(d.pending[d.pollers[p].g]) else Ended)
      else d
    case CaptureLocked(p) =>
      if p < |d.pollers| && d.pollers[p].task.Capturing? then SetTask(d, p, Polling) else d
    case TimedOut(p) =>
      if p < |d.pollers| && d.pollers[p].task == Polling then
        SetTask(d, p, Ended).(pending := d.pending - {d.pollers[p].g})
      else d
    case ThumbnailSaved(p) =>
      if p < |d.pollers| && d.pollers[p].task.Capturing? then
        var g := d.pollers[p].g;
        var entry := Entry(d.pollers[p].task.preset, g);
        RedrawAt(SetTask(d, p, Ended).(assignments := d.assignments[g := entry], pending := d.pending - {g}), g)
      else d
    case ThumbnailFailed(p) =>
      if p < |d.pollers| && d.pollers[p].task.Capturing? then
        SetTask(d, p, Ended).(pending := d.pending - {d.pollers[p].g})
      else d
  }

  function Run(d: Deck, events: seq<Event>): Deck {
    if events == [] then d else Step(Run(d, events[..|events| - 1]), events[|events| - 1])
  }

  // ----- What every interleaving keeps -----

  /** Which preset an event requests for which button. */
  function RequestOf(d: Deck, e: Event): set<(int, Preset)> {
    if e.Assign? && d.presetMode && 1 <= e.local <= BUTTONS then {(Global(d.bank, e.local), e.preset)} else {}
  }

  /** Every request made in the course of a run. */
  function Requests(d: Deck, events: seq<Event>): set<(int, Preset)> {
    if events == [] then {}
    else
      var n := |events| - 1;
      Requests(d, events[..n]) + RequestOf(Run(d, events[..n]), events[n])
  }

  predicate Shown(d: Deck) {
    forall i :: 1 <= i <= BUTTONS ==> i in d.faces && d.faces[i] == FaceOf(d.assignments, Global(d.bank, i))
  }

  ghost predicate Wellformed(d: Deck) {
    && 1 <= d.bank <= BANKS
    && (forall p :: 0 <= p < |d.pollers| ==> IsGlobal(d.pollers[p].g))
    && (forall i :: i in d.faces <==> 1 <= i <= BUTTONS)
    && (d.presetMode ==> Shown(d))
  }

  /** Every preset on its way into the deck, or in it, was requested for exactly that button
      (or was in the deck from the start), and carries that button's thumbnail. */
  ghost predicate Justified(requests: set<(int, Preset)>, loaded: map<int, Entry>, d: Deck) {
    && (forall g :: g in d.pending ==> (g, d.pending[g]) in requests)
    && (forall p :: 0 <= p < |d.pollers| ==> PollerJustified(requests, d.pollers[p]))
    && (forall g :: g in d.assignments ==> EntryJustified(requests, loaded, g, d.assignments[g]))
  }

  predicate PollerJustified(requests: set<(int, Preset)>, poller: Poller) {
    poller.task.Capturing? ==> (poller.g, poller.task.preset) in requests
  }

  predicate EntryJustified(requests: set<(int, Preset)>, loaded: map<int, Entry>, g: int, entry: Entry) {
    (g in loaded && entry == loaded[g]) || ((g, entry.preset) in requests && entry.thumbnail == g)
  }

  lemma RedrawAtShows(d: Deck, g: int, before: map<int, Entry>)
    requires 1 <= d.bank <= BANKS && IsGlobal(g)
    requires forall i :: 1 <= i <= BUTTONS ==> i in d.faces && d.faces[i] == FaceOf(before, Global(d.bank, i))
    requires forall k :: k != g ==> FaceOf(before, k) == FaceOf(d.assignments, k)
    ensures Shown(RedrawAt(d, g))
  {
    forall i | 1 <= i <= BUTTONS ensures Global(d.bank, i) == g <==> BankOf(g) == d.bank && LocalOf(g) == i {
      BankBijection(d.bank, i, g);
    }
    BankBijection(d.bank, 1, g);
  }

  /** An entry set or removed, and its button redrawn if its bank is the current one. */
  lemma ChangeShown(d: Deck, g: int, assignments: map<int, Entry>)
    requires Wellformed(d) && IsGlobal(g)
    requires forall k :: k != g ==> FaceOf(d.assignments, k) == FaceOf(assignments, k)
    ensures Wellformed(RedrawAt(d.(assignments := assignments), g))
  {
    BankBijection(d.bank, 1, g);
    if d.presetMode { RedrawAtShows(d.(assignments := assignments), g, d.assignments); }
  }

  lemma UserWellformed(d: Deck, e: Event)
    requires Wellformed(d) && (e.Assign? || e.Unassign? || e.NextBank? || e.ToggleMode?)
    ensures Wellformed(Step(d, e))
  {
    match e
    case Assign(local, preset) => if 1 <= local <= BUTTONS { BankBijection(d.bank, local, 1); }
    case Unassign(local) =>
      if 1 <= local <= BUTTONS {
        BankBijection(d.bank, local, 1);
        hide Wellformed;
        ChangeShown(d, Global(d.bank, local), d.assignments - {Global(d.bank, local)});
      }
    case _ =>
  }

  lemma PollerWellformed(d: Deck, e: Event)
    requires Wellformed(d) && !(e.Assign? || e.Unassign? || e.NextBank? || e.ToggleMode?)
    ensures Wellformed(Step(d, e))
  {
    match e
    case ThumbnailSaved(p) =>
      if p < |d.pollers| && d.pollers[p].task.Capturing? {
        var g := d.pollers[p].g;
        var ended := SetTask(d, p, Ended).(pending := d.pending - {g});
        assert Wellformed(ended);
        hide Wellformed;
        ChangeShown(ended, g, d.assignments[g := Entry(d.pollers[p].task.preset, g)]);
      }
    case _ =>
  }

  lemma StepWellformed(d: Deck, e: Event)
    requires Wellformed(d)
    ensures Wellformed(Step(d, e))
  {
    hide Step, Wellformed;
    if e.Assign? || e.Unassign? || e.NextBank? || e.ToggleMode? {
      UserWellformed(d, e);
    } else {
      PollerWellformed(d, e);
    }
  }

  lemma JustifiedGrows(requests: set<(int, Preset)>, more: set<(int, Preset)>, loaded: map<int, Entry>, d: Deck)
    requires Justified(requests, loaded, d)
    ensures Justified(requests + more, loaded, d)
  {
  }

  lemma SameAfterRedraw(requests: set<(int, Preset)>, loaded: map<int, Entry>, d: Deck, g: int)
    requires Justified(requests, loaded, d)
    ensures Justified(requests, loaded, RedrawAt(d, g)) && Justified(requests, loaded, RedrawAll(d))
  {
  }

  lemma TaskJustified(requests: set<(int, Preset)>, loaded: map<int, Entry>, d: Deck, p: nat, task: Task)
    requires Justified(requests, loaded, d) && p < |d.pollers|
    requires task.Capturing? ==> (d.pollers[p].g, task.preset) in requests
    ensures Justified(requests, loaded, SetTask(d, p, task))
  {
  }

  lemma StepJustified(requests: set<(int, Preset)>, loaded: map<int, Entry>, d: Deck, e: Event)
    requires Justified(requests, loaded, d)
    ensures Justified(requests + RequestOf(d, e), loaded, Step(d, e))
  {
    JustifiedGrows(requests, RequestOf(d, e), loaded, d);
    if e.Assign? || e.Unassign? || e.NextBank? || e.ToggleMode? {
      UserJustified(requests + RequestOf(d, e), loaded, d, e);
    } else {
      assert requests + RequestOf(d, e) == requests;
      PollerStepJustified(requests, loaded, d, e);
    }
  }

  lemma UserJustified(requests: set<(int, Preset)>, loaded: map<int, Entry>, d: Deck, e: Event)
    requires Justified(requests, loaded, d) && RequestOf(d, e) <= requests
    requires e.Assign? || e.Unassign? || e.NextBank? || e.ToggleMode?
    ensures Justified(requests, loaded, Step(d, e))
  {
  }

  lemma PollerStepJustified(requests: set<(int, Preset)>, loaded: map<int, Entry>, d: Deck, e: Event)
    requires Justified(requests, loaded, d)
    requires !(e.Assign? || e.Unassign? || e.NextBank? || e.ToggleMode?)
    ensures Justified(requests, loaded, Step(d, e))
  {
    match e
    case ThumbnailSaved(p) =>
      if p < |d.pollers| && d.pollers[p].task.Capturing? {
        TaskJustified(requests, loaded, d, p, Ended);
        assert PollerJustified(requests, d.pollers[p]);
        var g := d.pollers[p].g;
        var after := SetTask(d, p, Ended).(assignments := d.assignments[g := Entry(d.pollers[p].task.preset, g)],
          pending := d.pending - {g});
        assert Justified(requests, loaded, after);
        SameAfterRedraw(requests, loaded, after, g);
      }
    case PollBegins(p) =>
      if p < |d.pollers| {
        TaskJustified(requests, loaded, d, p, if d.pollers[p].g in d.pending then Polling else Ended);
      }
    case CaptureFound(p) =>
      if p < |d.pollers| {
        TaskJustified(requests, loaded, d, p,
                      if d.pollers[p].g in d.pending then Capturing(d.pending[d.pollers[p].g]) else Ended);
      }
    case CaptureLocked(p) => if p < |d.pollers| { TaskJustified(requests, loaded, d, p, Polling); }
    case TimedOut(p) => if p < |d.pollers| { TaskJustified(requests, loaded, d, p, Ended); }
    case ThumbnailFailed(p) => if p < |d.pollers| { TaskJustified(requests, loaded, d, p, Ended); }
  }

  lemma NothingPending(d: Deck)
    requires d.pending == map[] && d.pollers == []
    ensures Justified({}, d.assignments, d)
  {
  }

  // ----- Main results -----

  /** In every interleaving of user actions, pollers, timeouts and captures, each deck entry is
      one that was there from the start or was requested for exactly that button, and in preset
      mode the buttons show the current bank of the deck. */
  lemma {:induction false} EveryInterleaving(d0: Deck, events: seq<Event>)
    requires Wellformed(d0) && d0.pending == map[] && d0.pollers == []
    ensures Wellformed(Run(d0, events)) && Justified(Requests(d0, events), d0.assignments, Run(d0, events))
  {
    hide Step, Wellformed, Justified;
    if events == [] {
      assert Justified({}, d0.assignments, d0) by { NothingPending(d0); }
    } else {
      var n := |events| - 1;
      EveryInterleaving(d0, events[..n]);
      StepWellformed(Run(d0, events[..n]), events[n]);
      StepJustified(Requests(d0, events[..n]), d0.assignments, Run(d0, events[..n]), events[n]);
    }
  }

  // ----- What is in the deck after a run -----

  predicate CapturingAt(d: Deck, p: nat) { p < |d.pollers| && d.pollers[p].task.Capturing? }

  /** The last that happened to a deck button: a capture put a preset there, or it was unassigned. */
  datatype Change = Put(preset: Preset) | Removed | Untouched

  predicate CapturesFor(d: Deck, e: Event, g: int) {
    e.ThumbnailSaved? && CapturingAt(d, e.p) && d.pollers[e.p].g == g
  }

  predicate Unassigns(d: Deck, e: Event, g: int) {
    e.Unassign? && d.presetMode && 1 <= e.local <= BUTTONS && Global(d.bank, e.local) == g
  }

  function LastChange(d: Deck, events: seq<Event>, g: int): Change {
    if events == [] then Untouched
    else
      var n := |events| - 1;
      var before := Run(d, events[..n]);
      if CapturesFor(before, events[n], g) then Put(before.pollers[events[n].p].task.preset)
      else if Unassigns(before, events[n], g) then Removed
      else LastChange(d, events[..n], g)
  }

  /** One event: a capture puts its preset at its button, unassigning takes away the entry of the button
      that was clicked, and nothing else touches an entry. */
  lemma StepEntry(d: Deck, e: Event, g: int)
    ensures CapturesFor(d, e, g) ==>
              g in Step(d, e).assignments && Step(d, e).assignments[g] == Entry(d.pollers[e.p].task.preset, g)
    ensures Unassigns(d, e, g) ==> g !in Step(d, e).assignments
    ensures !CapturesFor(d, e, g) && !Unassigns(d, e, g) ==>
              (g in Step(d, e).assignments <==> g in d.assignments) &&
              (g in d.assignments ==> Step(d, e).assignments[g] == d.assignments[g])
  {
  }

  /** After any interleaving a button holds an entry exactly when the last that happened to it was a capture,
      or it was loaded with one and nothing happened to it; and that is the entry it holds. */
  lemma {:induction false} EntryAfterRun(d: Deck, events: seq<Event>, g: int)
    ensures var after, change := Run(d, events).assignments, LastChange(d, events, g);
            (g in after <==> change.Put? || (change.Untouched? && g in d.assignments)) &&
            (g in after ==> after[g] == if change.Put? then Entry(change.preset, g) else d.assignments[g])
  {
    hide Step, CapturesFor, Unassigns;
    if events != [] {
      var n := |events| - 1;
      EntryAfterRun(d, events[..n], g);
      CapturesForPoller(Run(d, events[..n]), events[n], g);
      StepEntry(Run(d, events[..n]), events[n], g);
    }
  }

  lemma CapturesForPoller(d: Deck, e: Event, g: int)
    ensures CapturesFor(d, e, g) ==> e.ThumbnailSaved? && e.p < |d.pollers| && d.pollers[e.p].task.Capturing?
    ensures !(CapturesFor(d, e, g) && Unassigns(d, e, g))
  {
  }

  /** Three changes of the bank, or two of the mode, lead back to the same deck with the same faces; in between
      there is another bank, or every button shows its command. */
  lemma AroundTheBanks(d: Deck)
    requires Wellformed(d) && d.presetMode
    ensures Step(Step(Step(d, NextBank), NextBank), NextBank) == d && Step(d, NextBank).bank != d.bank
    ensures var commands := Step(d, ToggleMode);
            Step(commands, ToggleMode) == d && !commands.presetMode &&
            forall i :: 1 <= i <= 15 ==> i in commands.faces && commands.faces[i] == CommandCaption(i)
  {
    assert RedrawAll(d).faces == d.faces;
  }

  // ----- Which requests survive -----

  predicate Requested(d: Deck, e: Event, g: int) {
    e.Assign? && d.presetMode && 1 <= e.local <= BUTTONS && Global(d.bank, e.local) == g
  }

  /** The event neither requests button g again nor lets poller p time out or fail. */
  predicate Calm(d: Deck, e: Event, g: int, p: nat) {
    !Requested(d, e, g) && e != TimedOut(p) && e != ThumbnailFailed(p)
  }

  /** An interleaving of calm events only; everything else, other pollers included, is free. */
  predicate Undisturbed(d: Deck, events: seq<Event>, g: int, p: nat) {
    events != [] ==>
      var n := |events| - 1;
      Undisturbed(d, events[..n], g, p) && Calm(Run(d, events[..n]), events[n], g, p)
  }

  predicate Assigned(d: Deck, g: int, preset: Preset) {
    g in d.assignments && d.assignments[g] == Entry(preset, g)
  }

  /** In the course of the run, the capture of poller p ended and put the preset at button g. */
  predicate Served(d: Deck, events: seq<Event>, p: nat, g: int, preset: Preset) {
    events != [] &&
    var n := |events| - 1;
    (Served(d, events[..n], p, g, preset) ||
     (events[n] == ThumbnailSaved(p) && CapturingAt(Run(d, events[..n]), p) && Assigned(Run(d, events), g, preset)))
  }

  predicate EndedAt(d: Deck, p: nat) { p < |d.pollers| && d.pollers[p].task == Ended }

  /** No background task still works for button g. */
  predicate NoneLive(d: Deck, g: int) {
    forall q :: 0 <= q < |d.pollers| && d.pollers[q].g == g ==> d.pollers[q].task == Ended
  }

  /** Poller p is at work for the preset pending at button g, and no other poller is for that button. */
  predicate SoleAlive(d: Deck, p: nat, g: int, preset: Preset) {
    && p < |d.pollers| && d.pollers[p].g == g && d.pollers[p].task != Ended
    && (d.pollers[p].task.Capturing? ==> d.pollers[p].task.preset == preset)
    && g in d.pending && d.pending[g] == preset
    && (forall q :: 0 <= q < |d.pollers| && q != p && d.pollers[q].g == g ==> d.pollers[q].task == Ended)
  }

  /** Nothing is pending for the button any more, and poller p has not begun its capture. */
  predicate Lost(d: Deck, p: nat, g: int) {
    p < |d.pollers| && d.pollers[p].g == g && !d.pollers[p].task.Capturing? && g !in d.pending
  }

  lemma SurvivalStep(d: Deck, e: Event, p: nat, g: int, preset: Preset)
    requires SoleAlive(d, p, g, preset) && Calm(d, e, g, p)
    ensures SoleAlive(Step(d, e), p, g, preset) ||
            (e == ThumbnailSaved(p) && CapturingAt(d, p) && Assigned(Step(d, e), g, preset))
  {
  }

  lemma LostStep(d: Deck, e: Event, p: nat, g: int)
    requires Lost(d, p, g) && Calm(d, e, g, p)
    ensures Lost(Step(d, e), p, g) && !(e == ThumbnailSaved(p) && CapturingAt(d, p))
  {
  }

  lemma {:induction false} Survives(d: Deck, events: seq<Event>, p: nat, g: int, preset: Preset)
    requires SoleAlive(d, p, g, preset) && Undisturbed(d, events, g, p)
    ensures SoleAlive(Run(d, events), p, g, preset) || Served(d, events, p, g, preset)
  {
    hide Step, SoleAlive, Calm, Assigned, CapturingAt;
    if events != [] {
      var n := |events| - 1;
      Survives(d, events[..n], p, g, preset);
      if !Served(d, events[..n], p, g, preset) { SurvivalStep(Run(d, events[..n]), events[n], p, g, preset); }
    }
  }

  /** Once a request is lost, no interleaving ever serves it. */
  lemma {:induction false} LostForever(d: Deck, events: seq<Event>, p: nat, g: int, preset: Preset)
    requires Lost(d, p, g) && Undisturbed(d, events, g, p)
    ensures Lost(Run(d, events), p, g) && !Served(d, events, p, g, preset)
  {
    hide Step, Lost, Calm, Assigned, CapturingAt;
    if events != [] {
      var n := |events| - 1;
      LostForever(d, events[..n], p, g, preset);
      LostStep(Run(d, events[..n]), events[n], p, g);
    }
  }

  /** Two more events of a run. */
  lemma TwoMore(d: Deck, events: seq<Event>, a: Event, b: Event, p: nat, g: int)
    ensures Run(d, events + [a, b]) == Step(Step(Run(d, events), a), b)
    ensures Undisturbed(d, events + [a, b], g, p) <==>
            Undisturbed(d, events, g, p) && Calm(Run(d, events), a, g, p) && Calm(Step(Run(d, events), a), b, g, p)
    ensures forall preset :: Served(d, events + [a, b], p, g, preset) ==>
              Served(d, events, p, g, preset) || a == ThumbnailSaved(p) || b == ThumbnailSaved(p)
  {
    hide Step, Calm, Assigned, CapturingAt;
    var one := events + [a];
    assert one[..|events|] == events;
    assert events + [a, b] == one + [b] && (one + [b])[..|one|] == one;
  }

  /** A live poller of the same button takes the request away: it times out or fails. */
  lemma RivalDrops(d: Deck, q: nat, p: nat, g: int) returns (a: Event, b: Event)
    requires q < |d.pollers| && d.pollers[q].g == g && d.pollers[q].task != Ended && q != p
    requires p < |d.pollers| && d.pollers[p] == Poller(g, Starting) && g in d.pending
    ensures Calm(d, a, g, p) && Calm(Step(d, a), b, g, p) && a != ThumbnailSaved(p) && b != ThumbnailSaved(p)
    ensures Lost(Step(Step(d, a), b), p, g)
  {
    a, b := PollBegins(q), if d.pollers[q].task.Capturing? then ThumbnailFailed(q) else TimedOut(q);
  }

  /** With such a rival, the poller of the new request may come to its end without its capture. */
  lemma RivalWins(d: Deck, q: nat, p: nat, g: int, preset: Preset) returns (events: seq<Event>)
    requires q < |d.pollers| && d.pollers[q].g == g && d.pollers[q].task != Ended && q != p
    requires p < |d.pollers| && d.pollers[p] == Poller(g, Starting) && g in d.pending
    ensures Undisturbed(d, events, g, p) && EndedAt(Run(d, events), p) && !Served(d, events, p, g, preset)
  {
    hide *;
    var a, b := RivalDrops(d, q, p, g);
    var dropped := [] + [a, b];
    events := dropped + [PollBegins(p), CaptureFound(p)];
    NothingServed(d, p, g, preset);
    TwoMore(d, [], a, b, p, g);
    TwoMore(d, dropped, PollBegins(p), CaptureFound(p), p, g);
    LostEnds(Run(d, dropped), p, g);
    OwnStepsCalm(Run(d, dropped), g, p);
    OwnStepsCalm(Step(Run(d, dropped), PollBegins(p)), g, p);
  }

  /** A lost request's poller finds nothing pending and ends. */
  lemma LostEnds(d: Deck, p: nat, g: int)
    requires Lost(d, p, g)
    ensures EndedAt(Step(Step(d, PollBegins(p)), CaptureFound(p)), p)
  {
  }

  /** A request survives exactly when, as it is made, no other poller still works for its button: then,
      and only then, every interleaving in which its poller comes to an end, without time-out or failure of
      its own and without a further request for the button, has put its preset there. */
  lemma RequestServedIff(d: Deck, local: int, preset: Preset)
    requires d.presetMode && 1 <= local <= BUTTONS
    ensures var g, p := Global(d.bank, local), |d.pollers|;
            var asked := Step(d, Assign(local, preset));
            NoneLive(d, g) <==>
            forall events :: Undisturbed(asked, events, g, p) && EndedAt(Run(asked, events), p) ==>
              Served(asked, events, p, g, preset)
  {
    var g, p := Global(d.bank, local), |d.pollers|;
    var asked := Step(d, Assign(local, preset));
    assert NoneLive(d, g) ==> SoleAlive(asked, p, g, preset);
    if NoneLive(d, g) {
      hide Step, SoleAlive, Served, Undisturbed;
      forall events | Undisturbed(asked, events, g, p) && EndedAt(Run(asked, events), p)
        ensures Served(asked, events, p, g, preset)
      {
        Survives(asked, events, p, g, preset);
        AliveNotEnded(Run(asked, events), p, g, preset);
      }
    } else {
      var q :| 0 <= q < |d.pollers| && d.pollers[q].g == g && d.pollers[q].task != Ended;
      assert asked.pollers[q] == d.pollers[q];
      hide Step, Served, Undisturbed, NoneLive;
      var events := RivalWins(asked, q, p, g, preset);
    }
  }

  /** And where another poller still works for the button, two of its steps are enough: from then on the
      request is lost for good. */
  lemma RivalLosesRequest(d: Deck, local: int, preset: Preset) returns (a: Event, b: Event)
    requires d.presetMode && 1 <= local <= BUTTONS && !NoneLive(d, Global(d.bank, local))
    ensures var g, p := Global(d.bank, local), |d.pollers|;
            var asked := Step(d, Assign(local, preset));
            Undisturbed(asked, [a, b], g, p) && !Served(asked, [a, b], p, g, preset) &&
            forall events :: Undisturbed(Run(asked, [a, b]), events, g, p) ==>
              !Served(Run(asked, [a, b]), events, p, g, preset)
  {
    var g, p := Global(d.bank, local), |d.pollers|;
    var asked := Step(d, Assign(local, preset));
    var q :| 0 <= q < |d.pollers| && d.pollers[q].g == g && d.pollers[q].task != Ended;
    assert asked.pollers[q] == d.pollers[q];
    hide *;
    a, b := RivalDrops(asked, q, p, g);
    NothingServed(asked, p, g, preset);
    TwoMore(asked, [], a, b, p, g);
    assert [] + [a, b] == [a, b];
    forall events | Undisturbed(Run(asked, [a, b]), events, g, p)
      ensures !Served(Run(asked, [a, b]), events, p, g, preset)
    {
      LostForever(Run(asked, [a, b]), events, p, g, preset);
    }
  }

  lemma AliveNotEnded(d: Deck, p: nat, g: int, preset: Preset)
    ensures SoleAlive(d, p, g, preset) ==> !EndedAt(d, p)
  {
  }

  /** Such a request can always be completed: after any calm interleaving it has been, or the poller's own
      steps alone, as far as they are still ahead, do it. */
  lemma CaptureCompletes(d: Deck, local: int, preset: Preset, events: seq<Event>)
    requires d.presetMode && 1 <= local <= BUTTONS && NoneLive(d, Global(d.bank, local))
    requires Undisturbed(Step(d, Assign(local, preset)), events, Global(d.bank, local), |d.pollers|)
    ensures var g, p := Global(d.bank, local), |d.pollers|;
            var asked := Step(d, Assign(local, preset));
            Served(asked, events, p, g, preset) ||
            Assigned(Step(Step(Step(Run(asked, events), PollBegins(p)), CaptureFound(p)), ThumbnailSaved(p)), g, preset)
  {
    var g, p := Global(d.bank, local), |d.pollers|;
    var asked := Step(d, Assign(local, preset));
    assert SoleAlive(asked, p, g, preset);
    Survives(asked, events, p, g, preset);
    if SoleAlive(Run(asked, events), p, g, preset) { OwnSteps(Run(asked, events), p, g, preset); }
  }

  lemma OwnSteps(d: Deck, p: nat, g: int, preset: Preset)
    requires SoleAlive(d, p, g, preset)
    ensures Assigned(Step(Step(Step(d, PollBegins(p)), CaptureFound(p)), ThumbnailSaved(p)), g, preset)
  {
    hide Step, SoleAlive;
    var a := Step(d, PollBegins(p));
    BeginsPolling(d, p, g, preset);
    FindsCapture(a, p, g, preset);
    SavesThumbnail(Step(a, CaptureFound(p)), p, g, preset);
  }

  lemma BeginsPolling(d: Deck, p: nat, g: int, preset: Preset)
    requires SoleAlive(d, p, g, preset)
    ensures SoleAlive(Step(d, PollBegins(p)), p, g, preset) && Step(d, PollBegins(p)).pollers[p].task != Starting
  {
  }

  lemma FindsCapture(d: Deck, p: nat, g: int, preset: Preset)
    requires SoleAlive(d, p, g, preset) && d.pollers[p].task != Starting
    ensures var found := Step(d, CaptureFound(p));
            p < |found.pollers| && found.pollers[p] == Poller(g, Capturing(preset))
  {
  }

  lemma SavesThumbnail(d: Deck, p: nat, g: int, preset: Preset)
    requires p < |d.pollers| && d.pollers[p] == Poller(g, Capturing(preset))
    ensures Assigned(Step(d, ThumbnailSaved(p)), g, preset)
  {
  }

  lemma NothingServed(d: Deck, p: nat, g: int, preset: Preset)
    ensures Undisturbed(d, [], g, p) && !Served(d, [], p, g, preset) && Run(d, []) == d
  {
  }

  lemma OwnStepsCalm(d: Deck, g: int, p: nat)
    ensures Calm(d, PollBegins(p), g, p) && Calm(d, CaptureFound(p), g, p) && Calm(d, ThumbnailSaved(p), g, p)
  {
  }

  /** The pending table is per button, not per request: the time-out of an earlier request
      discards a later one for the same button, whose screenshot then goes unused. */
  lemma EarlierTimeoutDropsLaterRequest(d: Deck, a: Preset, b: Preset)
    requires Wellformed(d) && d.presetMode && d.pollers == [] && d.pending == map[]
    ensures var events := [Assign(1, a), PollBegins(0), Assign(1, b), PollBegins(1),
                           TimedOut(0), CaptureFound(1), ThumbnailSaved(1)];
            Run(d, events).assignments == d.assignments && Run(d, events).pending == map[]
  {
    var g := Global(d.bank, 1);
    var s2 := d.(pending := d.pending[g := a], pollers := d.pollers + [Poller(g, Polling)]);
    var s4 := s2.(pending := s2.pending[g := b], pollers := s2.pollers + [Poller(g, Polling)]);
    var s6 := s4.(pending := map[], pollers := [Poller(g, Ended), Poller(g, Ended)]);
    hide *;
    AssignAndPoll(d, a);
    AssignAndPoll(s2, b);
    assert s4.pollers == [Poller(g, Polling), Poller(g, Polling)] && s4.pending.Keys == {g};
    DropSecond(s4, g);
    EndedStays(s6, 1);
    RunSeven(d, Assign(1, a), PollBegins(0), Assign(1, b), PollBegins(1), TimedOut(0), CaptureFound(1),
      ThumbnailSaved(1));
  }

  lemma EndedStays(d: Deck, p: nat)
    requires p < |d.pollers| && d.pollers[p].task == Ended
    ensures Step(d, ThumbnailSaved(p)) == d
  {
  }

  lemma DropSecond(d: Deck, g: int)
    requires d.pollers == [Poller(g, Polling), Poller(g, Polling)] && d.pending.Keys == {g}
    ensures Step(Step(d, TimedOut(0)), CaptureFound(1))
         == d.(pending := map[], pollers := [Poller(g, Ended), Poller(g, Ended)])
  {
    assert Step(d, TimedOut(0)).pending == map[];
  }

  lemma AssignAndPoll(d: Deck, preset: Preset)
    requires d.presetMode
    ensures var n := |d.pollers|;
            var g := Global(d.bank, 1);
            Step(Step(d, Assign(1, preset)), PollBegins(n))
            == d.(pending := d.pending[g := preset], pollers := d.pollers + [Poller(g, Polling)])
  {
  }

  lemma RunSeven(d: Deck, a: Event, b: Event, c: Event, e: Event, f: Event, g: Event, h: Event)
    ensures Run(d, [a, b, c, e, f, g, h]) == Step(Step(Step(Step(Step(Step(Step(d, a), b), c), e), f), g), h)
  {
    hide Step;
    var r0: seq<Event> := [];
    var r1, r2, r3 := r0 + [a], r0 + [a] + [b], r0 + [a] + [b] + [c];
    var r4, r5, r6 := r3 + [e], r3 + [e] + [f], r3 + [e] + [f] + [g];
    RunLast(d, r0, a);
    RunLast(d, r1, b);
    RunLast(d, r2, c);
    RunLast(d, r3, e);
    RunLast(d, r4, f);
    RunLast(d, r5, g);
    RunLast(d, r6, h);
    assert Run(d, r0) == d;
    assert r6 + [h] == [a, b, c, e, f, g, h];
  }

  lemma RunLast(d: Deck, events: seq<Event>, e: Event)
    ensures Run(d, events + [e]) == Step(Run(d, events), e)
  {
    hide Step;
    assert (events + [e])[..|events|] == events;
  }

  /** A screenshot that is still locked is tried again: the next attempt takes up the preset that is pending
      by then, and when the time is over first, the request is given up and the deck stays as it was. */
  lemma LockedTriesAgain(d: Deck, p: nat)
    requires CapturingAt(d, p)
    ensures var g := d.pollers[p].g;
            var locked := Step(d, CaptureLocked(p));
            var again, late := Step(locked, CaptureFound(p)), Step(locked, TimedOut(p));
            again.pollers[p] == Poller(g, if g in d.pending then Capturing(d.pending[g]) else Ended) &&
            again.pending == d.pending && again.assignments == d.assignments &&
            late.pollers[p] == Poller(g, Ended) && late.pending == d.pending - {g} &&
            late.assignments == d.assignments
  {
  }

  /** A capture that ends after the panel went back to command mode draws over a command button. */
  lemma CaptureDrawsOverCommandButton(d: Deck, p: nat)
    requires Wellformed(d) && !d.presetMode && p < |d.pollers| && d.pollers[p].task.Capturing?
    ensures var g := d.pollers[p].g;
            var after := Step(d, ThumbnailSaved(p));
            !after.presetMode &&
            (BankOf(g) == d.bank ==>
               LocalOf(g) in after.faces && after.faces[LocalOf(g)] == Picture(Entry(d.pollers[p].task.preset, g))) &&
            (BankOf(g) != d.bank ==> after.faces == d.faces)
  {
    BankBijection(d.bank, 1, d.pollers[p].g);
  }

  /** The local buttons of the current bank at which a capture ended since the mode was last changed. */
  function DrawnOver(d: Deck, events: seq<Event>): set<int> {
    if events == [] then {}
    else
      var n := |events| - 1;
      if events[n].ToggleMode? then {} else DrawnOver(d, events[..n]) + DrawnBy(Run(d, events[..n]), events[n])
  }

  function DrawnBy(d: Deck, e: Event): set<int> {
    if e.ThumbnailSaved? && CapturingAt(d, e.p) && BankOf(d.pollers[e.p].g) == d.bank then {LocalOf(d.pollers[e.p].g)}
    else {}
  }

  /** In command mode every button outside the set shows its own command. */
  predicate CommandsShown(d: Deck, drawnOver: set<int>) {
    !d.presetMode ==>
      forall i :: 1 <= i <= BUTTONS && i !in drawnOver ==> i in d.faces && d.faces[i] == CommandCaption(i)
  }

  lemma CommandsStep(d: Deck, e: Event, drawnOver: set<int>)
    requires CommandsShown(d, drawnOver)
    ensures CommandsShown(Step(d, e), if e.ToggleMode? then {} else drawnOver + DrawnBy(d, e))
  {
  }

  /** On every run, the command buttons differ from the configured ones only where a capture drew over them. */
  lemma {:induction false} CommandFaces(d0: Deck, events: seq<Event>)
    requires CommandsShown(d0, {})
    ensures CommandsShown(Run(d0, events), DrawnOver(d0, events))
  {
    hide Step, CommandsShown, DrawnBy;
    if events != [] {
      var n := |events| - 1;
      CommandFaces(d0, events[..n]);
      CommandsStep(Run(d0, events[..n]), events[n], DrawnOver(d0, events[..n]));
    }
  }

  // ----- The form -----

  /** The fields the user's handlers and the marshalled ends of the background tasks update. */
  class DeckForm {
    var currentPresetBank: int
    var isPresetMode: bool
    var assignments: map<int, Entry>
    var pendingThumbnailAssignments: map<int, Preset>
    var pollers: seq<Poller>
    var faces: map<int, Face>

    function State(): Deck
      reads this
    {
      Deck(currentPresetBank, isPresetMode, assignments, pendingThumbnailAssignments, pollers, faces)
    }

    constructor (loaded: map<int, Entry>)
      ensures Wellformed(State()) && isPresetMode && currentPresetBank == 1
      ensures assignments == loaded && pendingThumbnailAssignments == map[] && pollers == []
    {
      currentPresetBank, isPresetMode := 1, true;
      assignments, pendingThumbnailAssignments, pollers := loaded, map[], [];
      faces := map i | 1 <= i <= BUTTONS :: FaceOf(loaded, Global(1, i));
    }

    method UpdatePresetDeckButtonAppearance(local: int)
      requires 1 <= local <= BUTTONS
      modifies this`faces
      ensures State() == Redraw(old(State()), local)
    {
      var globalIndex := Global(currentPresetBank, local);
      if globalIndex in assignments {
        faces := faces[local := Picture(assignments[globalIndex])];
      } else {
        faces := faces[local := Number(globalIndex)];
      }
    }

    method AssignCurrentPreset(local: int, running: Preset)
      requires isPresetMode && 1 <= local <= BUTTONS
      modifies this`pendingThumbnailAssignments, this`pollers
      ensures State() == Step(old(State()), Assign(local, running))
      ensures pendingThumbnailAssignments ==
                old(pendingThumbnailAssignments)[local + (currentPresetBank - 1) * 15 := running]
      ensures pollers == old(pollers) + [Poller(local + (currentPresetBank - 1) * 15, Starting)]
    {
      var buttonIndex := Global(currentPresetBank, local);
      pendingThumbnailAssignments := pendingThumbnailAssignments[buttonIndex := running];
      pollers := pollers + [Poller(buttonIndex, Starting)];
    }

    method UnassignPreset(local: int)
      requires isPresetMode && 1 <= local <= BUTTONS && 1 <= currentPresetBank <= BANKS
      modifies this`assignments, this`faces
      ensures State() == Step(old(State()), Unassign(local))
      ensures assignments == old(assignments) - {local + (currentPresetBank - 1) * 15}
      ensures faces == if local + (currentPresetBank - 1) * 15 in old(assignments)
                       then old(faces)[local := Number(local + (currentPresetBank - 1) * 15)] else old(faces)
    {
      var buttonIndex := Global(currentPresetBank, local);
      if buttonIndex !in assignments { return; }
      assignments := assignments - {buttonIndex};
      BankBijection(currentPresetBank, local, buttonIndex);
      if BankOf(buttonIndex) == currentPresetBank {
        UpdatePresetDeckButtonAppearance(LocalOf(buttonIndex));
      }
    }

    /** The next bank; every button is redrawn in turn. */
    method CycleBank()
      requires Wellformed(State()) && isPresetMode
      modifies this`currentPresetBank, this`faces
      ensures State() == Step(old(State()), NextBank)
    {
      currentPresetBank := currentPresetBank % BANKS + 1;
      ghost var bank := currentPresetBank;
      for i := 1 to BUTTONS + 1
        invariant currentPresetBank == bank
        invariant forall k :: k in faces <==> 1 <= k <= BUTTONS
        invariant forall k :: 1 <= k < i ==> faces[k] == FaceOf(assignments, Global(bank, k))
      {
        UpdatePresetDeckButtonAppearance(i);
      }
      assert faces == RedrawAll(State()).faces;
    }

    /** The end of a successful capture, back on the UI thread. */
    method CompleteAssignment(p: nat)
      requires Wellformed(State()) && p < |pollers| && pollers[p].task.Capturing?
      modifies this`assignments, this`pendingThumbnailAssignments, this`pollers, this`faces
      ensures State() == Step(old(State()), ThumbnailSaved(p))
      ensures var g := pollers[p].g;
              assignments == old(assignments)[g := Entry(old(pollers)[p].task.preset, g)] &&
              pendingThumbnailAssignments == old(pendingThumbnailAssignments) - {g} && pollers[p] == Poller(g, Ended)
    {
      var buttonIndex := pollers[p].g;
      assignments := assignments[buttonIndex := Entry(pollers[p].task.preset, buttonIndex)];
      pendingThumbnailAssignments := pendingThumbnailAssignments - {buttonIndex};
      pollers := pollers[p := pollers[p].(task := Ended)];
      BankBijection(currentPresetBank, 1, buttonIndex);
      if BankOf(buttonIndex) == currentPresetBank {
        UpdatePresetDeckButtonAppearance(LocalOf(buttonIndex));
      }
    }
  }
}
