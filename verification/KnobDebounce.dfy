/** The debounced knob actions: every knob event cancels the controller's waiting action and
    schedules a new one; the delays expire in any order and queue their actions on the UI thread. */
module KnobDebounce {
  import opened Selections

  datatype Row = Row(active: bool, channel: int, controller: int, value: int)
  datatype Note = Note(channel: int, controller: int, value: int)

  /** The life of one scheduled action. */
  datatype Phase = Waiting | Cancelled | Queued | Done

  /** A scheduled action: the row and the knob value it will use. */
  datatype Action = Action(row: Row, value: int, phase: Phase)

  /** actions: every action ever scheduled, in that order; delays: KnobActionDelays;
      ui: actions whose delay ran out, waiting for the UI thread; ran: actions carried out. */
  datatype State = State(actions: seq<Action>, delays: map<int, nat>, ui: seq<nat>, ran: seq<nat>)

  const INITIAL := State([], map[], [], [])

  function SetPhase(s: State, id: nat, phase: Phase): State
    requires id < |s.actions|
  {
    s.(actions := s.actions[id := s.actions[id].(phase := phase)])
  }

  /** Cancelling a token has no effect once the delay has run out. */
  function Cancel(s: State, controller: int): State {
    if controller in s.delays && s.delays[controller] < |s.actions| && s.actions[s.delays[controller]].phase == Waiting
    then SetPhase(s, s.delays[controller], Cancelled) else s
  }

  function Schedule(s: State, row: Row, value: int): State {
    var c := Cancel(s, row.controller);
    c.(actions := c.actions + [Action(row, value, Waiting)], delays := c.delays[row.controller := |c.actions|])
  }

  predicate Matches(row: Row, note: Note) {
    row.active && row.channel == note.channel && row.controller == note.controller && row.controller != 0
  }

  /** A knob message outside learning mode: each matching row schedules, in row order. */
  function Receive(s: State, rows: seq<Row>, note: Note): State
    decreases |rows|
  {
    if rows == [] then s
    else Receive(if Matches(rows[0], note) then Schedule(s, rows[0], note.value) else s, rows[1..], note)
  }

  datatype Event =
    | Message(rows: seq<Row>, note: Note)
    | Expire(id: nat)
    | RunNext

  function Step(s: State, e: Event): State {
    match e
    case Message(rows, note) => Receive(s, rows, note)
    case Expire(id) =>
      if id < |s.actions| && s.actions[id].phase == Waiting then SetPhase(s, id, Queued).(ui := s.ui + [id]) else s
    case RunNext =>
      if s.ui != [] && s.ui[0] < |s.actions| then
        SetPhase(s, s.ui[0], Done).(ui := s.ui[1..], ran := s.ran + [s.ui[0]])
      else s
  }

  function Run(s: State, events: seq<Event>): State {
    if events == [] then s else Step(Run(s, events[..|events| - 1]), events[|events| - 1])
  }

  // ----- The invariant of every interleaving -----

  function Controller(s: State, id: nat): int
    requires id < |s.actions|
  {
    s.actions[id].row.controller
  }

  /** Everything carried out or about to be, in that order. */
  function Pipeline(s: State): seq<nat> {
    s.ran + s.ui
  }

  ghost predicate Tracked(s: State) {
    && (forall i :: 0 <= i < |s.ran| ==> s.ran[i] < |s.actions| && s.actions[s.ran[i]].phase == Done)
    && (forall i :: 0 <= i < |s.ui| ==> s.ui[i] < |s.actions| && s.actions[s.ui[i]].phase == Queued)
    && (forall id :: 0 <= id < |s.actions| && s.actions[id].phase == Done ==> id in s.ran)
    && (forall id :: 0 <= id < |s.actions| && s.actions[id].phase == Queued ==> id in s.ui)
  }

  /** Actions of one controller pass the pipeline in the order they were scheduled. */
  ghost predicate Ordered(s: State)
    requires Tracked(s)
  {
    forall i, j :: 0 <= i < j < |Pipeline(s)| && Controller(s, Pipeline(s)[i]) == Controller(s, Pipeline(s)[j])
      ==> Pipeline(s)[i] < Pipeline(s)[j]
  }

  /** KnobActionDelays names each controller's latest action, which alone may be waiting and is never cancelled. */
  ghost predicate LatestKnown(s: State) {
    && (forall c :: c in s.delays ==> s.delays[c] < |s.actions| && Controller(s, s.delays[c]) == c
                                      && s.actions[s.delays[c]].phase != Cancelled)
    && (forall id :: 0 <= id < |s.actions| ==>
          && Controller(s, id) in s.delays
          && id <= s.delays[Controller(s, id)]
          && (s.actions[id].phase == Waiting ==> id == s.delays[Controller(s, id)]))
  }

  ghost predicate Inv(s: State) {
    Tracked(s) && Ordered(s) && LatestKnown(s)
  }

  predicate SameRows(a: State, b: State) {
    |a.actions| == |b.actions| && forall id :: 0 <= id < |a.actions| ==> a.actions[id].row == b.actions[id].row
  }

  lemma CancelKeeps(s: State, c: int)
    requires Inv(s)
    ensures Tracked(Cancel(s, c)) && Ordered(Cancel(s, c)) && |Cancel(s, c).actions| == |s.actions|
    ensures forall id :: 0 <= id < |s.actions| && Controller(s, id) == c ==> Cancel(s, c).actions[id].phase != Waiting
    ensures forall id :: 0 <= id < |s.actions| ==> Cancel(s, c).actions[id].row == s.actions[id].row
    ensures forall id :: 0 <= id < |s.actions| && Controller(s, id) != c ==> Cancel(s, c).actions[id] == s.actions[id]
    ensures Cancel(s, c).delays == s.delays && Cancel(s, c).ui == s.ui && Cancel(s, c).ran == s.ran
  {
    var t := Cancel(s, c);
    assert Tracked(t) && Pipeline(t) == Pipeline(s) && SameRows(s, t);
    hide Cancel, Ordered, Pipeline, Tracked;
    OrderedSame(s, t);
  }

  lemma ScheduleKeeps(s: State, row: Row, value: int)
    requires Inv(s)
    ensures Inv(Schedule(s, row, value))
  {
    CancelKeeps(s, row.controller);
    var c, t := Cancel(s, row.controller), Schedule(s, row, value);
    assert Tracked(t);
    assert Pipeline(t) == Pipeline(s);
    assert Ordered(t) by {
      assert forall i :: 0 <= i < |Pipeline(s)| ==> Pipeline(s)[i] < |s.actions|;
    }
    assert LatestKnown(t);
  }

  lemma {:induction false} ReceiveKeeps(s: State, rows: seq<Row>, note: Note)
    requires Inv(s)
    ensures Inv(Receive(s, rows, note))
    decreases |rows|
  {
    if rows != [] {
      if Matches(rows[0], note) { ScheduleKeeps(s, rows[0], note.value); }
      ReceiveKeeps(if Matches(rows[0], note) then Schedule(s, rows[0], note.value) else s, rows[1..], note);
    }
  }

  lemma OrderedSame(s: State, t: State)
    requires Tracked(s) && Ordered(s) && Tracked(t) && SameRows(s, t) && Pipeline(t) == Pipeline(s)
    ensures Ordered(t)
  {
    assert forall i :: 0 <= i < |Pipeline(s)| ==> Pipeline(s)[i] < |s.actions|;
  }

  lemma ExpireTracked(s: State, id: nat)
    requires Inv(s) && id < |s.actions| && s.actions[id].phase == Waiting
    ensures Tracked(Step(s, Expire(id)))
  {
    var t := Step(s, Expire(id));
    assert id !in s.ran && id !in s.ui;
    forall q | 0 <= q < |t.actions| && t.actions[q].phase == Queued ensures q in t.ui {
      if q == id { assert t.ui[|s.ui|] == id; } else { assert s.actions[q].phase == Queued; }
    }
  }

  lemma ExpireOrdered(s: State, id: nat)
    requires Inv(s) && id < |s.actions| && s.actions[id].phase == Waiting
    requires Tracked(Step(s, Expire(id)))
    ensures Ordered(Step(s, Expire(id)))
  {
    var t := Step(s, Expire(id));
    var p := Pipeline(s);
    assert Pipeline(t) == p + [id];
    assert forall i :: 0 <= i < |p| ==> p[i] < |s.actions| && s.actions[p[i]].phase != Waiting;
    assert SameRows(s, t);
    forall i | 0 <= i < |p| && Controller(s, p[i]) == Controller(s, id) ensures p[i] < id {
      assert p[i] <= s.delays[Controller(s, id)];
    }
    hide Pipeline;
    forall i, j | 0 <= i < j < |Pipeline(t)| && Controller(t, Pipeline(t)[i]) == Controller(t, Pipeline(t)[j])
      ensures Pipeline(t)[i] < Pipeline(t)[j]
    {
      assert Pipeline(t)[i] == p[i];
      assert j < |p| ==> Pipeline(t)[j] == p[j];
    }
  }

  lemma ExpireKeeps(s: State, id: nat)
    requires Inv(s)
    ensures Inv(Step(s, Expire(id))) && SameRows(s, Step(s, Expire(id)))
  {
    if id < |s.actions| && s.actions[id].phase == Waiting {
      ExpireTracked(s, id);
      ExpireOrdered(s, id);
      hide Tracked, Ordered;
      assert LatestKnown(Step(s, Expire(id)));
    }
  }

  lemma QueueDistinct(s: State, i: nat, j: nat)
    requires Inv(s) && i < j < |s.ui|
    ensures s.ui[i] != s.ui[j]
  {
    assert Pipeline(s)[|s.ran| + i] == s.ui[i] && Pipeline(s)[|s.ran| + j] == s.ui[j];
  }

  lemma RunNextTracked(s: State)
    requires Inv(s) && s.ui != []
    ensures Tracked(Step(s, RunNext))
  {
    var id, t := s.ui[0], Step(s, RunNext);
    assert id in s.ui;
    forall j | 0 <= j < |t.ui| ensures t.ui[j] == s.ui[j + 1] && t.ui[j] != id { QueueDistinct(s, 0, j + 1); }
    forall q | 0 <= q < |t.actions| && t.actions[q].phase == Done ensures q in t.ran {
      if q == id { assert t.ran[|s.ran|] == id; }
    }
    forall q | 0 <= q < |t.actions| && t.actions[q].phase == Queued ensures q in t.ui {
      var j :| 0 <= j < |s.ui| && s.ui[j] == q;
      assert t.ui[j - 1] == q;
    }
  }

  lemma PipelineKept(s: State)
    requires s.ui != []
    ensures Pipeline(Step(s, RunNext)) == Pipeline(s)
  {
    assert s.ui == [s.ui[0]] + s.ui[1..];
  }

  lemma RunNextKeeps(s: State)
    requires Inv(s)
    ensures Inv(Step(s, RunNext)) && SameRows(s, Step(s, RunNext))
  {
    var t := Step(s, RunNext);
    if s.ui != [] {
      RunNextTracked(s);
      assert s.ui[0] < |s.actions| && s.actions[s.ui[0]].phase == Queued;
      hide Tracked, Ordered;
      PipelineKept(s);
      OrderedSame(s, t);
      hide Pipeline;
      assert LatestKnown(t);
    }
  }

  // ----- Main results -----

  /** The invariant holds in every interleaving of messages, expiring delays and UI turns. */
  lemma {:induction false} RunKeeps(events: seq<Event>)
    ensures Inv(Run(INITIAL, events))
  {
    if events != [] {
      var n := |events| - 1;
      RunKeeps(events[..n]);
      var s := Run(INITIAL, events[..n]);
      match events[n]
      case Message(rows, note) => ReceiveKeeps(s, rows, note);
      case Expire(id) => ExpireKeeps(s, id);
      case RunNext => RunNextKeeps(s);
    }
  }

  /** At most one action of a controller is still waiting, and it is the controller's latest. */
  lemma OneWaiting(events: seq<Event>, a: nat, b: nat)
    requires var s := Run(INITIAL, events);
             a < |s.actions| && b < |s.actions| && Controller(s, a) == Controller(s, b)
    ensures var s := Run(INITIAL, events);
            s.actions[a].phase == Waiting && s.actions[b].phase == Waiting ==> a == b
    ensures var s := Run(INITIAL, events); s.actions[a].phase == Waiting ==> b <= a
  {
    RunKeeps(events);
  }

  /** Actions of one controller are carried out in the order they were scheduled, even when an
      expired one was still queued as the next was scheduled; none is carried out twice. */
  lemma RunsInOrder(events: seq<Event>, i: nat, j: nat)
    requires i < j < |Run(INITIAL, events).ran|
    requires var s := Run(INITIAL, events); s.ran[i] < |s.actions| && s.ran[j] < |s.actions|
    requires var s := Run(INITIAL, events); Controller(s, s.ran[i]) == Controller(s, s.ran[j])
    ensures Run(INITIAL, events).ran[i] < Run(INITIAL, events).ran[j]
  {
    RunKeeps(events);
    var s := Run(INITIAL, events);
    assert Pipeline(s)[i] == s.ran[i] && Pipeline(s)[j] == s.ran[j];
  }

  /** No delay is running and the UI thread has nothing left to do. */
  predicate Quiet(s: State) {
    s.ui == [] && forall id :: 0 <= id < |s.actions| ==> s.actions[id].phase != Waiting
  }

  /** When everything has settled, the last action scheduled for a controller has been carried
      out, and it was the controller's last to be. */
  lemma LatestNeverLost(events: seq<Event>, id: nat)
    requires var s := Run(INITIAL, events); Quiet(s) && id < |s.actions|
    requires var s := Run(INITIAL, events);
             forall other :: id < other < |s.actions| ==> Controller(s, other) != Controller(s, id)
    ensures var s := Run(INITIAL, events);
            exists i :: 0 <= i < |s.ran| && s.ran[i] == id &&
              forall j :: i < j < |s.ran| && s.ran[j] < |s.actions| ==> Controller(s, s.ran[j]) != Controller(s, id)
  {
    RunKeeps(events);
    var s := Run(INITIAL, events);
    assert s.delays[Controller(s, id)] == id;
    assert s.actions[id].phase == Done;
    var i :| 0 <= i < |s.ran| && s.ran[i] == id;
    forall j | i < j < |s.ran| && s.ran[j] < |s.actions| ensures Controller(s, s.ran[j]) != Controller(s, id) {
      assert Pipeline(s)[i] == id && Pipeline(s)[j] == s.ran[j];
    }
  }

  lemma {:induction false} RunConcat(s: State, a: seq<Event>, b: seq<Event>)
    ensures Run(s, a + b) == Run(Run(s, a), b)
  {
    hide Step;
    if b == [] {
      assert a + b == a;
    } else {
      assert (a + b)[..|a + b| - 1] == a + b[..|b| - 1];
      RunConcat(s, a, b[..|b| - 1]);
    }
  }

  function WaitingIds(s: State): set<nat> {
    set id | 0 <= id < |s.actions| && s.actions[id].phase == Waiting
  }

  lemma HeadInRange(s: State)
    requires Inv(s) && s.ui != []
    ensures s.ui[0] < |s.actions|
  {
  }

  /** While something is waiting or queued, a delay can run out or the UI thread can take its turn. */
  lemma SettleStep(s: State) returns (e: Event)
    requires Inv(s) && !Quiet(s)
    ensures !e.Message? && Inv(Step(s, e)) && SameRows(s, Step(s, e))
    ensures WaitingIds(Step(s, e)) < WaitingIds(s) ||
            (WaitingIds(Step(s, e)) == WaitingIds(s) && |Step(s, e).ui| < |s.ui|)
  {
    hide Tracked, Ordered, LatestKnown;
    if WaitingIds(s) != {} {
      var id :| id in WaitingIds(s);
      e := Expire(id);
      ExpireKeeps(s, id);
      assert WaitingIds(Step(s, e)) == WaitingIds(s) - {id};
    } else {
      e := RunNext;
      RunNextKeeps(s);
      assert forall q :: 0 <= q < |s.actions| && s.actions[q].phase == Waiting ==> q in WaitingIds(s);
      assert s.ui[0] < |s.actions| by { HeadInRange(s); }
      assert WaitingIds(Step(s, e)) == {};
    }
  }

  /** Letting every delay run out and the UI thread catch up settles any reachable state, with no new action. */
  lemma {:induction false} Settles(s: State) returns (events: seq<Event>)
    requires Inv(s)
    ensures Quiet(Run(s, events)) && SameRows(s, Run(s, events))
    ensures forall i :: 0 <= i < |events| ==> !events[i].Message?
    decreases WaitingIds(s), |s.ui|
  {
    hide Inv, Step, WaitingIds, Quiet;
    if Quiet(s) { return []; }
    var e := SettleStep(s);
    var rest := Settles(Step(s, e));
    events := [e] + rest;
    RunConcat(s, [e], rest);
    assert [e][..0] == [] && Run(s, [e]) == Step(s, e);
  }

  /** After any history, the settling steps alone carry out the last action of every controller. */
  lemma LatestEventuallyRuns(events: seq<Event>, id: nat) returns (more: seq<Event>)
    requires var s := Run(INITIAL, events);
             id < |s.actions| &&
             forall other :: id < other < |s.actions| ==> Controller(s, other) != Controller(s, id)
    ensures forall i :: 0 <= i < |more| ==> !more[i].Message?
    ensures id in Run(INITIAL, events + more).ran
  {
    RunKeeps(events);
    more := Settles(Run(INITIAL, events));
    RunConcat(INITIAL, events, more);
    LatestNeverLost(events + more, id);
  }

  /** Two active rows on one channel and controller: the first one's action never gets to run. */
  lemma ShadowedRowCancelled(s: State, first: Row, second: Row, note: Note)
    requires Inv(s) && Matches(first, note) && Matches(second, note)
    ensures var t := Receive(s, [first, second], note);
            |t.actions| == |s.actions| + 2 &&
            t.actions[|s.actions|] == Action(first, note.value, Cancelled) &&
            t.actions[|s.actions| + 1] == Action(second, note.value, Waiting)
  {
    CancelKeeps(s, first.controller);
    var a := Schedule(s, first, note.value);
    assert [first, second][1..] == [second] && [second][1..] == [];
    assert Receive(s, [first, second], note) == Receive(a, [second], note);
    assert Receive(a, [second], note) == Schedule(a, second, note.value);
  }

  /** A knob message schedules one action with its value for each active row of its channel and controller, in
      row order, and none when it is a note. */
  function Turned(rows: seq<Row>, note: Note): seq<Row> {
    Kept(rows, TurnedBy(note))
  }

  function TurnedBy(note: Note): Row -> bool {
    (row: Row) => row.active && row.channel == note.channel && row.controller == note.controller != 0
  }

  /** The rows whose note this is: active, of its channel, and with its number. */
  function Pressed(rows: seq<Row>, note: Note): seq<Row> {
    Kept(rows, (row: Row) =>
      row.active && row.channel == note.channel && row.controller == note.controller == 0 && row.value == note.value)
  }

  /** One state comes from the other by scheduling an action with this value for each of the rows in turn;
      the earlier actions keep row and value. */
  predicate Adds(s: State, t: State, rows: seq<Row>, value: int) {
    && |t.actions| == |s.actions| + |rows|
    && (forall id :: 0 <= id < |s.actions| ==>
          t.actions[id].row == s.actions[id].row && t.actions[id].value == s.actions[id].value)
    && (forall id :: |s.actions| <= id < |t.actions| ==>
          t.actions[id].row == rows[id - |s.actions|] && t.actions[id].value == value)
  }

  lemma AddsBoth(s: State, u: State, t: State, a: seq<Row>, b: seq<Row>, value: int)
    requires Adds(s, u, a, value) && Adds(u, t, b, value)
    ensures Adds(s, t, a + b, value)
  {
  }

  lemma ScheduleAdds(s: State, row: Row, value: int)
    ensures Adds(s, Schedule(s, row, value), [row], value)
  {
  }

  lemma {:induction false} ReceiveSchedules(s: State, rows: seq<Row>, note: Note)
    ensures Adds(s, Receive(s, rows, note), Turned(rows, note), note.value)
    decreases |rows|
  {
    if rows != [] {
      var turned := if Matches(rows[0], note) then [rows[0]] else [];
      var once := if Matches(rows[0], note) then Schedule(s, rows[0], note.value) else s;
      assert Adds(s, once, turned, note.value) by { ScheduleAdds(s, rows[0], note.value); }
      ReceiveSchedules(once, rows[1..], note);
      KeptFront(rows, TurnedBy(note));
      hide Adds, Schedule;
      AddsBoth(s, once, Receive(s, rows, note), turned, Turned(rows[1..], note), note.value);
    }
  }

  // ----- The form's state -----

  class MidiForm {
    var MidiRows: seq<Row>
    var KnobActionDelays: map<int, nat>
    var actions: seq<Action>
    var ui: seq<nat>
    var ran: seq<nat>
    var buttonsTriggered: seq<Row>

    function History(): State
      reads this
    {
      State(actions, KnobActionDelays, ui, ran)
    }

    constructor (rows: seq<Row>)
      ensures History() == INITIAL && MidiRows == rows && buttonsTriggered == []
    {
      MidiRows, KnobActionDelays := rows, map[];
      actions, ui, ran, buttonsTriggered := [], [], [], [];
    }

    /** Cancels the controller's token, if there is one, then stores and starts a new one. */
    method ScheduleKnob(row: Row, value: int)
      requires forall c :: c in KnobActionDelays ==> KnobActionDelays[c] < |actions|
      modifies this`KnobActionDelays, this`actions
      ensures History() == Schedule(old(History()), row, value)
    {
      if row.controller in KnobActionDelays {
        var existing := KnobActionDelays[row.controller];
        if actions[existing].phase == Waiting {
          actions := actions[existing := actions[existing].(phase := Cancelled)];
        }
      }
      KnobActionDelays := KnobActionDelays[row.controller := |actions|];
      actions := actions + [Action(row, value, Waiting)];
    }

    /** A MIDI message outside learning mode. */
    method MidiMessageReceived(note: Note)
      requires Inv(History())
      modifies this`KnobActionDelays, this`actions, this`buttonsTriggered
      ensures History() == Step(old(History()), Message(MidiRows, note))
      ensures Inv(History())
      ensures Adds(old(History()), History(), Turned(MidiRows, note), note.value)
      ensures buttonsTriggered == old(buttonsTriggered) + Pressed(MidiRows, note)
    {
      ReceiveSchedules(History(), MidiRows, note);
      ReceiveKeeps(History(), MidiRows, note);
      for i := 0 to |MidiRows|
        invariant Inv(History())
        invariant Receive(old(History()), MidiRows, note) == Receive(History(), MidiRows[i..], note)
        invariant buttonsTriggered == old(buttonsTriggered) + Pressed(MidiRows[..i], note)
      {
        var row := MidiRows[i];
        assert MidiRows[i..][0] == row && MidiRows[i..][1..] == MidiRows[i + 1..];
        assert MidiRows[..i + 1][..i] == MidiRows[..i];
        if row.active && row.channel == note.channel && row.controller == note.controller {
          if row.controller == 0 && row.value == note.value {
            buttonsTriggered := buttonsTriggered + [row];
          } else if row.controller != 0 {
            ScheduleKeeps(History(), row, note.value);
            ScheduleKnob(row, note.value);
          }
        }
      }
      assert MidiRows[..|MidiRows|] == MidiRows;
    }

    method DelayExpired(id: nat)
      requires Inv(History())
      modifies this`actions, this`ui
      ensures History() == Step(old(History()), Expire(id)) && Inv(History())
    {
      ExpireKeeps(History(), id);
      if id < |actions| && actions[id].phase == Waiting {
        actions, ui := actions[id := actions[id].(phase := Queued)], ui + [id];
      }
    }

    method RunQueuedAction()
      requires Inv(History())
      modifies this`actions, this`ui, this`ran
      ensures History() == Step(old(History()), RunNext) && Inv(History())
    {
      RunNextKeeps(History());
      if ui != [] {
        var id := ui[0];
        actions, ui, ran := actions[id := actions[id].(phase := Done)], ui[1..], ran + [id];
      }
    }
  }
}
