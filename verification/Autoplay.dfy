/** The autoplay scheduler: timer ticks count down beats and send the script lines in turn. */
module Autoplay {
  import opened Text

  /** autoplayRemainingBeats, currentAutoplayIndex and the selected line. */
  datatype State = State(remaining: nat, index: nat, selected: nat)

  /** The beats field's text: a whole number, a number only float.Parse accepts, or no number. */
  datatype BeatsText = Whole(n: int) | Fractional | Unreadable

  /** What int.Parse makes of it. */
  function BeatsOf(text: BeatsText): Option<int> {
    if text.Whole? then Some(text.n) else None
  }

  /** The beats left after sending a line; text that is not a number counts as two beats. */
  function BeatsLeft(beats: Option<int>): nat {
    match beats
    case None => 1
    case Some(b) => if b - 1 < 1 then 1 else b - 1
  }

  /** The distance between two lines: at least two ticks, even for one beat. */
  function Period(beats: Option<int>): (p: nat)
    ensures p >= 2 && p == if beats.Some? && beats.value > 2 then beats.value else 2
  {
    BeatsLeft(beats) + 1
  }

  /** One tick over n lines whose actions do not touch the schedule. The second result is the line sent. */
  function Tick(s: State, beats: Option<int>, n: nat): (State, Option<nat>) {
    if n == 0 then (s, None)
    else if s.remaining == 0 then
      var next := (s.index + 1) % n;
      (State(BeatsLeft(beats), next, next), Some(s.selected))
    else (s.(remaining := s.remaining - 1), None)
  }

  /** The state before tick t, when tick i reads the beats field as beats[i]. */
  function Before(s: State, beats: seq<Option<int>>, n: nat, t: nat): State
    requires t <= |beats|
  {
    if t == 0 then s else Tick(Before(s, beats, n, t - 1), beats[t - 1], n).0
  }

  /** What tick t sends. */
  function Sent(s: State, beats: seq<Option<int>>, n: nat, t: nat): Option<nat>
    requires t < |beats|
  {
    Tick(Before(s, beats, n, t), beats[t], n).1
  }

  // ----- A beats field that may change at any time -----

  lemma {:induction false} Countdown(s: State, beats: seq<Option<int>>, n: nat, t: nat, d: nat)
    requires n > 0 && t + d <= |beats| && d <= Before(s, beats, n, t).remaining
    ensures Before(s, beats, n, t + d) == Before(s, beats, n, t).(remaining := Before(s, beats, n, t).remaining - d)
  {
    if d > 0 { Countdown(s, beats, n, t, d - 1); }
  }

  /** After a line is sent, the next one follows exactly one period later, the period being the
      one the beats field had at the send; in between nothing is sent, and then it is the next line. */
  lemma NextSend(s: State, beats: seq<Option<int>>, n: nat, t: nat, u: nat)
    requires n > 0 && t < u < |beats| && Sent(s, beats, n, t).Some?
    requires u <= t + Period(beats[t])
    ensures Sent(s, beats, n, u).Some? <==> u == t + Period(beats[t])
    ensures u == t + Period(beats[t]) ==> Sent(s, beats, n, u).value == (Before(s, beats, n, t).index + 1) % n
  {
    assert Before(s, beats, n, t + 1) == Tick(Before(s, beats, n, t), beats[t], n).0;
    Countdown(s, beats, n, t + 1, u - (t + 1));
  }

  // ----- A constant beats field -----

  /** The state before tick t, written out: k lines have been sent. */
  function Expected(s: State, beats: Option<int>, n: nat, t: nat): State
    requires n > 0
  {
    if t <= s.remaining then s.(remaining := s.remaining - t)
    else
      var p := Period(beats);
      var x := t - s.remaining - 1;
      Stage(s, p, n, x / p, x % p)
  }

  /** j ticks after the send of line number k. */
  function Stage(s: State, p: nat, n: nat, k: nat, j: nat): State
    requires n > 0 && j < p
  {
    var line := (s.index + k + 1) % n;
    State(p - 1 - j, line, line)
  }

  lemma DivModStep(x: nat, p: nat)
    requires p > 0
    ensures x % p == p - 1 ==> (x + 1) / p == x / p + 1 && (x + 1) % p == 0
    ensures x % p < p - 1 ==> (x + 1) / p == x / p && (x + 1) % p == x % p + 1
  {
    var q, r := x / p, x % p;
    assert x == p * q + r;
    if r == p - 1 {
      assert x + 1 == p * (q + 1);
      Quotient(x + 1, p, q + 1, 0);
    } else {
      Quotient(x + 1, p, q, r + 1);
    }
  }

  lemma Quotient(x: nat, p: nat, q: nat, r: nat)
    requires r < p && x == p * q + r
    ensures x / p == q && x % p == r
  {
    var d := x / p - q;
    assert p * d == r - x % p by { assert p * (x / p) == p * q + p * d; }
    MulBound(p, d);
  }

  lemma MulBound(p: nat, d: int)
    ensures d >= 1 ==> p * d >= p
    ensures d <= -1 ==> p * d + p <= 0
  {
    if d >= 1 { assert p * d == p + p * (d - 1); } else if d <= -1 { assert p * d + p == p * (d + 1); }
  }

  lemma ModNext(a: nat, n: nat)
    requires n > 0
    ensures (a % n + 1) % n == (a + 1) % n
  {
    DivModStep(a, n);
    if a % n < n - 1 { Quotient(a % n + 1, n, 0, a % n + 1); }
  }

  lemma ExpectedStep(s: State, beats: Option<int>, n: nat, t: nat)
    requires n > 0 && s.index < n
    ensures Tick(Expected(s, beats, n, t), beats, n).0 == Expected(s, beats, n, t + 1)
  {
    hide Tick, Stage, Period;
    if t < s.remaining {
      CountingDown(s, beats, n, t);
    } else if t == s.remaining {
      FirstSend(s, beats, n);
      assert Expected(s, beats, n, t) == s.(remaining := 0);
    } else {
      LaterTick(s, beats, n, t - s.remaining - 1);
    }
  }

  lemma CountingDown(s: State, beats: Option<int>, n: nat, t: nat)
    requires n > 0 && t < s.remaining
    ensures Tick(Expected(s, beats, n, t), beats, n).0 == Expected(s, beats, n, t + 1)
  {
  }

  lemma LaterTick(s: State, beats: Option<int>, n: nat, x: nat)
    requires n > 0
    ensures var t := s.remaining + 1 + x;
            Tick(Expected(s, beats, n, t), beats, n).0 == Expected(s, beats, n, t + 1)
  {
    hide Tick, Stage, Period;
    DivModStep(x, Period(beats));
    StageStep(s, beats, n, x / Period(beats), x % Period(beats));
  }

  lemma FirstSend(s: State, beats: Option<int>, n: nat)
    requires n > 0
    ensures Tick(s.(remaining := 0), beats, n).0 == Stage(s, Period(beats), n, 0, 0)
    ensures Expected(s, beats, n, s.remaining + 1) == Stage(s, Period(beats), n, 0, 0)
  {
    Quotient(0, Period(beats), 0, 0);
  }

  lemma StageStep(s: State, beats: Option<int>, n: nat, k: nat, j: nat)
    requires n > 0 && j < Period(beats)
    ensures var p := Period(beats);
            Tick(Stage(s, p, n, k, j), beats, n).0 ==
              if j < p - 1 then Stage(s, p, n, k, j + 1) else Stage(s, p, n, k + 1, 0)
  {
    ModNext(s.index + k + 1, n);
  }

  lemma {:induction false} ExpectedHolds(s: State, beats: seq<Option<int>>, b: Option<int>, n: nat, t: nat)
    requires n > 0 && s.index < n && t <= |beats|
    requires forall i :: 0 <= i < |beats| ==> beats[i] == b
    ensures Before(s, beats, n, t) == Expected(s, b, n, t)
  {
    if t > 0 {
      ExpectedHolds(s, beats, b, n, t - 1);
      ExpectedStep(s, b, n, t - 1);
    }
  }

  /** Autoplay timing: from any countdown r, tick t sends exactly when it lies a whole number k of
      periods behind the first send, and then it sends line start + k, wrapping at the end. An
      instant start has r = 0. */
  lemma Timing(s: State, beats: seq<Option<int>>, b: Option<int>, n: nat, t: nat)
    requires n > 0 && s.index < n && s.selected == s.index && t < |beats|
    requires forall i :: 0 <= i < |beats| ==> beats[i] == b
    ensures Sent(s, beats, n, t).Some? <==> t >= s.remaining && (t - s.remaining) % Period(b) == 0
    ensures Sent(s, beats, n, t).Some? ==> Sent(s, beats, n, t).value == (s.index + (t - s.remaining) / Period(b)) % n
  {
    ExpectedHolds(s, beats, b, n, t);
    var p := Period(b);
    if t > s.remaining {
      DivModStep(t - s.remaining - 1, p);
    } else if t == s.remaining {
      Quotient(0, p, 0, 0);
      Quotient(s.index, n, 0, s.index);
    }
  }

  // ----- The lines of a run -----

  function Constant(b: Option<int>, count: nat): seq<Option<int>> {
    seq(count, _ => b)
  }

  /** The lines sent by the first t ticks. */
  function Lines(s: State, beats: seq<Option<int>>, n: nat, t: nat): seq<nat>
    requires t <= |beats|
  {
    if t == 0 then []
    else Lines(s, beats, n, t - 1) + if Sent(s, beats, n, t - 1).Some? then [Sent(s, beats, n, t - 1).value] else []
  }

  // ----- The form's state -----

  class AutoplayForm {
    var numBeats: BeatsText
    var itemCount: nat
    var autoplayRemainingBeats: nat
    var currentAutoplayIndex: nat
    var selectedIndex: nat
    var timerRunning: bool
    var handled: seq<nat>

    function Schedule(): State
      reads this
    {
      State(autoplayRemainingBeats, currentAutoplayIndex, selectedIndex)
    }

    constructor (lines: nat, beats: BeatsText)
      ensures Schedule() == State(1, 0, 0) && itemCount == lines && numBeats == beats && handled == [] && !timerRunning
    {
      numBeats, itemCount, handled, timerRunning := beats, lines, [], false;
      autoplayRemainingBeats, currentAutoplayIndex, selectedIndex := 1, 0, 0;
    }

    method SendAutoplayLine(manualSend: bool)
      modifies this`autoplayRemainingBeats, this`currentAutoplayIndex, this`selectedIndex, this`handled
      ensures manualSend ==>
                Schedule() == old(Schedule()) && handled == old(handled) + if itemCount > 0 then [selectedIndex] else []
      ensures !manualSend ==>
                var (next, line) := Tick(old(Schedule()), BeatsOf(numBeats), itemCount);
                Schedule() == next && handled == old(handled) + if line.Some? then [line.value] else []
    {
      if itemCount == 0 { return; }
      if autoplayRemainingBeats == 0 || manualSend {
        handled := handled + [selectedIndex];
        if !manualSend {
          autoplayRemainingBeats := match numBeats
            case Whole(b) => if b - 1 < 1 then 1 else b - 1
            case _ => 1;
          currentAutoplayIndex := (currentAutoplayIndex + 1) % itemCount;
          selectedIndex := currentAutoplayIndex;
        }
      } else {
        autoplayRemainingBeats := autoplayRemainingBeats - 1;
      }
    }

    method ResetAndStartTimer(startInstant: bool)
      modifies this
      ensures numBeats == old(numBeats) && itemCount == old(itemCount)
      ensures old(numBeats).Unreadable? ==>
                Schedule() == old(Schedule()) && timerRunning == old(timerRunning) && handled == old(handled)
      ensures !old(numBeats).Unreadable? ==>
                var reset := old(Schedule()).(remaining := 0);
                var (next, line) := Tick(reset, BeatsOf(numBeats), itemCount);
                timerRunning && Schedule() == (if startInstant then next else reset) &&
                handled == old(handled) + if startInstant && line.Some? then [line.value] else []
    {
      if numBeats.Unreadable? { return; }
      autoplayRemainingBeats := 0;
      if startInstant { SendAutoplayLine(false); }
      timerRunning := true;
    }

    /** A run of timer ticks handles exactly the lines the schedule says, in order. */
    method Ticks(count: nat)
      modifies this`autoplayRemainingBeats, this`currentAutoplayIndex, this`selectedIndex, this`handled
      ensures var beats := Constant(BeatsOf(numBeats), count);
              Schedule() == Before(old(Schedule()), beats, itemCount, count) &&
              handled == old(handled) + Lines(old(Schedule()), beats, itemCount, count)
    {
      ghost var beats := Constant(BeatsOf(numBeats), count);
      for i := 0 to count
        invariant numBeats == old(numBeats) && itemCount == old(itemCount)
        invariant Schedule() == Before(old(Schedule()), beats, itemCount, i)
        invariant handled == old(handled) + Lines(old(Schedule()), beats, itemCount, i)
      {
        SendAutoplayLine(false);
      }
    }
  }
}
