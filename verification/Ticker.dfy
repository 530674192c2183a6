/** The ticker behind alert scheduling, as the steps of its goroutine and of its environment
    (the clock, the receiver of ticks, updateOffset). Times are in nanoseconds. */
module Ticker {

  const SECOND: int := 1_000_000_000

  /** Where the goroutine is: at the top of the loop, blocked sending a tick, or in the
      select with a timer that fires at `wake`. */
  datatype Control = Top | Sending(next: int) | Waiting(wake: int)

  datatype State = State(clock: int, last: int, offset: int, at: Control, sent: seq<int>)

  datatype Event = Advance(time: nat) | Check | Receive | TimerFires | NewOffset(to: int)

  ghost predicate Init(s: State, last: int) {
    s.last == last && s.at == Top && s.sent == []
  }

  /** How much older than required the next tick is; negative if it is too young. */
  function Age(s: State): int {
    s.clock - s.offset - (s.last + SECOND)
  }

  predicate Enabled(s: State, e: Event) {
    match e
    case Advance(_) => true
    case Check => s.at.Top?
    case Receive => s.at.Sending?
    case TimerFires => s.at.Waiting? && s.clock >= s.at.wake
    case NewOffset(_) => s.at.Waiting?
  }

  function Step(s: State, e: Event): State
    requires Enabled(s, e)
  {
    match e
    case Advance(time) => s.(clock := s.clock + time)
    case Check =>
      if Age(s) >= 0 then s.(at := Sending(s.last + SECOND))
      else s.(at := Waiting(s.clock - Age(s)))
    case Receive => s.(last := s.at.next, sent := s.sent + [s.at.next], at := Top)
    case TimerFires => s.(at := Top)
    case NewOffset(to) => s.(offset := to, at := Top)
  }

  ghost predicate IsRun(states: seq<State>, events: seq<Event>, last: int) {
    && |states| == |events| + 1 && Init(states[0], last)
    && forall i :: 0 <= i < |events| ==> Enabled(states[i], events[i]) && states[i + 1] == Step(states[i], events[i])
  }

  ghost predicate Invariant(s: State, last: int) {
    && s.last == last + |s.sent| * SECOND
    && (forall i :: 0 <= i < |s.sent| ==> s.sent[i] == last + (i + 1) * SECOND)
    && (s.at.Sending? ==> s.at.next == s.last + SECOND && Age(s) >= 0)
    && (s.at.Waiting? ==> s.at.wake == s.last + SECOND + s.offset)
  }

  /** On every run the ticks received are the consecutive seconds after the starting time,
      none dropped or repeated, and none received before its age exceeds the offset then in
      force. */
  lemma {:induction false} TicksAreConsecutive(states: seq<State>, events: seq<Event>, last: int, i: nat)
    requires IsRun(states, events, last) && i < |states|
    ensures Invariant(states[i], last)
    ensures forall j :: 0 <= j < |states[i].sent| ==> states[i].sent[j] == last + (j + 1) * SECOND
    ensures i < |events| && events[i].Receive? ==>
      var tick := last + (|states[i].sent| + 1) * SECOND;
      states[i + 1].sent == states[i].sent + [tick] && tick + states[i].offset <= states[i].clock
  {
    if i > 0 {
      TicksAreConsecutive(states, events, last, i - 1);
      assert states[i - 1 + 1] == Step(states[i - 1], events[i - 1]);
    }
  }

  /** Ticks one second apart have consecutive Unix times. */
  lemma UnixTimesConsecutive(last: int, i: nat)
    ensures (last + (i + 2) * SECOND) / SECOND == (last + (i + 1) * SECOND) / SECOND + 1
  {
  }

  // ---------- catching up

  /** The move the goroutine makes on its own while the clock stands still and nobody calls
      updateOffset: none only if it is waiting for a time that has not come. */
  function Own(s: State): State {
    if s.at.Top? then Step(s, Check)
    else if s.at.Sending? then Step(s, Receive)
    else if s.clock >= s.at.wake then Step(s, TimerFires)
    else s
  }

  function OwnSteps(s: State, n: nat): State
    decreases n
  {
    if n == 0 then s else OwnSteps(Own(s), n - 1)
  }

  /** The number of ticks that are due. */
  function Due(s: State): nat {
    if s.clock - s.offset < s.last then 0 else (s.clock - s.offset - s.last) / SECOND
  }

  /** A slow receiver loses nothing: left to itself, the ticker sends exactly the ticks that
      are due and then stays where it is until the clock or the offset changes. */
  lemma {:induction false} CatchUp(s: State, last: int) returns (n: nat)
    requires Invariant(s, last)
    ensures n <= 2 * Due(s) + if s.at.Top? then 1 else if s.at.Sending? then 0 else if s.clock >= s.at.wake then 2
      else 0
    ensures var t := OwnSteps(s, n);
      && t.last == s.last + Due(s) * SECOND && |t.sent| == |s.sent| + Due(s)
      && t.at.Waiting? && Due(t) == 0 && Own(t) == t
    decreases Due(s), if s.at.Top? then 2 else if s.at.Sending? then 1 else if s.clock >= s.at.wake then 3 else 0
  {
    if s.at.Waiting? && s.clock < s.at.wake {
      n := 0;
    } else {
      var t := Own(s);
      if s.at.Sending? {
        assert s.clock - s.offset - t.last == s.clock - s.offset - s.last - SECOND;
        assert Due(t) == Due(s) - 1;
      }
      var m := CatchUp(t, last);
      n := m + 1;
      assert OwnSteps(s, n) == OwnSteps(t, m);
    }
  }
}
