/** The ticker drives the scheduler: what the engine does with the ticks it receives. */
module AlertClock {
  import T = Ticker
  import opened Schedule

  /** The engine has handled the ticks received so far, in order, each as its Unix time. */
  ghost predicate Drives(s: T.State, ticks: seq<Tick>) {
    && Handles(ticks) && |ticks| == |s.sent|
    && forall i :: 0 <= i < |ticks| ==> ticks[i].now == s.sent[i] / T.SECOND
  }

  /** Whatever the clock, the receiver and the offset do, the engine sees consecutive seconds. */
  lemma TickerDrivesEngine(states: seq<T.State>, events: seq<T.Event>, last: int, m: nat, ticks: seq<Tick>)
    requires T.IsRun(states, events, last) && m < |states| && Drives(states[m], ticks)
    ensures IsRun(ticks)
  {
    T.TicksAreConsecutive(states, events, last, m);
    forall i | 0 <= i < |ticks| - 1 ensures ticks[i + 1].now == ticks[i].now + 1 {
      T.UnixTimesConsecutive(last, i);
    }
  }

  /** From the ticker to the queue: on every run of the ticker under any offset changes, with an
      engine about to refresh its jobs, as it is when it starts, or one that has, and a list of rules
      whose ids and frequencies do not change, the job of the k-th rule is queued at least once in any
      frequency + offset ticks in which it is neither paused nor running. */
  lemma QueuedOnEveryRun(states: seq<T.State>, events: seq<T.Event>, last: int, m: nat,
                         ticks: seq<Tick>, rules: seq<RuleView>, k: nat, w: nat, length: int)
    requires T.IsRun(states, events, last) && m < |states| && Drives(states[m], ticks)
    requires ticks != [] && k < |rules| && Scheduled(ticks[0].before, rules, k)
    requires forall i :: 0 <= i < |ticks| ==> SameSchedule(ticks[i].rules, rules)
    requires length == Period(rules, k) && w + length <= |ticks| && Idle(ticks, rules[k].id, w, w + length)
    ensures exists q :: w <= q < w + length && Queued(ticks[q], rules[k].id)
  {
    TickerDrivesEngine(states, events, last, m, ticks);
    UnchangedRulesQueued(ticks, rules, k, w, length);
  }

  /** Never too often either: between two queueings of a job whose frequency stays f lies a multiple
      of f among the ticks. */
  lemma SpacedOnEveryRun(states: seq<T.State>, events: seq<T.Event>, last: int, m: nat, ticks: seq<Tick>, id: int,
    f: int, i: nat, j: nat)
    requires T.IsRun(states, events, last) && m < |states| && Drives(states[m], ticks)
    requires i < j < |ticks| && f >= 1 && Queued(ticks[i], id) && Queued(ticks[j], id)
    requires forall k :: i <= k <= j && id in Refreshed(ticks[k].before, ticks[k].rules) ==>
      Refreshed(ticks[k].before, ticks[k].rules)[id].frequency == f
    ensures exists k :: i < k < j && ticks[k].now % f == 0
  {
    TickerDrivesEngine(states, events, last, m, ticks);
    MultipleBetweenQueueings(ticks, id, f, i, j);
  }
}
