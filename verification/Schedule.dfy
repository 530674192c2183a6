/** The arithmetic and the per-job automaton of alert scheduling, and what they guarantee over
    whole runs of the engine's tick loop. */
module Schedule {
  import opened Arithmetic

  /** A scheduled job as the scheduler sees it at one moment. */
  datatype JobView = JobView(offset: int, wait: bool, running: bool, paused: bool, frequency: int)

  datatype RuleView = RuleView(id: int, frequency: int, paused: bool)

  /** Jobs the scheduler can tick without dividing by zero. */
  predicate Tickable(j: JobView) {
    j.frequency >= 1 && j.offset >= 0 && (j.wait ==> j.offset >= 1)
  }

  // ---------- offsets (Update)

  function StepOf(frequency: int, n: nat): int
    requires n > 0
  {
    (frequency * 1000) / n
  }

  /** The offset of the i-th of n rules; zero would make Tick divide by zero. */
  function OffsetOf(frequency: int, n: nat, i: nat): int
    requires n > 0
  {
    var offset := (StepOf(frequency, n) * i) / 1000;
    if offset == 0 then 1 else offset
  }

  function Max(a: int, b: int): int { if a >= b then a else b }

  lemma DivBounds(a: int, d: int)
    requires d > 0
    ensures d * (a / d) <= a < d * (a / d) + d
  {
  }

  lemma MulMono(a: int, b: int, c: int)
    requires a <= b && c >= 0
    ensures a * c <= b * c
  {
  }

  /** An offset never reaches the frequency, so every job waits less than one period. */
  lemma OffsetBounds(frequency: int, n: nat, i: nat)
    requires frequency >= 0 && i < n
    ensures 1 <= OffsetOf(frequency, n, i) <= Max(1, frequency - 1)
  {
    var step := StepOf(frequency, n);
    DivBounds(frequency * 1000, n);
    assert step >= 0;
    MulMono(i, n - 1, step);
    assert step * i <= n * step - step;
    assert step * i >= 0;
    if step * i >= 1000 * frequency {
      assert step <= 0;
      assert step * i == 0;
    }
  }

  /** The i-th of n rules is due i whole steps into its period, a step being the n-th part of it in
      milliseconds: the offset is the second this falls into, and 1 for the first. */
  ghost predicate Spread(offset: int, frequency: int, n: nat, i: nat) {
    exists step: int :: SpreadBy(offset, frequency, n, i, step)
  }

  predicate SpreadBy(offset: int, frequency: int, n: nat, i: nat, step: int) {
    && step * n <= 1000 * frequency < step * n + n
    && if step * i < 1000 then offset == 1 else 1000 * offset <= step * i < 1000 * offset + 1000
  }

  lemma OffsetSpread(frequency: int, n: nat, i: nat)
    requires frequency >= 0 && i < n
    ensures Spread(OffsetOf(frequency, n, i), frequency, n, i)
  {
    var step := StepOf(frequency, n);
    DivBounds(frequency * 1000, n);
    DivBounds(step * i, 1000);
    assert step * n == n * step;
    assert step >= 0 && step * i >= 0;
    assert SpreadBy(OffsetOf(frequency, n, i), frequency, n, i, step);
  }

  lemma IntervalSize(s: set<int>, lo: int, len: nat)
    requires forall x :: x in s ==> lo <= x < lo + len
    ensures |s| <= len
    decreases len
  {
    if len > 0 {
      var t := s - {lo + len - 1};
      IntervalSize(t, lo, len - 1);
      assert s <= t + {lo + len - 1};
      assert |s| <= |t + {lo + len - 1}| <= |t| + 1;
    } else {
      assert forall x :: x !in s;
    }
  }

  /** Rules whose raw offsets fall into the same second are close together in the list. */
  lemma SameSecondClose(step: int, i: nat, j: nat)
    requires step >= 1 && i <= j && (step * i) / 1000 == (step * j) / 1000
    ensures j - i < CeilDiv(1000, step)
  {
    var c := CeilDiv(1000, step);
    DivBounds(1000 + step - 1, step);
    DivBounds(step * i, 1000);
    DivBounds(step * j, 1000);
    assert step * j - step * i == step * (j - i);
    if j - i >= c {
      MulMono(c, j - i, step);
      assert false;
    }
  }

  /** The load is spread: of n rules with one frequency, at most 2 * ceil(1000 / step) get the
      same offset. */
  lemma OffsetsSpread(frequency: int, n: nat, offset: int)
    requires frequency >= 0 && n > 0 && StepOf(frequency, n) >= 1
    ensures |set i | 0 <= i < n && OffsetOf(frequency, n, i) == offset| <= 2 * CeilDiv(1000, StepOf(frequency, n))
  {
    var step := StepOf(frequency, n);
    var c := CeilDiv(1000, step);
    var same := set i | 0 <= i < n && OffsetOf(frequency, n, i) == offset;
    // the first rule of each of the two seconds that may end up with this offset
    var second := FirstOf(step, n, offset);
    forall i | i in same ensures (offset == 1 && 0 <= i < c) || second <= i < second + c {
      if offset == 1 && (step * i) / 1000 == 0 {
        assert (step * 0) / 1000 == 0;
        SameSecondClose(step, 0, i);
      } else {
        SameSecondClose(step, second, i);
      }
    }
    if offset == 1 {
      var early, late := set i | i in same && 0 <= i < c, set i | i in same && second <= i < second + c;
      assert same == early + late;
      IntervalSize(early, 0, c);
      IntervalSize(late, second, c);
    } else {
      IntervalSize(same, second, c);
    }
  }

  /** The first index whose raw offset falls into the given second, or n. */
  lemma FirstOf(step: int, n: nat, second: int) returns (first: nat)
    requires step >= 1
    ensures first <= n
    ensures first < n ==> (step * first) / 1000 == second
    ensures forall i :: 0 <= i < first ==> (step * i) / 1000 != second
  {
    first := 0;
    while first < n && (step * first) / 1000 != second
      invariant first <= n && forall i :: 0 <= i < first ==> (step * i) / 1000 != second
    {
      first := first + 1;
    }
  }

  // ---------- one tick of one job (Tick)

  predicate Fires(j: JobView, now: int)
    requires Tickable(j)
  {
    j.wait && now % j.offset == 0
  }

  function TickJob(j: JobView, now: int): JobView
    requires Tickable(j)
  {
    if j.running || j.paused then j
    else if Fires(j, now) then j.(wait := false)
    else if now % j.frequency == 0 && j.offset > 0 then j.(wait := true)
    else j
  }

  predicate Queues(j: JobView, now: int)
    requires Tickable(j)
  {
    && !j.running && !j.paused
    && (Fires(j, now) || (now % j.frequency == 0 && j.offset <= 0))
  }

  // ---------- the engine's tick loop (alertingTicker)

  datatype EngineView = EngineView(tickIndex: nat, jobs: map<int, JobView>)

  predicate Healthy(jobs: map<int, JobView>) {
    forall id :: id in jobs ==> jobs[id].offset >= 1 && jobs[id].frequency >= 1
  }

  predicate Positive(rules: seq<RuleView>) {
    forall i :: 0 <= i < |rules| ==> rules[i].frequency >= 1
  }

  predicate DistinctIds(rules: seq<RuleView>) {
    forall i, j :: 0 <= i < j < |rules| ==> rules[i].id != rules[j].id
  }

  /** The job of the i-th rule after a refresh: a known job keeps its flags. */
  function UpdatedJob(jobs: map<int, JobView>, rules: seq<RuleView>, i: nat): JobView
    requires i < |rules|
  {
    var r := rules[i];
    var known := r.id in jobs;
    JobView(OffsetOf(r.frequency, |rules|, i), known && jobs[r.id].wait, known &&
      jobs[r.id].running, r.paused, r.frequency)
  }

  function UpdateUpTo(jobs: map<int, JobView>, rules: seq<RuleView>, i: nat): map<int, JobView>
    requires i <= |rules|
  {
    if i == 0 then map[] else UpdateUpTo(jobs, rules, i - 1)[rules[i - 1].id := UpdatedJob(jobs, rules, i - 1)]
  }

  function UpdateJobs(jobs: map<int, JobView>, rules: seq<RuleView>): map<int, JobView> {
    UpdateUpTo(jobs, rules, |rules|)
  }

  lemma {:induction false} UpdateUpToAt(jobs: map<int, JobView>, rules: seq<RuleView>, i: nat)
    requires i <= |rules| && DistinctIds(rules)
    ensures UpdateUpTo(jobs, rules, i).Keys == set k | 0 <= k < i :: rules[k].id
    ensures forall k :: 0 <= k < i ==> UpdateUpTo(jobs, rules, i)[rules[k].id] == UpdatedJob(jobs, rules, k)
  {
    if i > 0 {
      UpdateUpToAt(jobs, rules, i - 1);
    }
  }

  /** After a refresh there is exactly one job per rule; it has the rule's frequency and an offset in
      range, spread over the period by the rule's place in the list; a job already known keeps its
      flags, and a new one starts clean. */
  lemma UpdateMeets(jobs: map<int, JobView>, rules: seq<RuleView>, i: nat)
    requires DistinctIds(rules) && Positive(rules) && i < |rules|
    ensures var after, id := UpdateJobs(jobs, rules), rules[i].id;
      && after.Keys == (set k | 0 <= k < |rules| :: rules[k].id)
      && id in after
      && after[id].frequency == rules[i].frequency && after[id].paused == rules[i].paused
      && 1 <= after[id].offset && (after[id].offset == 1 || after[id].offset < rules[i].frequency)
      && Spread(after[id].offset, rules[i].frequency, |rules|, i)
      && after[id].wait == (id in jobs && jobs[id].wait)
      && after[id].running == (id in jobs && jobs[id].running)
  {
    UpdateUpToAt(jobs, rules, |rules|);
    OffsetBounds(rules[i].frequency, |rules|, i);
    OffsetSpread(rules[i].frequency, |rules|, i);
    assert rules[i].id in UpdateJobs(jobs, rules);
  }

  function Refreshed(e: EngineView, rules: seq<RuleView>): map<int, JobView> {
    if e.tickIndex % 10 == 0 then UpdateJobs(e.jobs, rules) else e.jobs
  }

  predicate AllTickable(jobs: map<int, JobView>) {
    forall id :: id in jobs ==> Tickable(jobs[id])
  }

  function TickAll(jobs: map<int, JobView>, now: int): map<int, JobView>
    requires AllTickable(jobs)
  {
    map id | id in jobs :: TickJob(jobs[id], now)
  }

  lemma RefreshedHealthy(e: EngineView, rules: seq<RuleView>)
    requires Healthy(e.jobs) && Positive(rules) && DistinctIds(rules)
    ensures Healthy(Refreshed(e, rules))
    ensures forall id :: id in Refreshed(e, rules) ==> Refreshed(e, rules)[id].wait == (id in e.jobs && e.jobs[id].wait)
  {
    if e.tickIndex % 10 == 0 {
      UpdateUpToAt(e.jobs, rules, |rules|);
      forall id | id in UpdateJobs(e.jobs, rules)
        ensures var j := UpdateJobs(e.jobs, rules)[id];
          j.offset >= 1 && j.frequency >= 1 && j.wait == (id in e.jobs && e.jobs[id].wait)
      {
        var i :| 0 <= i < |rules| && rules[i].id == id;
        UpdateMeets(e.jobs, rules, i);
      }
    }
  }

  /** One tick handled by the engine: the second it carries, what the rule reader returned
      (looked at on every tenth tick only), and the engine before it. */
  datatype Tick = Tick(now: int, rules: seq<RuleView>, before: EngineView)

  ghost predicate ValidTick(t: Tick) {
    Healthy(t.before.jobs) && Positive(t.rules) && DistinctIds(t.rules) && Healthy(Refreshed(t.before, t.rules))
  }

  ghost function After(t: Tick): EngineView
    requires ValidTick(t)
  {
    EngineView(t.before.tickIndex + 1, TickAll(Refreshed(t.before, t.rules), t.now))
  }

  ghost predicate Queued(t: Tick, id: int)
    requires ValidTick(t)
  {
    id in Refreshed(t.before, t.rules) && Queues(Refreshed(t.before, t.rules)[id], t.now)
  }

  /** Between two ticks jobs start and finish and rules change state; nothing else. */
  predicate Interlude(a: EngineView, b: EngineView) {
    && a.tickIndex == b.tickIndex && a.jobs.Keys == b.jobs.Keys
    && forall id :: id in a.jobs ==>
         && a.jobs[id].offset == b.jobs[id].offset
         && a.jobs[id].wait == b.jobs[id].wait
         && a.jobs[id].frequency == b.jobs[id].frequency
  }

  /** Ticks handled one after the other. */
  ghost predicate Handles(ticks: seq<Tick>) {
    && (forall i :: 0 <= i < |ticks| ==> ValidTick(ticks[i]))
    && (forall i :: 0 <= i < |ticks| - 1 ==> Interlude(After(ticks[i]), ticks[i + 1].before))
  }

  /** ... and one second apart. */
  ghost predicate IsRun(ticks: seq<Tick>) {
    Handles(ticks) && forall i :: 0 <= i < |ticks| - 1 ==> ticks[i + 1].now == ticks[i].now + 1
  }

  /** Refreshing, ticking and interludes keep every job tickable. */
  lemma StaysHealthy(t: Tick, next: EngineView, rules: seq<RuleView>)
    requires ValidTick(t) && Interlude(After(t), next) && Positive(rules) && DistinctIds(rules)
    ensures ValidTick(Tick(t.now + 1, rules, next))
  {
    assert forall id :: id in After(t).jobs ==> After(t).jobs[id].offset >= 1 && After(t).jobs[id].frequency >= 1;
    RefreshedHealthy(next, rules);
  }

  /** The state of job id when tick i reaches it. */
  ghost function JobAt(ticks: seq<Tick>, i: nat, id: int): JobView
    requires IsRun(ticks) && i < |ticks| && id in Refreshed(ticks[i].before, ticks[i].rules)
  {
    Refreshed(ticks[i].before, ticks[i].rules)[id]
  }

  ghost predicate Present(ticks: seq<Tick>, i: nat, id: int)
    requires IsRun(ticks) && i < |ticks|
  {
    id in Refreshed(ticks[i].before, ticks[i].rules)
  }

  /** Job id stays scheduled, idle and unpaused, with the same offset and frequency. */
  ghost predicate Steady(ticks: seq<Tick>, id: int, offset: int, frequency: int)
    requires IsRun(ticks)
  {
    forall i :: 0 <= i < |ticks| ==>
      && Present(ticks, i, id)
      && var j := JobAt(ticks, i, id);
         j.offset == offset && j.frequency == frequency && !j.running && !j.paused
  }

  lemma WaitCarries(ticks: seq<Tick>, i: nat, id: int)
    requires IsRun(ticks) && i + 1 < |ticks| && Present(ticks, i + 1, id)
    ensures JobAt(ticks, i + 1, id).wait ==> Present(ticks, i, id) && TickJob(JobAt(ticks, i, id), ticks[i].now).wait
    ensures Present(ticks, i, id) && TickJob(JobAt(ticks, i, id), ticks[i].now).wait ==> JobAt(ticks, i + 1, id).wait
  {
    assert Interlude(After(ticks[i]), ticks[i + 1].before);
    RefreshedHealthy(ticks[i + 1].before, ticks[i + 1].rules);
  }

  lemma {:induction false} NowAt(ticks: seq<Tick>, i: nat)
    requires IsRun(ticks) && i < |ticks|
    ensures ticks[i].now == ticks[0].now + i
  {
    if i > 0 {
      NowAt(ticks, i - 1);
      assert ticks[i - 1 + 1].now == ticks[i - 1].now + 1;
    }
  }

  /** The next multiple of d is less than d away. */
  lemma NextMultiple(t: int, d: int) returns (k: nat)
    requires d >= 1
    ensures k < d && (t + k) % d == 0
  {
    if t % d == 0 {
      k := 0;
    } else {
      k := d - t % d;
      assert t + k == d * (t / d) + d;
      assert (d * (t / d + 1)) % d == 0 by { MultipleMod(t / d + 1, d); }
    }
  }

  lemma MultipleMod(q: int, d: int)
    requires d >= 1
    ensures (d * q) % d == 0
  {
    var r := (d * q) % d;
    assert d * q == d * ((d * q) / d) + r;
    assert r == d * (q - (d * q) / d);
    var m := q - (d * q) / d;
    if m >= 1 { MulMono(1, m, d); assert false; }
    if m <= -1 { MulMono(m, -1, d); assert false; }
  }

  /** A waiting job is queued at the next multiple of its offset. */
  lemma {:induction false} WaitEnds(ticks: seq<Tick>, id: int, offset: int, frequency: int, i: nat, k: nat)
    requires IsRun(ticks) && Steady(ticks, id, offset, frequency) && i + k < |ticks|
    requires Present(ticks, i, id) && offset >= 1
    requires JobAt(ticks, i, id).wait && ticks[i + k].now % offset == 0
    ensures exists q :: i <= q <= i + k && Queued(ticks[q], id)
    decreases k
  {
    if !Queued(ticks[i], id) && k > 0 {
      assert Present(ticks, i + 1, id);
      WaitCarries(ticks, i, id);
      WaitEnds(ticks, id, offset, frequency, i + 1, k - 1);
    } else {
      assert Queued(ticks[i], id);
    }
  }

  /** Liveness: a steady job is queued in every window of frequency + offset ticks. */
  lemma QueuedInEveryWindow(ticks: seq<Tick>, id: int, offset: int, frequency: int)
    requires offset >= 1 && frequency >= 1
    requires IsRun(ticks) && |ticks| >= frequency + offset && Steady(ticks, id, offset, frequency)
    ensures exists q :: 0 <= q < frequency + offset && Queued(ticks[q], id)
  {
    assert Present(ticks, 0, id);
    var s := NextMultiple(ticks[0].now, frequency);
    NowAt(ticks, s);
    assert Present(ticks, s, id);
    if !Queued(ticks[s], id) {
      var next := s + 1;
      assert Present(ticks, next, id);
      WaitCarries(ticks, s, id);
      assert JobAt(ticks, next, id).wait;
      var k := NextMultiple(ticks[next].now, offset);
      NowAt(ticks, next);
      NowAt(ticks, next + k);
      WaitEnds(ticks, id, offset, frequency, next, k);
    }
  }

  /** Safety: between two queueings of a job whose frequency stays f there is a tick that is a
      multiple of f - whatever happens to its offset, its flags and the rule list. */
  lemma MultipleBetweenQueueings(ticks: seq<Tick>, id: int, f: int, i: nat, j: nat)
    requires IsRun(ticks) && i < j < |ticks| && f >= 1
    requires Queued(ticks[i], id) && Queued(ticks[j], id)
    requires forall m :: i <= m <= j && Present(ticks, m, id) ==> JobAt(ticks, m, id).frequency == f
    ensures exists m :: i < m < j && ticks[m].now % f == 0
  {
    if forall m :: i < m < j ==> ticks[m].now % f != 0 {
      NotArmed(ticks, id, f, i, j);
      assert false;
    }
  }

  lemma {:induction false} NotArmed(ticks: seq<Tick>, id: int, f: int, i: nat, j: nat)
    requires IsRun(ticks) && i < j < |ticks| && f >= 1
    requires Queued(ticks[i], id)
    requires forall m :: i <= m <= j && Present(ticks, m, id) ==> JobAt(ticks, m, id).frequency == f
    requires forall m :: i < m < j ==> ticks[m].now % f != 0
    ensures Present(ticks, j, id) ==> !JobAt(ticks, j, id).wait
    decreases j - i
  {
    if Present(ticks, j, id) {
      if j > i + 1 {
        NotArmed(ticks, id, f, i, j - 1);
      }
      WaitCarries(ticks, j - 1, id);
    }
  }

  // ---------- exactly when a job is queued

  /** The job of id is neither paused nor running at tick m. */
  ghost predicate Free(ticks: seq<Tick>, m: nat, id: int)
    requires IsRun(ticks) && m < |ticks|
  {
    Present(ticks, m, id) && !JobAt(ticks, m, id).running && !JobAt(ticks, m, id).paused
  }

  /** Tick m arms the job: its second is a multiple of the job's frequency, and it does not queue it. */
  ghost predicate Arms(ticks: seq<Tick>, m: nat, id: int)
    requires IsRun(ticks) && m < |ticks|
  {
    Free(ticks, m, id) && ticks[m].now % JobAt(ticks, m, id).frequency == 0 && !Queued(ticks[m], id)
  }

  /** Before tick q the job is there, and not queued, from tick m on. */
  ghost predicate Unqueued(ticks: seq<Tick>, id: int, m: nat, q: nat)
    requires IsRun(ticks) && q < |ticks|
  {
    Present(ticks, q, id) && forall k :: m <= k < q ==> Present(ticks, k, id) && !Queued(ticks[k], id)
  }

  /** Some tick before q has armed the job, or it was armed at the start, and it has not been queued
      since. */
  ghost predicate Armed(ticks: seq<Tick>, id: int, q: nat)
    requires IsRun(ticks) && q < |ticks|
  {
    || (Unqueued(ticks, id, 0, q) && JobAt(ticks, 0, id).wait)
    || exists m :: 0 <= m < q && Arms(ticks, m, id) && Unqueued(ticks, id, m + 1, q)
  }

  lemma WaitStep(ticks: seq<Tick>, m: nat, id: int)
    requires IsRun(ticks) && m < |ticks| && Present(ticks, m, id)
    ensures TickJob(JobAt(ticks, m, id), ticks[m].now).wait
       <==> !Queued(ticks[m], id) && (JobAt(ticks, m, id).wait || Arms(ticks, m, id))
    ensures Queued(ticks[m], id) <==>
      Free(ticks, m, id) && JobAt(ticks, m, id).wait && ticks[m].now % JobAt(ticks, m, id).offset == 0
  {
    assert ValidTick(ticks[m]);
  }

  lemma {:induction false} WaitIsArmed(ticks: seq<Tick>, id: int, q: nat)
    requires IsRun(ticks) && q < |ticks| && Present(ticks, q, id)
    ensures JobAt(ticks, q, id).wait <==> Armed(ticks, id, q)
  {
    hide TickJob, Queued, Free, IsRun;
    if q > 0 {
      var p := q - 1;
      assert Present(ticks, p + 1, id);
      WaitCarries(ticks, p, id);
      if Present(ticks, p, id) {
        WaitIsArmed(ticks, id, p);
        WaitStep(ticks, p, id);
        ArmedStep(ticks, id, p);
      } else {
        AbsentUnarmed(ticks, id, p);
      }
    }
  }

  lemma AbsentUnarmed(ticks: seq<Tick>, id: int, p: nat)
    requires IsRun(ticks) && p + 1 < |ticks| && !Present(ticks, p, id)
    ensures !Armed(ticks, id, p + 1)
  {
    hide IsRun, Present;
  }

  lemma ArmedStep(ticks: seq<Tick>, id: int, p: nat)
    requires IsRun(ticks) && p + 1 < |ticks| && Present(ticks, p, id) && Present(ticks, p + 1, id)
    ensures Armed(ticks, id, p + 1) <==> !Queued(ticks[p], id) && (Armed(ticks, id, p) || Arms(ticks, p, id))
  {
    hide Present, JobAt, Queued, Free, Interlude, After, Refreshed, Healthy, Positive, DistinctIds;
    if Arms(ticks, p, id) {
      assert Unqueued(ticks, id, p + 1, p + 1);
    }
    if !Queued(ticks[p], id) && Armed(ticks, id, p) {
      if m :| 0 <= m < p && Arms(ticks, m, id) && Unqueued(ticks, id, m + 1, p) {
        assert Unqueued(ticks, id, m + 1, p + 1);
      }
    }
    if Armed(ticks, id, p + 1) {
      if m :| 0 <= m < p + 1 && Arms(ticks, m, id) && Unqueued(ticks, id, m + 1, p + 1) {
        if m < p {
          assert Unqueued(ticks, id, m + 1, p);
        }
      }
    }
  }

  /** On every run, whatever happens to offsets, frequencies, states and the rule list: a job is queued
      at exactly the ticks whose second is a multiple of its offset, at which it is neither paused nor
      running and has been armed, at a multiple of its frequency, since it was last queued. */
  lemma QueuedExactly(ticks: seq<Tick>, id: int, q: nat)
    requires IsRun(ticks) && q < |ticks|
    ensures Queued(ticks[q], id) <==>
      Free(ticks, q, id) && ticks[q].now % JobAt(ticks, q, id).offset == 0 && Armed(ticks, id, q)
  {
    if Present(ticks, q, id) {
      WaitIsArmed(ticks, id, q);
      WaitStep(ticks, q, id);
    }
  }

  /** So a steady job armed at a multiple of its frequency is queued at the first later second that is a
      multiple of its offset, and not before. */
  lemma QueuedAtOffset(ticks: seq<Tick>, id: int, offset: int, frequency: int, m: nat, q: nat)
    requires offset >= 1 && frequency >= 1 && IsRun(ticks) && Steady(ticks, id, offset, frequency)
    requires m < q < |ticks| && ticks[m].now % frequency == 0 && !Queued(ticks[m], id)
    requires ticks[q].now % offset == 0 && forall k :: m < k < q ==> ticks[k].now % offset != 0
    ensures Queued(ticks[q], id) && forall k :: m < k < q ==> !Queued(ticks[k], id)
  {
    hide Queued, Interlude, After, Refreshed, Healthy, Positive, DistinctIds;
    assert Present(ticks, m, id);
    forall k | m < k < q ensures !Queued(ticks[k], id) && Present(ticks, k, id) {
      assert Present(ticks, k, id);
      QueuedExactly(ticks, id, k);
    }
    assert Present(ticks, q, id);
    assert Arms(ticks, m, id) && Unqueued(ticks, id, m + 1, q);
    QueuedExactly(ticks, id, q);
  }

  // ---------- which rules are in force

  lemma {:induction false} TickIndexAt(ticks: seq<Tick>, i: nat)
    requires IsRun(ticks) && i < |ticks|
    ensures ticks[i].before.tickIndex == ticks[0].before.tickIndex + i
  {
    if i > 0 {
      TickIndexAt(ticks, i - 1);
      assert Interlude(After(ticks[i - 1]), ticks[i - 1 + 1].before);
    }
  }

  /** There is a job of id exactly if it is the id of one of the rules, and then it has that rule's
      frequency and the offset of its place in the list. */
  ghost predicate InForce(jobs: map<int, JobView>, rules: seq<RuleView>, id: int) {
    && (id in jobs <==> exists k :: 0 <= k < |rules| && rules[k].id == id)
    && forall k :: 0 <= k < |rules| && rules[k].id == id ==> JobOf(jobs, rules, k)
  }

  ghost predicate JobOf(jobs: map<int, JobView>, rules: seq<RuleView>, k: nat)
    requires k < |rules|
  {
    && rules[k].id in jobs
    && jobs[rules[k].id].frequency == rules[k].frequency
    && Spread(jobs[rules[k].id].offset, rules[k].frequency, |rules|, k)
  }

  /** The jobs a tick visits. */
  function JobsAt(t: Tick): map<int, JobView> {
    Refreshed(t.before, t.rules)
  }

  /** From a tick whose index is a multiple of ten to the next the jobs are those of the rules read
      then, paused or not as they were read. */
  lemma {:induction false} RulesInForce(ticks: seq<Tick>, r: nat, i: nat, id: int)
    requires IsRun(ticks) && r <= i < |ticks| && i < r + 10 && ticks[r].before.tickIndex % 10 == 0
    ensures InForce(JobsAt(ticks[i]), ticks[r].rules, id)
    ensures forall k :: 0 <= k < |ticks[r].rules| && ticks[r].rules[k].id == id ==>
      id in JobsAt(ticks[r]) && JobsAt(ticks[r])[id].paused == ticks[r].rules[k].paused
    decreases i
  {
    hide *;
    RunValid(ticks, r);
    JustRefreshed(ticks[r], id);
    if i > r {
      RulesInForce(ticks, r, i - 1, id);
      TickIndexAt(ticks, i);
      TickIndexAt(ticks, r);
      NotRefreshed(ticks, i, id);
      StillInForce(JobsAt(ticks[i - 1]), JobsAt(ticks[i]), ticks[r].rules, id);
    }
  }

  lemma RunValid(ticks: seq<Tick>, i: nat)
    requires IsRun(ticks) && i < |ticks|
    ensures ValidTick(ticks[i])
  {
  }

  lemma JustRefreshed(t: Tick, id: int)
    requires ValidTick(t) && t.before.tickIndex % 10 == 0
    ensures InForce(JobsAt(t), t.rules, id)
    ensures forall k :: 0 <= k < |t.rules| && t.rules[k].id == id ==>
      id in JobsAt(t) && JobsAt(t)[id].paused == t.rules[k].paused
  {
    var rules, jobs := t.rules, t.before.jobs;
    UpdateUpToAt(jobs, rules, |rules|);
    hide Spread, UpdateUpTo, UpdatedJob;
    forall k | 0 <= k < |rules| && rules[k].id == id
      ensures JobOf(JobsAt(t), rules, k) && JobsAt(t)[id].paused == rules[k].paused
    {
      UpdateMeets(jobs, rules, k);
    }
  }

  /** The job of id has the same frequency and offset in both, or is in neither. */
  predicate SameJob(a: map<int, JobView>, b: map<int, JobView>, id: int) {
    if id in a && id in b then a[id].frequency == b[id].frequency && a[id].offset == b[id].offset
    else id !in a && id !in b
  }

  lemma StillInForce(a: map<int, JobView>, b: map<int, JobView>, rules: seq<RuleView>, id: int)
    requires InForce(a, rules, id) && SameJob(a, b, id)
    ensures InForce(b, rules, id)
  {
    hide Spread;
    forall k | 0 <= k < |rules| && rules[k].id == id ensures JobOf(b, rules, k) {
      assert JobOf(a, rules, k);
    }
  }

  lemma NotRefreshed(ticks: seq<Tick>, i: nat, id: int)
    requires IsRun(ticks) && 0 < i < |ticks| && ticks[i].before.tickIndex % 10 != 0
    ensures SameJob(JobsAt(ticks[i - 1]), JobsAt(ticks[i]), id)
  {
    assert Interlude(After(ticks[i - 1]), ticks[i - 1 + 1].before);
    assert ValidTick(ticks[i - 1]);
    hide IsRun, Queues, UpdateJobs, Healthy, Positive, DistinctIds;
  }

  // ---------- an unchanged rule list

  /** Lists of the same rules with the same frequencies, whatever their states. */
  predicate SameSchedule(a: seq<RuleView>, b: seq<RuleView>) {
    |a| == |b| && forall i :: 0 <= i < |a| ==> a[i].id == b[i].id && a[i].frequency == b[i].frequency
  }

  /** The engine has refreshed its jobs from the list, or is about to. */
  predicate Scheduled(e: EngineView, rules: seq<RuleView>, k: nat)
    requires k < |rules|
  {
    e.tickIndex % 10 == 0 ||
    (&& rules[k].id in e.jobs
     && e.jobs[rules[k].id].offset == OffsetOf(rules[k].frequency, |rules|, k)
     && e.jobs[rules[k].id].frequency == rules[k].frequency)
  }

  /** With the same rules and frequencies at every refresh, the job of the k-th keeps its offset
      and frequency, whatever the states of the rules. */
  lemma {:induction false} UnchangedRulesSteady(ticks: seq<Tick>, rules: seq<RuleView>, k: nat, i: nat)
    requires IsRun(ticks) && k < |rules| && i < |ticks| && Scheduled(ticks[0].before, rules, k)
    requires forall m :: 0 <= m < |ticks| ==> SameSchedule(ticks[m].rules, rules)
    ensures Present(ticks, i, rules[k].id)
    ensures JobAt(ticks, i, rules[k].id).offset == OffsetOf(rules[k].frequency, |rules|, k)
    ensures JobAt(ticks, i, rules[k].id).frequency == rules[k].frequency
  {
    var id := rules[k].id;
    assert ValidTick(ticks[i]) && SameSchedule(ticks[i].rules, rules) && ticks[i].rules[k].id == id;
    if ticks[i].before.tickIndex % 10 == 0 {
      UpdateUpToAt(ticks[i].before.jobs, ticks[i].rules, |rules|);
    } else if i > 0 {
      UnchangedRulesSteady(ticks, rules, k, i - 1);
      assert Interlude(After(ticks[i - 1]), ticks[i - 1 + 1].before);
    }
  }

  /** A rule's job, if there is one, is neither paused nor running from one tick to another. */
  predicate Idle(ticks: seq<Tick>, id: int, from: int, to: int) {
    forall m :: 0 <= m < |ticks| && from <= m < to ==> IdleAt(ticks[m], id)
  }

  predicate IdleAt(t: Tick, id: int) {
    var jobs := Refreshed(t.before, t.rules);
    id in jobs ==> !jobs[id].running && !jobs[id].paused
  }

  /** The frequency of the k-th rule and the offset of its job. */
  function Period(rules: seq<RuleView>, k: nat): int
    requires k < |rules|
  {
    rules[k].frequency + OffsetOf(rules[k].frequency, |rules|, k)
  }

  /** So while it is neither paused nor running it is queued in every window. */
  lemma UnchangedRulesQueued(ticks: seq<Tick>, rules: seq<RuleView>, k: nat, w: nat, length: int)
    requires IsRun(ticks) && k < |rules| && ticks != [] && Scheduled(ticks[0].before, rules, k)
    requires forall m :: 0 <= m < |ticks| ==> SameSchedule(ticks[m].rules, rules)
    requires length == Period(rules, k) && w + length <= |ticks| && Idle(ticks, rules[k].id, w, w + length)
    ensures exists q :: w <= q < w + length && Queued(ticks[q], rules[k].id)
  {
    var id, f, offset := rules[k].id, rules[k].frequency, OffsetOf(rules[k].frequency, |rules|, k);
    assert ValidTick(ticks[0]) && SameSchedule(ticks[0].rules, rules);
    assert Positive(ticks[0].rules) && ticks[0].rules[k].frequency >= 1;
    OffsetBounds(f, |rules|, k);
    var window := ticks[w..w + f + offset];
    forall i | 0 <= i < |window| ensures ValidTick(window[i]) {
      assert window[i] == ticks[w + i];
    }
    forall i | 0 <= i < |window| - 1
      ensures Interlude(After(window[i]), window[i + 1].before) && window[i + 1].now == window[i].now + 1
    {
      assert window[i] == ticks[w + i] && window[i + 1] == ticks[w + i + 1];
    }
    forall i | 0 <= i < |window|
      ensures Present(window, i, id)
      ensures var j := JobAt(window, i, id); j.offset == offset && j.frequency == f && !j.running && !j.paused
    {
      UnchangedRulesSteady(ticks, rules, k, w + i);
      assert window[i] == ticks[w + i];
    }
    QueuedInEveryWindow(window, id, offset, f);
    var q :| 0 <= q < f + offset && Queued(window[q], id);
    assert window[q] == ticks[w + q];
  }
}
