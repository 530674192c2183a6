/** The alert scheduler and the engine's tick loop, over job objects shared with the running
    evaluations. */
module Scheduler {
  import opened Schedule
  import Collections

  datatype AlertState = StatePaused | StateOther(name: string)

  class Rule {
    const id: int
    const frequency: int
    var state: AlertState

    constructor (id: int, frequency: int, state: AlertState)
      ensures this.id == id && this.frequency == frequency && this.state == state
    {
      this.id, this.frequency, this.state := id, frequency, state;
    }

    function View(): RuleView
      reads this
    {
      RuleView(id, frequency, state.StatePaused?)
    }
  }

  class Job {
    var offset: int
    var offsetWait: bool
    var running: bool
    var rule: Rule

    /** The zero job, with its rule. */
    constructor (rule: Rule)
      ensures this.offset == 0 && !offsetWait && !running && this.rule == rule
    {
      offset, offsetWait, running := 0, false, false;
      this.rule := rule;
    }

    ghost function View(): JobView
      reads this, rule
    {
      JobView(offset, offsetWait, running, rule.state.StatePaused?, rule.frequency)
    }
  }

  function RuleViews(rules: seq<Rule>): (views: seq<RuleView>)
    reads rules
    ensures |views| == |rules| && forall i :: 0 <= i < |rules| ==> views[i] == rules[i].View()
  {
    seq(|rules|, i requires 0 <= i < |rules| reads rules => rules[i].View())
  }

  class SchedulerImpl {
    var jobs: map<int, Job>

    /** Different rules have different job objects. */
    ghost predicate Valid()
      reads this
    {
      forall a, b :: a in jobs && b in jobs && a != b ==> jobs[a] != jobs[b]
    }

    ghost function Views(): map<int, JobView>
      reads this, jobs.Values, set id | id in jobs :: jobs[id].rule
    {
      map id | id in jobs :: jobs[id].View()
    }

    constructor ()
      ensures Valid() && jobs == map[]
    {
      jobs := map[];
    }

    function Known(id: int): set<Job>
      reads this
    {
      if id in jobs then {jobs[id]} else {}
    }

    /** Finds or makes the job of a rule and puts it at the i-th place of n. */
    method Refresh(rule: Rule, n: nat, i: nat) returns (job: Job)
      requires n > 0
      modifies Known(rule.id)`rule, Known(rule.id)`offset
      ensures if rule.id in jobs then job == jobs[rule.id] else fresh(job)
      ensures job.rule == rule && job.offset == OffsetOf(rule.frequency, n, i)
      ensures job.offsetWait == (rule.id in jobs && old(jobs[rule.id].offsetWait))
      ensures job.running == (rule.id in jobs && old(jobs[rule.id].running))
    {
      if rule.id in jobs {
        job := jobs[rule.id];
      } else {
        job := new Job(rule);
      }
      job.rule := rule;
      var offset := ((rule.frequency * 1000) / n) * i;
      job.offset := offset / 1000;
      if job.offset == 0 {
        job.offset := 1;
      }
    }

    method Update(rules: seq<Rule>)
      requires Valid()
      requires DistinctIds(RuleViews(rules))
      modifies this`jobs, jobs.Values`rule, jobs.Values`offset
      ensures Valid()
      ensures Views() == UpdateJobs(old(Views()), RuleViews(rules))
      ensures forall id :: id in jobs ==> if id in old(jobs) then jobs[id] == old(jobs)[id] else fresh(jobs[id])
    {
      hide UpdateJobs, RuleViews, Job.View;
      ghost var target := UpdateJobs(Views(), RuleViews(rules));
      var updated := Collect(rules);
      assert RuleViews(rules) == old(RuleViews(rules));
      jobs := updated;
      assert Views().Keys == target.Keys;
      assert forall id :: id in target ==> Views()[id] == target[id];
    }

    /** The loop of Update: the new jobs map. */
    method Collect(rules: seq<Rule>) returns (updated: map<int, Job>)
      requires Valid()
      requires DistinctIds(RuleViews(rules))
      modifies jobs.Values`rule, jobs.Values`offset
      ensures RuleViews(rules) == old(RuleViews(rules))
      ensures updated.Keys == UpdateJobs(old(Views()), RuleViews(rules)).Keys
      ensures forall id :: id in updated ==> updated[id].View() == UpdateJobs(old(Views()), RuleViews(rules))[id]
      ensures forall id :: id in updated ==> if id in jobs then updated[id] == jobs[id] else fresh(updated[id])
      ensures forall a, b :: a in updated && b in updated && a != b ==> updated[a] != updated[b]
    {
      hide OffsetOf, UpdateUpTo, RuleViews;
      ghost var before, views := Views(), RuleViews(rules);
      updated := map[];
      UpdateStarts(before, views);
      var i := 0;
      while i < |rules|
        invariant i <= |rules| && RuleViews(rules) == views
        invariant Partial(updated, before, views, i)
        invariant forall id :: id in updated && id !in jobs ==> fresh(updated[id])
      {
        hide Partial;
        updated := Extend(updated, rules, i, before);
        i := i + 1;
      }
    }

    /** Tick: every job that is neither running nor paused is armed at the multiples of its
        frequency and put on the queue, once, at the next multiple of its offset. */
    method Tick(now: int) returns (queued: seq<Job>, ghost ids: seq<int>)
      requires Valid() && AllTickable(Views())
      modifies jobs.Values`offsetWait
      ensures Views() == TickAll(old(Views()), now)
      ensures Lists(queued, ids)
      ensures forall id :: id in ids <==> id in jobs && Queues(old(Views())[id], now)
      ensures forall id :: id in ids ==>
        && id in jobs && !jobs[id].running && !jobs[id].rule.state.StatePaused?
        && (jobs[id].offset >= 1 ==>
              old(jobs[id].offsetWait) && !jobs[id].offsetWait && now % jobs[id].offset == 0)
    {
      hide TickJob, Queues, Tickable, Lists;
      ghost var before := Views();
      queued, ids := [], [];
      ListNone();
      var rest := jobs.Keys;
      while rest != {}
        invariant rest <= jobs.Keys
        invariant Swept(rest, before, now)
        invariant Lists(queued, ids)
        invariant forall id :: id in ids <==> id in jobs && id !in rest && Queues(before[id], now)
        decreases rest
      {
        var id := Collections.Pick(rest);
        assert id !in ids;
        var enqueued := Visit(id, rest, before, now);
        rest := rest - {id};
        hide Swept;
        if enqueued {
          ListOne(queued, ids, id);
          queued, ids := queued + [jobs[id]], ids + [id];
        }
      }
      assert Views().Keys == TickAll(before, now).Keys;
      assert forall id :: id in jobs ==> Views()[id] == TickAll(before, now)[id];
      forall id | id in ids
        ensures id in jobs && !jobs[id].running && !jobs[id].rule.state.StatePaused?
        ensures jobs[id].offset >= 1 ==>
          old(jobs[id].offsetWait) && !jobs[id].offsetWait && now % jobs[id].offset == 0
      {
        QueuesMeans(before[id], now);
        assert Views()[id] == jobs[id].View();
      }
    }

    /** The jobs in rest have not been visited yet; the others have. */
    ghost predicate Swept(rest: set<int>, before: map<int, JobView>, now: int)
      requires AllTickable(before)
      reads this, jobs.Values, set id | id in jobs :: jobs[id].rule
    {
      && jobs.Keys == before.Keys
      && forall id :: id in jobs ==> jobs[id].View() == if id in rest then before[id] else TickJob(before[id], now)
    }

    method Visit(id: int, ghost rest: set<int>, ghost before: map<int, JobView>, now: int) returns (enqueued: bool)
      requires Valid() && AllTickable(before) && Swept(rest, before, now) && id in jobs && id in rest
      modifies {jobs[id]}`offsetWait
      ensures Swept(rest - {id}, before, now)
      ensures enqueued == Queues(before[id], now)
    {
      hide TickJob, Queues, Tickable;
      var job := jobs[id];
      assert forall k :: k in jobs && k != id ==> jobs[k] != job;
      enqueued := TickOne(job, now);
    }

    /** The queued jobs are those of the listed rules, each once. */
    ghost predicate Lists(queued: seq<Job>, ids: seq<int>)
      reads this
    {
      && |queued| == |ids|
      && (forall i :: 0 <= i < |ids| ==> ids[i] in jobs && queued[i] == jobs[ids[i]])
      && (forall i, j :: 0 <= i < j < |ids| ==> ids[i] != ids[j])
    }

    lemma ListNone()
      ensures Lists([], [])
    {
    }

    lemma ListOne(queued: seq<Job>, ids: seq<int>, id: int)
      requires Lists(queued, ids) && id in jobs && id !in ids
      ensures Lists(queued + [jobs[id]], ids + [id])
    {
    }

    /** The body of the loop over the jobs. */
    method TickOne(job: Job, now: int) returns (enqueued: bool)
      requires Tickable(job.View())
      modifies job`offsetWait
      ensures job.View() == TickJob(old(job.View()), now)
      ensures enqueued == Queues(old(job.View()), now)
    {
      if job.running || job.rule.state.StatePaused? {
        return false;
      }
      if job.offsetWait && now % job.offset == 0 {
        job.offsetWait := false;
        return true;
      }
      if now % job.rule.frequency == 0 {
        if job.offset > 0 {
          job.offsetWait := true;
        } else {
          return true;
        }
      }
      return false;
    }

    /** The first i rules have their jobs, and the jobs of the others are as they were. */
    ghost predicate Partial(updated: map<int, Job>, before: map<int, JobView>, views: seq<RuleView>, i: nat)
      requires i <= |views|
      reads this, jobs.Values, updated.Values, set id | id in updated :: updated[id].rule
    {
      Paired(updated, before, views, i) && Current(updated, before, views, i)
    }

    /** Which jobs are where. */
    ghost predicate Paired(updated: map<int, Job>, before: map<int, JobView>, views: seq<RuleView>, i: nat)
      requires i <= |views|
      reads this
    {
      && updated.Keys == UpdateUpTo(before, views, i).Keys
      && (forall id :: id in updated ==> if id in jobs then updated[id] == jobs[id] else updated[id] !in jobs.Values)
      && (forall a, b :: a in updated && b in updated && a != b ==> updated[a] != updated[b])
      && (forall id :: id in jobs ==> id in before)
    }

    /** What the jobs are like. */
    ghost predicate Current(updated: map<int, Job>, before: map<int, JobView>, views: seq<RuleView>, i: nat)
      requires i <= |views| && Paired(updated, before, views, i)
      reads this, jobs.Values, updated.Values, set id | id in updated :: updated[id].rule
    {
      && (forall id :: id in updated ==> updated[id].View() == UpdateUpTo(before, views, i)[id])
      && (forall id :: id in jobs && id !in updated ==>
        jobs[id].offsetWait == before[id].wait && jobs[id].running == before[id].running)
    }

    lemma Apart(updated: map<int, Job>, before: map<int, JobView>, views: seq<RuleView>, i: nat, id: int)
      requires Valid() && i <= |views| && Paired(updated, before, views, i) && id in jobs && id !in updated
      ensures jobs[id] !in updated.Values && forall k :: k in jobs && k != id ==> jobs[k] != jobs[id]
      ensures id in before
    {
      assert jobs[id] in jobs.Values;
      forall k | k in updated ensures updated[k] != jobs[id] {
        if k in jobs { assert k != id; }
      }
    }

    /** One round of the loop. */
    method Extend(updated: map<int, Job>, rules: seq<Rule>, i: nat, ghost before: map<int, JobView>)
      returns (extended: map<int, Job>)
      requires Valid() && i < |rules| && DistinctIds(RuleViews(rules))
      requires before.Keys == jobs.Keys
      requires Partial(updated, before, RuleViews(rules), i)
      modifies Known(rules[i].id)`rule, Known(rules[i].id)`offset
      ensures RuleViews(rules) == old(RuleViews(rules))
      ensures Partial(extended, before, RuleViews(rules), i + 1)
      ensures rules[i].id in extended && extended == updated[rules[i].id := extended[rules[i].id]]
      ensures rules[i].id !in jobs ==> fresh(extended[rules[i].id])
    {
      hide OffsetOf, UpdateUpTo, RuleViews;
      ghost var views := RuleViews(rules);
      ViewOf(rules, i);
      UpdateStep(before, views, i);
      assert rules[i].id !in updated by { UpdateUpToAt(before, views, i); }
      hide Partial;
      var job := RefreshBeside(updated, rules, i, before);
      hide DistinctIds, UpdatedJob, Job.View, Valid;
      PutJob(updated, before, views, i, job);
      extended := updated[rules[i].id := job];
    }

    /** Refreshing the job of a rule leaves those of the rules before it alone. */
    method RefreshBeside(ghost updated: map<int, Job>, rules: seq<Rule>, i: nat, ghost before: map<int, JobView>)
      returns (job: Job)
      requires Valid() && i < |rules| && before.Keys == jobs.Keys
      requires Partial(updated, before, RuleViews(rules), i) && rules[i].id !in updated
      modifies Known(rules[i].id)`rule, Known(rules[i].id)`offset
      ensures RuleViews(rules) == old(RuleViews(rules))
      ensures Partial(updated, before, RuleViews(rules), i) && forall id :: id in updated ==> updated[id] != job
      ensures job.View() == UpdatedJob(before, RuleViews(rules), i)
      ensures if rules[i].id in jobs then job == jobs[rules[i].id] else fresh(job)
    {
      hide OffsetOf, UpdateUpTo, RuleViews, Paired;
      ghost var views := RuleViews(rules);
      ViewOf(rules, i);
      if rules[i].id in jobs { Apart(updated, before, views, i, rules[i].id); }
      hide Valid;
      job := Refresh(rules[i], |rules|, i);
      assert forall id :: id in updated ==> updated[id] in updated.Values && updated[id] != job;
      assert job.View() == UpdatedJob(before, views, i);
      hide *;
      assert forall id :: id in updated ==> updated[id].View() == old(updated[id].View());
    }

    lemma PutJob(updated: map<int, Job>, before: map<int, JobView>, views: seq<RuleView>, i: nat, job: Job)
      requires i < |views| && Partial(updated, before, views, i)
      requires job.View() == UpdatedJob(before, views, i)
      requires UpdateUpTo(before, views, i + 1)
        == UpdateUpTo(before, views, i)[views[i].id := UpdatedJob(before, views, i)]
      requires views[i].id in jobs ==> job == jobs[views[i].id]
      requires views[i].id !in jobs ==> job !in jobs.Values
      requires forall id :: id in updated ==> updated[id] != job
      ensures Partial(updated[views[i].id := job], before, views, i + 1)
    {
      hide UpdateUpTo, UpdatedJob, Job.View;
    }
  }

  /** The channel between the scheduler and the dispatcher; a send that has to wait for room
      only delays the tick. */
  class Engine {
    const scheduler: SchedulerImpl
    var tickIndex: nat
    var execQueue: seq<Job>

    constructor ()
      ensures tickIndex == 0 && execQueue == [] && fresh(scheduler) && scheduler.Valid() && scheduler.jobs == map[]
    {
      scheduler := new SchedulerImpl();
      tickIndex, execQueue := 0, [];
    }

    ghost function View(): EngineView
      reads this, scheduler, scheduler.jobs.Values, set id | id in scheduler.jobs :: scheduler.jobs[id].rule
    {
      EngineView(tickIndex, scheduler.Views())
    }

    /** One round of alertingTicker: refresh the rules on every tenth tick, then tick. */
    method HandleTick(now: int, rules: seq<Rule>) returns (ghost ids: seq<int>)
      requires scheduler.Valid() && DistinctIds(RuleViews(rules)) && Positive(RuleViews(rules)) &&
        Healthy(scheduler.Views())
      modifies this`tickIndex, this`execQueue, scheduler`jobs
      modifies scheduler.jobs.Values
      ensures scheduler.Valid()
      ensures ValidTick(Tick(now, old(RuleViews(rules)), old(View())))
      ensures View() == After(Tick(now, old(RuleViews(rules)), old(View())))
      ensures old(execQueue) <= execQueue && scheduler.Lists(execQueue[|old(execQueue)|..], ids)
      ensures forall id :: id in ids <==>
        id in scheduler.jobs && Queued(Tick(now, old(RuleViews(rules)), old(View())), id)
    {
      hide Healthy, Positive, RuleViews, DistinctIds, Queues, Refreshed, TickAll, AllTickable, SchedulerImpl.Views;
      ghost var before, views := View(), RuleViews(rules);
      RefreshedHealthy(before, views);
      RefreshIfDue(rules);
      HealthyTickable(scheduler.Views());
      var queued;
      queued, ids := scheduler.Tick(now);
      execQueue := execQueue + queued;
      tickIndex := tickIndex + 1;
    }

    method RefreshIfDue(rules: seq<Rule>)
      requires scheduler.Valid() && DistinctIds(RuleViews(rules))
      modifies scheduler`jobs, scheduler.jobs.Values
      ensures scheduler.Valid()
      ensures scheduler.Views() == Refreshed(old(View()), old(RuleViews(rules)))
      ensures scheduler.jobs.Keys == scheduler.Views().Keys
      ensures forall job :: job in scheduler.jobs.Values ==> job in old(scheduler.jobs.Values) || fresh(job)
    {
      hide UpdateJobs, RuleViews, DistinctIds;
      if tickIndex % 10 == 0 {
        scheduler.Update(rules);
        forall id | id in scheduler.jobs ensures scheduler.jobs[id] in old(scheduler.jobs.Values)
          || fresh(scheduler.jobs[id]) {
          assert id in old(scheduler.jobs) ==> old(scheduler.jobs)[id] in old(scheduler.jobs).Values;
        }
      }
    }
  }

  lemma QueuesMeans(j: JobView, now: int)
    requires Tickable(j) && Queues(j, now)
    ensures !j.running && !j.paused
    ensures j.offset >= 1 ==> j.wait && !TickJob(j, now).wait && now % j.offset == 0
  {
  }

  lemma HealthyTickable(jobs: map<int, JobView>)
    requires Healthy(jobs)
    ensures AllTickable(jobs)
  {
  }

  lemma ViewOf(rules: seq<Rule>, i: nat)
    requires i < |rules|
    ensures RuleViews(rules)[i] == rules[i].View()
  {
  }

  lemma UpdateStarts(jobs: map<int, JobView>, rules: seq<RuleView>)
    ensures UpdateUpTo(jobs, rules, 0) == map[]
  {
  }

  lemma UpdateStep(jobs: map<int, JobView>, rules: seq<RuleView>, i: nat)
    requires i < |rules|
    ensures UpdateUpTo(jobs, rules, i + 1) == UpdateUpTo(jobs, rules, i)[rules[i].id := UpdatedJob(jobs, rules, i)]
  {
  }
}
