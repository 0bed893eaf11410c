/**
  A job that fails whenever it is claimed, in any run of the scheduler: how often it is claimed, how long it is
  made to wait, and how long it lasts.
 */
module Retries {
  import opened Jobs
  import opened Backoff
  import opened Scheduler
  import opened SchedulerSafety
  import opened SchedulerSettles

  // ----- The schedule

  ghost function Total(waits: seq<int>): int {
    if waits == [] then 0 else Total(waits[..|waits| - 1]) + waits[|waits| - 1]
  }

  /** Minutes scheduled before jitter over the first n failures. */
  function ScheduledMinutes(n: nat): int {
    if n == 0 then 0 else ScheduledMinutes(n - 1) + Minutes(n - 1)
  }

  /** Each wait was drawn for the number of attempts before it. */
  ghost predicate Drawn(waits: seq<int>) {
    forall j :: 0 <= j < |waits| ==> IsQueueDelay(j, waits[j])
  }

  /** The waits drawn over n failures stay within a quarter of the schedule. */
  lemma {:induction false} TotalWaitRange(waits: seq<int>)
    requires Drawn(waits) && 0 < |waits| <= MAX_ATTEMPTS
    ensures ScheduledMinutes(|waits|) * 45 * SECOND <= Total(waits) < ScheduledMinutes(|waits|) * 75 * SECOND
    decreases |waits|
  {
    var n := |waits| - 1;
    QueueDelayRange(n, waits[n]);
    if n > 0 {
      TotalWaitRange(waits[..n]);
    } else {
      assert ScheduledMinutes(1) == Minutes(0);
    }
  }

  lemma ScheduleTotal()
    ensures ScheduledMinutes(9) == 122
  {
    PowersOfTwo();
    assert ScheduledMinutes(3) == 4;
    assert ScheduledMinutes(6) == 32;
  }

  // ----- One row along a run

  /** The jobs whose retries wait exponentially. */
  predicate BacksOff(k: Key) {
    k.kind == Catalog || k.kind == Thread || k.kind == Download || k.kind == Backfill
  }

  lemma FailDraws(cfg: Config, s: World, a: Action, id: int)
    requires Safe(s) && Enabled(cfg, s, a) && id in s.jobs && EffectOn(s, a, id).HasFailed?
    ensures s.jobs[id].status == InProgress
    ensures Apply(cfg, s, a).jobs[id] == FailedOnce(s.jobs[id], s.now + a.wait)
    ensures BacksOff(s.jobs[id].key) ==> IsQueueDelay(s.jobs[id].attempts, a.wait)
  {
    var t := PcOf(s, a.w).ticket;
    assert Holds(s, a.w, t);
    var roll: nat :| IsWait(t, a.wait, roll);
  }

  /**
    In every run a failing job is put back for its backoff, a minute doubling up to thirty within a quarter either
    way, or for exactly one minute when it is no poll, download or backfill; its tenth failure is final.
   */
  lemma FailureWaits(cfg: Config, run: seq<World>, actions: seq<Action>, i: nat, w: int, wait: int)
    requires IsRun(cfg, run, actions) && i < |actions| && actions[i] == Fail(w, wait)
    ensures w in run[i].workers && Holding(run[i].workers[w].pc).Some?
    ensures var id := Holding(run[i].workers[w].pc).value.id;
            id in run[i].jobs && var j := run[i].jobs[id];
            && j.status == InProgress && 0 <= j.attempts < 10
            && run[i + 1].jobs == run[i].jobs[id := if j.attempts == 9 then j.(attempts := 10, status := Failed)
                                                    else j.(attempts := j.attempts + 1, status := Pending,
                                                            runAfter := run[i].now + wait)]
            && (BacksOff(j.key) ==>
                  var minutes := if j.attempts >= 6 then 30 else if j.attempts == 5 then 16
                                 else if j.attempts == 4 then 8 else if j.attempts == 3 then 4
                                 else if j.attempts == 2 then 2 else 1;
                  minutes * 45 * SECOND <= wait < minutes * 75 * SECOND)
            && (!BacksOff(j.key) ==> wait == 60 * SECOND)
  {
    RunSafe(cfg, run, actions, i);
    ClaimsBounded(cfg, run, actions, i);
    hide Safe, Enabled, Apply, IsQueueDelay;
    FailedRow(cfg, run[i], w, wait);
    var j := run[i].jobs[Holding(run[i].workers[w].pc).value.id];
    if BacksOff(j.key) {
      WaitInMinutes(j.attempts, wait);
    }
  }

  lemma FailedRow(cfg: Config, s: World, w: int, wait: int)
    requires Safe(s) && ClaimsCounted(s) && Enabled(cfg, s, Fail(w, wait))
    ensures w in s.workers && Holding(s.workers[w].pc).Some?
    ensures var id := Holding(s.workers[w].pc).value.id;
            && id in s.jobs && s.jobs[id].status == InProgress && 0 <= s.jobs[id].attempts < 10
            && Apply(cfg, s, Fail(w, wait)).jobs ==
                    s.jobs[id := if s.jobs[id].attempts == 9 then s.jobs[id].(attempts := 10, status := Failed)
                                 else s.jobs[id].(attempts := s.jobs[id].attempts + 1, status := Pending,
                                                  runAfter := s.now + wait)]
            && (if BacksOff(s.jobs[id].key) then IsQueueDelay(s.jobs[id].attempts, wait) else wait == 60 * SECOND)
  {
    var t := PcOf(s, w).ticket;
    assert Holds(s, w, t) && JobOk(s.jobs[t.id]);
    hide Safe;
    FailDraws(cfg, s, Fail(w, wait), t.id);
    var roll: nat :| IsWait(t, wait, roll);
    hide IsQueueDelay;
  }

  /** The schedule's first minutes. */
  lemma WaitInMinutes(attempts: nat, wait: int)
    requires attempts < 10 && IsQueueDelay(attempts, wait)
    ensures var minutes := if attempts >= 6 then 30 else if attempts == 5 then 16 else if attempts == 4 then 8
                           else if attempts == 3 then 4 else if attempts == 2 then 2 else 1;
            minutes * 45 * SECOND <= wait < minutes * 75 * SECOND
  {
    QueueDelayRange(attempts, wait);
    PowersOfTwo();
    hide IsQueueDelay;
  }

  /** The waits of a job's failures so far, in order. */
  ghost function Waits(run: seq<World>, actions: seq<Action>, id: int, i: nat): seq<int>
    requires i <= |actions| && i < |run|
  {
    if i == 0 then []
    else
      var before := Waits(run, actions, id, i - 1);
      match EffectOn(run[i - 1], actions[i - 1], id)
      case HasFailed(wait) => before + [wait]
      case _ => before
  }

  ghost function ClaimsTaken(run: seq<World>, actions: seq<Action>, id: int, i: nat): nat
    requires i <= |actions| && i < |run|
  {
    if i == 0 then 0
    else ClaimsTaken(run, actions, id, i - 1) + if EffectOn(run[i - 1], actions[i - 1], id).WasClaimed? then 1 else 0
  }

  /** What the steps so far say about row id. */
  ghost predicate Told(s: World, id: int, waits: seq<int>, claims: nat) {
    if id !in s.jobs then waits == [] && claims == 0
    else
      && s.jobs[id].attempts == |waits|
      && claims == ClaimsDue(s.jobs[id])
      && (BacksOff(s.jobs[id].key) ==> Drawn(waits))
  }

  lemma ToldAfter(cfg: Config, s: World, a: Action, id: int, waits: seq<int>, claims: nat)
    requires Safe(s) && Enabled(cfg, s, a) && id in s.jobs && Told(s, id, waits, claims)
    ensures Told(Apply(cfg, s, a), id,
                 if EffectOn(s, a, id).HasFailed? then waits + [EffectOn(s, a, id).wait] else waits,
                 if EffectOn(s, a, id).WasClaimed? then claims + 1 else claims)
  {
    hide Safe, Enabled, Apply;
    RowAfter(cfg, s, a, id);
    if EffectOn(s, a, id).HasFailed? {
      FailDraws(cfg, s, a, id);
    }
  }

  lemma NewRowIsFresh(cfg: Config, s: World, a: Action, id: int)
    requires Safe(s) && Enabled(cfg, s, a) && id !in s.jobs
    ensures EffectOn(s, a, id).Untouched?
    ensures id in Apply(cfg, s, a).jobs ==>
              Apply(cfg, s, a).jobs[id].attempts == 0 && Apply(cfg, s, a).jobs[id].status == Pending
  {
    hide UniqueActive, GatesHold, JobsOk;
  }

  lemma {:induction false} RunTells(cfg: Config, run: seq<World>, actions: seq<Action>, id: int, i: nat)
    requires IsRun(cfg, run, actions) && i < |run|
    ensures Told(run[i], id, Waits(run, actions, id, i), ClaimsTaken(run, actions, id, i))
  {
    if i > 0 {
      RunTells(cfg, run, actions, id, i - 1);
      RunSafe(cfg, run, actions, i - 1);
      if id in run[i - 1].jobs {
        ToldAfter(cfg, run[i - 1], actions[i - 1], id,
                  Waits(run, actions, id, i - 1), ClaimsTaken(run, actions, id, i - 1));
      } else {
        NewRowIsFresh(cfg, run[i - 1], actions[i - 1], id);
      }
    }
  }

  /**
    In every run a job has failed for good exactly when it failed ten times, after as many claims; it never
    fails more often. The nine waits in between total at least 91.5 and less than 152.5 minutes.
   */
  lemma AlwaysFailingJob(cfg: Config, run: seq<World>, actions: seq<Action>, id: int, i: nat)
    requires IsRun(cfg, run, actions) && i < |run| && id in run[i].jobs
    ensures var waits, j := Waits(run, actions, id, i), run[i].jobs[id];
            && |waits| <= 10
            && (j.status == Failed <==> |waits| == 10)
            && (j.status == Failed ==> ClaimsTaken(run, actions, id, i) == 10)
            && (|waits| == 10 && BacksOff(j.key) ==> 5490 * SECOND <= Total(waits[..9]) < 9150 * SECOND)
  {
    RunTells(cfg, run, actions, id, i);
    RunSafe(cfg, run, actions, i);
    ClaimsBounded(cfg, run, actions, i);
    assert JobOk(run[i].jobs[id]);
    var waits := Waits(run, actions, id, i);
    if |waits| == 10 && BacksOff(run[i].jobs[id].key) {
      TotalWaitRange(waits[..9]);
      ScheduleTotal();
    }
  }

  // ----- How long it lasts

  /** The job's first claim lies at least its waits in the past: by now, or by when it may be claimed again. */
  ghost predicate Outlasts(s: World, id: int, since: int, waits: seq<int>)
    requires id in s.jobs
  {
    Active(s.jobs[id]) ==> since + Total(waits) <= if s.jobs[id].status == Pending then s.jobs[id].runAfter else s.now
  }

  lemma OutlastsAfter(cfg: Config, s: World, a: Action, id: int, since: int, waits: seq<int>)
    requires Safe(s) && Enabled(cfg, s, a) && id in s.jobs && Outlasts(s, id, since, waits)
    ensures id in Apply(cfg, s, a).jobs
    ensures Outlasts(Apply(cfg, s, a), id, since,
                     if EffectOn(s, a, id).HasFailed? then waits + [EffectOn(s, a, id).wait] else waits)
  {
    hide Safe, Enabled, Apply;
    RowAfter(cfg, s, a, id);
    if EffectOn(s, a, id).HasFailed? {
      var wait := EffectOn(s, a, id).wait;
      assert (waits + [wait])[..|waits|] == waits;
      assert Total(waits + [wait]) == Total(waits) + wait;
    }
  }

  lemma FirstClaimed(cfg: Config, s: World, a: Action, id: int)
    requires Safe(s) && Enabled(cfg, s, a) && EffectOn(s, a, id).WasClaimed?
    ensures id in Apply(cfg, s, a).jobs && Outlasts(Apply(cfg, s, a), id, s.now, [])
  {
    hide Safe;
    RowAfter(cfg, s, a, id);
  }

  lemma WaitsStep(run: seq<World>, actions: seq<Action>, id: int, i: nat)
    requires 0 < i <= |actions| && i < |run|
    ensures var before, effect := Waits(run, actions, id, i - 1), EffectOn(run[i - 1], actions[i - 1], id);
            Waits(run, actions, id, i) == if effect.HasFailed? then before + [effect.wait] else before
  {
  }

  lemma {:induction false} WaitsPass(cfg: Config, run: seq<World>, actions: seq<Action>, id: int, first: nat, i: nat)
    requires IsRun(cfg, run, actions) && first < i < |run|
    requires EffectOn(run[first], actions[first], id).WasClaimed? && Waits(run, actions, id, first) == []
    ensures id in run[i].jobs && Outlasts(run[i], id, run[first].now, Waits(run, actions, id, i))
    decreases i
  {
    hide Safe, Enabled, Apply, Waits, Outlasts, EffectOn;
    RunSafe(cfg, run, actions, i - 1);
    WaitsStep(run, actions, id, i);
    if i == first + 1 {
      FirstClaimed(cfg, run[first], actions[first], id);
    } else {
      WaitsPass(cfg, run, actions, id, first, i - 1);
      OutlastsAfter(cfg, run[i - 1], actions[i - 1], id, run[first].now, Waits(run, actions, id, i - 1));
    }
  }

  /** Between the first claim of a job and its tenth at least 91.5 minutes pass on the clock. */
  lemma TenClaimsTakeTime(cfg: Config, run: seq<World>, actions: seq<Action>, id: int, first: nat, last: nat)
    requires IsRun(cfg, run, actions) && first < last < |actions|
    requires EffectOn(run[first], actions[first], id).WasClaimed? && Waits(run, actions, id, first) == []
    requires EffectOn(run[last], actions[last], id).WasClaimed? && |Waits(run, actions, id, last)| == 9
    requires id in run[last].jobs && BacksOff(run[last].jobs[id].key)
    ensures run[last].now >= run[first].now + 5490 * SECOND
  {
    RunSafe(cfg, run, actions, last);
    RowAfter(cfg, run[last], actions[last], id);
    WaitsPass(cfg, run, actions, id, first, last);
    RunTells(cfg, run, actions, id, last);
    TotalWaitRange(Waits(run, actions, id, last));
    ScheduleTotal();
  }
}
