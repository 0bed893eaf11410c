/**
  Site health over every run of the scheduler, with any number of workers per site: what the failure count counts,
  what a success resets, which jobs it is about, and when the circuit opens.
 */
module SchedulerHealth {
  import opened Options
  import opened Backoff
  import opened Jobs
  import opened SiteHealth
  import opened Scheduler
  import opened SchedulerSafety
  import opened SchedulerBreaker

  predicate CountsSuccess(s: World, a: Action, site: int) {
    a.RecordSuccess? && At(s, a.w) && SiteOf(s, a.w) == site
  }

  /** How many failures of a site the steps from j up to i counted. */
  ghost function FailuresIn(run: seq<World>, actions: seq<Action>, site: int, j: nat, i: nat): nat
    requires j <= i <= |actions| && i < |run|
    decreases i
  {
    if j == i then 0
    else FailuresIn(run, actions, site, j, i - 1) + if CountsFailure(run[i - 1], actions[i - 1], site) then 1 else 0
  }

  lemma HealthUntouched(cfg: Config, s: World, a: Action)
    requires Enabled(cfg, s, a) && !a.RecordFailure? && !a.RecordSuccess? && !a.Trip?
    ensures Apply(cfg, s, a).health == s.health
  {
  }

  lemma HealthTouched(cfg: Config, s: World, a: Action)
    requires Enabled(cfg, s, a) && (a.RecordFailure? || a.RecordSuccess? || a.Trip?)
    ensures At(s, a.w)
    ensures var site := SiteOf(s, a.w);
            && site in Apply(cfg, s, a).health
            && Apply(cfg, s, a).health == s.health[site := Apply(cfg, s, a).health[site]]
            && (a.RecordSuccess? ==> Apply(cfg, s, a).health[site] == Health(0, false, None, Some(s.now)))
            && (!a.RecordSuccess? ==>
                  Apply(cfg, s, a).health[site].failures == s.health[site].failures + if a.RecordFailure? then 1 else 0)
  {
  }

  lemma StepCounts(cfg: Config, s: World, a: Action, site: int)
    requires Enabled(cfg, s, a) && site in s.health
    ensures site in Apply(cfg, s, a).health
    ensures var h, h' := s.health[site], Apply(cfg, s, a).health[site];
            && (CountsSuccess(s, a, site) ==> h' == Health(0, false, None, Some(s.now)))
            && (!CountsSuccess(s, a, site) ==>
                  h'.failures == h.failures + if CountsFailure(s, a, site) then 1 else 0)
  {
    hide Enabled, Apply;
    if a.RecordFailure? || a.RecordSuccess? || a.Trip? {
      HealthTouched(cfg, s, a);
    } else {
      HealthUntouched(cfg, s, a);
    }
  }

  lemma {:induction false} SitesStay(cfg: Config, run: seq<World>, actions: seq<Action>, site: int, i: nat)
    requires IsRun(cfg, run, actions) && i < |run|
    ensures site in run[i].health <==> site in run[0].health
  {
    hide Enabled, Apply;
    if i > 0 {
      SitesStay(cfg, run, actions, site, i - 1);
      SameSites(cfg, run[i - 1], actions[i - 1]);
    }
  }

  lemma SameSites(cfg: Config, s: World, a: Action)
    requires Enabled(cfg, s, a)
    ensures Apply(cfg, s, a).health.Keys == s.health.Keys
  {
    if a.RecordFailure? || a.RecordSuccess? || a.Trip? {
      HealthTouched(cfg, s, a);
      hide Apply;
    } else {
      HealthUntouched(cfg, s, a);
      hide *;
    }
  }

  /**
    In every run a site's failure count is the number of its failures since its last recorded success, or since
    the start when there was none.
   */
  lemma {:induction false} CountIsSinceSuccess(cfg: Config, run: seq<World>, actions: seq<Action>, site: int, j: nat,
                                               i: nat)
    requires IsRun(cfg, run, actions) && j <= i < |run| && site in run[0].health
    requires j == 0 || CountsSuccess(run[j - 1], actions[j - 1], site)
    requires forall k :: j <= k < i ==> !CountsSuccess(run[k], actions[k], site)
    ensures site in run[i].health && run[i].health[site].failures == FailuresIn(run, actions, site, j, i)
    decreases i
  {
    hide Apply, Enabled, CountsFailure, CountsSuccess;
    SitesStay(cfg, run, actions, site, i);
    if i > 0 {
      SitesStay(cfg, run, actions, site, i - 1);
      StepCounts(cfg, run[i - 1], actions[i - 1], site);
      if j < i {
        CountIsSinceSuccess(cfg, run, actions, site, j, i - 1);
      }
    }
  }

  /** Right after a recorded success the site has no failures counted and its circuit is closed. */
  lemma SuccessCloses(cfg: Config, run: seq<World>, actions: seq<Action>, i: nat, w: int)
    requires IsRun(cfg, run, actions) && i < |actions| && actions[i] == RecordSuccess(w)
    ensures w in run[i].workers && run[i].workers[w].site in run[i + 1].health
    ensures run[i + 1].health[run[i].workers[w].site] == Health(0, false, None, Some(run[i].now))
  {
    StepCounts(cfg, run[i], actions[i], SiteOf(run[i], w));
  }

  // ----- Only polls count, and each for the worker's own site

  /** A worker serves its own site, and only with a poll at hand is it about to touch the site's health. */
  predicate Serves(worker: Worker) {
    && (Holding(worker.pc).Some? ==> Holding(worker.pc).value.key.site == worker.site)
    && match worker.pc
       case SiteFailing(t) => Polls(t.key)
       case Tripping(t, _) => Polls(t.key)
       case Succeeding(t) => Polls(t.key)
       case Following(done) => Polls(done) && done.site == worker.site
       case _ => true
  }

  ghost predicate AllServe(s: World) {
    forall w :: w in s.workers ==> Serves(s.workers[w])
  }

  lemma ClaimServes(cfg: Config, s: World, a: Action, w: int)
    requires Enabled(cfg, s, a) && a.Claim? && a.w == w
    ensures w in Apply(cfg, s, a).workers && Serves(Apply(cfg, s, a).workers[w])
  {
  }

  lemma MoveServes(cfg: Config, s: World, a: Action, w: int)
    requires Enabled(cfg, s, a) && WorkerOf(a) == Some(w) && !a.Claim? && w in s.workers && Serves(s.workers[w])
    ensures w in Apply(cfg, s, a).workers && Serves(Apply(cfg, s, a).workers[w])
  {
  }

  lemma StepServes(cfg: Config, s: World, a: Action, w: int)
    requires Enabled(cfg, s, a) && WorkerOf(a) == Some(w) && w in s.workers && Serves(s.workers[w])
    ensures w in Apply(cfg, s, a).workers && Serves(Apply(cfg, s, a).workers[w])
  {
    hide Enabled, Apply, Serves;
    if a.Claim? {
      ClaimServes(cfg, s, a, w);
    } else {
      MoveServes(cfg, s, a, w);
    }
  }

  lemma OthersStay(cfg: Config, s: World, a: Action)
    requires Enabled(cfg, s, a) && WorkerOf(a) == None
    ensures Apply(cfg, s, a).workers == s.workers
  {
  }

  lemma StepAllServe(cfg: Config, s: World, a: Action)
    requires Enabled(cfg, s, a) && AllServe(s)
    ensures AllServe(Apply(cfg, s, a))
  {
    hide Enabled, Apply, Serves;
    match WorkerOf(a)
    case None => OthersStay(cfg, s, a);
    case Some(w) =>
      WorkerStepLocal(cfg, s, a, w);
      StepServes(cfg, s, a, w);
  }

  lemma {:induction false} RunServes(cfg: Config, run: seq<World>, actions: seq<Action>, i: nat)
    requires IsRun(cfg, run, actions) && i < |run|
    ensures AllServe(run[i])
  {
    if i > 0 {
      RunServes(cfg, run, actions, i - 1);
      StepAllServe(cfg, run[i - 1], actions[i - 1]);
    }
  }

  /** Whatever changes a site's health, in every run, is a catalog or thread poll of that site in progress. */
  lemma OnlyPollsCount(cfg: Config, run: seq<World>, actions: seq<Action>, i: nat, w: int)
    requires IsRun(cfg, run, actions) && i < |actions|
    requires actions[i] in {RecordFailure(w), RecordSuccess(w), Trip(w)}
    ensures w in run[i].workers && Holding(run[i].workers[w].pc).Some?
    ensures var id := Holding(run[i].workers[w].pc).value.id;
            && id in run[i].jobs && run[i].jobs[id].status == InProgress
            && run[i].jobs[id].key.site == run[i].workers[w].site
            && (run[i].jobs[id].key.kind == Catalog || run[i].jobs[id].key.kind == Thread)
  {
    RunServes(cfg, run, actions, i);
    RunSafe(cfg, run, actions, i);
    var t := Holding(run[i].workers[w].pc).value;
    assert Serves(run[i].workers[w]);
    assert Holds(run[i], w, t);
  }

  // ----- The circuit opens at the threshold

  lemma {:induction false} PcStays(cfg: Config, run: seq<World>, actions: seq<Action>, i: nat, m: nat, w: int)
    requires IsRun(cfg, run, actions) && i <= m < |run| && w in run[i].workers
    requires forall k :: i <= k < m ==> WorkerOf(actions[k]) != Some(w)
    ensures w in run[m].workers && run[m].workers[w] == run[i].workers[w]
    decreases m
  {
    hide Enabled, Apply;
    if i < m {
      PcStays(cfg, run, actions, i, m - 1, w);
      match WorkerOf(actions[m - 1])
      case None => OthersStay(cfg, run[m - 1], actions[m - 1]);
      case Some(v) => WorkerStepLocal(cfg, run[m - 1], actions[m - 1], v);
    }
  }

  lemma FailureStep(cfg: Config, s: World, w: int)
    requires Enabled(cfg, s, RecordFailure(w))
    ensures var s' := Apply(cfg, s, RecordFailure(w));
            && At(s, w) && At(s', w) && SiteOf(s', w) == SiteOf(s, w)
            && s'.health[SiteOf(s, w)].failures == s.health[SiteOf(s, w)].failures + 1
            && (s'.health[SiteOf(s, w)].failures >= cfg.threshold ==>
                  PcOf(s', w).Tripping? && PcOf(s', w).count == s'.health[SiteOf(s, w)].failures)
            && (s'.health[SiteOf(s, w)].failures < cfg.threshold ==> PcOf(s', w).JobFailing?)
  {
  }

  lemma TripStep(cfg: Config, s: World, a: Action, w: int)
    requires Enabled(cfg, s, a) && WorkerOf(a) == Some(w) && At(s, w) && PcOf(s, w).Tripping?
    ensures a == Trip(w) && SiteOf(s, w) in cfg.poll && PcOf(s, w).count >= 1
    ensures var s' := Apply(cfg, s, a);
            && SiteOf(s, w) in s'.health && s'.health[SiteOf(s, w)].open
            && s'.health[SiteOf(s, w)].until == Some(s.now + CircuitCooldown(cfg.poll[SiteOf(s, w)], PcOf(s, w).count))
  {
  }

  /**
    The failure that brings a site's count to n, at or above the threshold, makes the worker's next step open the
    circuit for the cooldown of n; below the threshold its next step leaves the site's health alone.
   */
  lemma ThresholdTrips(cfg: Config, run: seq<World>, actions: seq<Action>, i: nat, m: nat, w: int)
    requires IsRun(cfg, run, actions) && i < m < |actions|
    requires actions[i] == RecordFailure(w) && WorkerOf(actions[m]) == Some(w)
    requires forall k :: i < k < m ==> WorkerOf(actions[k]) != Some(w)
    ensures At(run[i], w) && SiteOf(run[i], w) in run[i + 1].health && SiteOf(run[i], w) in run[m + 1].health
    ensures var site := SiteOf(run[i], w);
            var n := run[i].health[site].failures + 1;
            && run[i + 1].health[site].failures == n
            && (n >= cfg.threshold ==>
                  && actions[m] == Trip(w) && site in cfg.poll && n >= 1
                  && run[m + 1].health[site].open
                  && run[m + 1].health[site].until == Some(run[m].now + CircuitCooldown(cfg.poll[site], n)))
            && (n < cfg.threshold ==> actions[m].Fail? && run[m + 1].health == run[m].health)
  {
    hide Enabled, Apply;
    FailureStep(cfg, run[i], w);
    PcStays(cfg, run, actions, i + 1, m, w);
    var site := SiteOf(run[i], w);
    SitesStay(cfg, run, actions, site, i);
    SitesStay(cfg, run, actions, site, m);
    SitesStay(cfg, run, actions, site, m + 1);
    if PcOf(run[i + 1], w).Tripping? {
      TripStep(cfg, run[m], actions[m], w);
    } else {
      OnlyFails(cfg, run[m], actions[m], w);
    }
  }

  lemma OnlyFails(cfg: Config, s: World, a: Action, w: int)
    requires Enabled(cfg, s, a) && WorkerOf(a) == Some(w) && At(s, w) && PcOf(s, w).JobFailing?
    ensures a.Fail? && Apply(cfg, s, a).health == s.health
  {
  }
}
