/**
  The circuit breaker with one worker per site: no claims while the circuit is open, and failures at or
  above the threshold are at least the cooldown apart.
 */
module SchedulerBreaker {
  import opened Options
  import opened Backoff
  import opened SiteHealth
  import opened Scheduler

  ghost predicate OneWorkerPerSite(s: World) {
    forall v, w :: v in s.workers && w in s.workers && s.workers[v].site == s.workers[w].site ==> v == w
  }

  ghost predicate WellFormed(cfg: Config, s: World) {
    && cfg.threshold >= 1 && OneWorkerPerSite(s)
    && forall w :: w in s.workers ==> s.workers[w].site in s.health && s.workers[w].site in cfg.poll
  }

  /** Past the circuit check, up to the moment the outcome is recorded. */
  predicate Through(pc: Pc) {
    pc.Cleared? || pc.Running? || pc.SiteFailing? || pc.Succeeding?
  }

  /** The open circuit reaches at least a cooldown past the last counted failure. */
  predicate Covers(cfg: Config, site: int, h: Health, m: Mark)
    requires site in cfg.poll
  {
    h.failures >= 1 && h.open && h.until.Some? && h.until.value >= m.at + CircuitCooldown(cfg.poll[site], h.failures)
  }

  /** What holds of one site and its only worker. */
  predicate SiteOk(cfg: Config, now: int, site: int, h: Health, m: Option<Mark>, pc: Pc)
    requires site in cfg.poll
  {
    && h.failures >= 0
    && (h.open ==> h.until.Some? && h.failures >= cfg.threshold)
    && (h.failures > 0 ==> m.Some? && m.value.count == h.failures && m.value.at <= now)
    && (pc.Tripping? ==> pc.count == h.failures >= cfg.threshold)
    && (!pc.Tripping? && h.failures >= cfg.threshold && h.failures > 0 ==> m.Some? && Covers(cfg, site, h, m.value))
    && (Through(pc) && h.open ==> h.until.value <= now)
    && (pc.Asleep? ==> h.until == Some(pc.wakeAt))
  }

  function MarkOf(s: World, site: int): Option<Mark> {
    if site in s.marks then Some(s.marks[site]) else None
  }

  predicate WorkerOk(cfg: Config, s: World, w: int)
    requires w in s.workers && s.workers[w].site in s.health && s.workers[w].site in cfg.poll
  {
    var site := s.workers[w].site;
    SiteOk(cfg, s.now, site, s.health[site], MarkOf(s, site), s.workers[w].pc)
  }

  ghost predicate Guarded(cfg: Config, s: World) {
    WellFormed(cfg, s) && forall w :: w in s.workers ==> WorkerOk(cfg, s, w)
  }

  lemma InitGuarded(cfg: Config, s: World)
    requires Init(cfg, s) && cfg.threshold >= 1 && OneWorkerPerSite(s)
    ensures Guarded(cfg, s)
  {
  }

  /** A step of worker w leaves every other worker's site alone. */
  lemma OthersUnaffected(cfg: Config, s: World, s': World, w: int)
    requires Guarded(cfg, s) && w in s.workers
    requires s'.now == s.now && s'.workers.Keys == s.workers.Keys && s'.health.Keys == s.health.Keys
    requires s'.workers[w].site == s.workers[w].site
    requires forall v :: v in s.workers && v != w ==> s'.workers[v] == s.workers[v]
    requires forall site :: site in s.health && site != s.workers[w].site ==>
               s'.health[site] == s.health[site] && MarkOf(s', site) == MarkOf(s, site)
    requires WorkerOk(cfg, s', w)
    ensures Guarded(cfg, s')
  {
    forall v | v in s'.workers
      ensures WorkerOk(cfg, s', v)
    {
      if v != w {
        assert WorkerOk(cfg, s, v);
      }
    }
  }

  lemma TickGuarded(cfg: Config, s: World, to: int)
    requires Guarded(cfg, s) && s.now <= to
    ensures Guarded(cfg, s.(now := to))
  {
    forall w | w in s.workers
      ensures WorkerOk(cfg, s.(now := to), w)
    {
      assert WorkerOk(cfg, s, w);
    }
  }

  /** Steps of supervisors, and those that only change the jobs. */
  lemma ElsewhereGuarded(cfg: Config, s: World, s': World)
    requires Guarded(cfg, s)
    requires s'.now == s.now && s'.workers == s.workers && s'.health == s.health && s'.marks == s.marks
    ensures Guarded(cfg, s')
  {
    forall w | w in s'.workers
      ensures WorkerOk(cfg, s', w)
    {
      assert WorkerOk(cfg, s, w);
    }
  }

  lemma CooldownGap(cfg: Config, s: World, w: int)
    requires Guarded(cfg, s) && Enabled(cfg, s, RecordFailure(w))
    ensures var site := SiteOf(s, w);
            s.health[site].failures >= cfg.threshold ==>
              MarkOf(s, site).Some?
              && s.marks[site].count == s.health[site].failures
              && s.now >= s.marks[site].at + CircuitCooldown(cfg.poll[site], s.health[site].failures)
  {
    assert WorkerOk(cfg, s, w);
  }

  lemma StepGuarded(cfg: Config, s: World, a: Action)
    requires Guarded(cfg, s) && Enabled(cfg, s, a)
    ensures Guarded(cfg, Apply(cfg, s, a))
  {
    hide Enabled, Apply, Guarded, WorkerOk;
    var s' := Apply(cfg, s, a);
    match WorkerOf(a)
    case None => OtherStepGuarded(cfg, s, a);
    case Some(w) =>
      WorkerStepOk(cfg, s, a, w);
      WorkerStepLocal(cfg, s, a, w);
      OthersUnaffected(cfg, s, s', w);
  }

  lemma OtherStepGuarded(cfg: Config, s: World, a: Action)
    requires Guarded(cfg, s) && Enabled(cfg, s, a) && WorkerOf(a) == None
    ensures Guarded(cfg, Apply(cfg, s, a))
  {
    hide Guarded;
    if a.Tick? {
      TickGuarded(cfg, s, a.to);
    } else {
      ElsewhereGuarded(cfg, s, Apply(cfg, s, a));
    }
  }

  lemma WorkerStepLocal(cfg: Config, s: World, a: Action, w: int)
    requires Enabled(cfg, s, a) && WorkerOf(a) == Some(w)
    ensures var s' := Apply(cfg, s, a);
            && w in s.workers && s'.now == s.now
            && s'.workers.Keys == s.workers.Keys && s'.health.Keys == s.health.Keys
            && s'.workers[w].site == s.workers[w].site
            && (forall v :: v in s.workers && v != w ==> s'.workers[v] == s.workers[v])
            && forall site :: site in s.health && site != s.workers[w].site ==>
                 s'.health[site] == s.health[site] && MarkOf(s', site) == MarkOf(s, site)
  {
  }

  lemma OutcomeStepOk(cfg: Config, s: World, a: Action, w: int)
    requires Guarded(cfg, s) && Enabled(cfg, s, a) && WorkerOf(a) == Some(w)
    requires a.RecordFailure? || a.Trip? || a.RecordSuccess?
    ensures w in s.workers && WorkerOk(cfg, s, w)
    ensures w in Apply(cfg, s, a).workers && Apply(cfg, s, a).workers[w].site in Apply(cfg, s, a).health
    ensures Apply(cfg, s, a).workers[w].site == s.workers[w].site
    ensures WorkerOk(cfg, Apply(cfg, s, a), w)
  {
    assert WorkerOk(cfg, s, w);
  }

  lemma MoveStepOk(cfg: Config, s: World, a: Action, w: int)
    requires Guarded(cfg, s) && Enabled(cfg, s, a) && WorkerOf(a) == Some(w)
    requires !a.RecordFailure? && !a.Trip? && !a.RecordSuccess?
    ensures w in s.workers && WorkerOk(cfg, s, w)
    ensures w in Apply(cfg, s, a).workers && Apply(cfg, s, a).workers[w].site in Apply(cfg, s, a).health
    ensures Apply(cfg, s, a).workers[w].site == s.workers[w].site
    ensures WorkerOk(cfg, Apply(cfg, s, a), w)
  {
    assert WorkerOk(cfg, s, w);
  }

  lemma WorkerStepOk(cfg: Config, s: World, a: Action, w: int)
    requires Guarded(cfg, s) && Enabled(cfg, s, a) && WorkerOf(a) == Some(w)
    ensures w in s.workers && WorkerOk(cfg, s, w)
    ensures w in Apply(cfg, s, a).workers && Apply(cfg, s, a).workers[w].site in Apply(cfg, s, a).health
    ensures Apply(cfg, s, a).workers[w].site == s.workers[w].site
    ensures WorkerOk(cfg, Apply(cfg, s, a), w)
  {
    hide Enabled, Apply, WorkerOk, Guarded;
    if a.RecordFailure? || a.Trip? || a.RecordSuccess? {
      OutcomeStepOk(cfg, s, a, w);
    } else {
      MoveStepOk(cfg, s, a, w);
    }
  }

  lemma {:induction false} RunGuarded(cfg: Config, run: seq<World>, actions: seq<Action>, i: nat)
    requires IsRun(cfg, run, actions) && i < |run|
    requires cfg.threshold >= 1 && OneWorkerPerSite(run[0])
    ensures Guarded(cfg, run[i])
  {
    if i == 0 {
      InitGuarded(cfg, run[0]);
    } else {
      RunGuarded(cfg, run, actions, i - 1);
      StepGuarded(cfg, run[i - 1], actions[i - 1]);
    }
  }

  /** In every run, an open circuit means the threshold was reached, and no job is claimed before its deadline. */
  lemma NoClaimWhileOpen(cfg: Config, run: seq<World>, actions: seq<Action>, i: nat, w: int, id: int)
    requires IsRun(cfg, run, actions) && i < |actions| && actions[i] == Claim(w, id)
    requires cfg.threshold >= 1 && OneWorkerPerSite(run[0])
    ensures var h := run[i].health[SiteOf(run[i], w)];
            h.open ==> h.failures >= cfg.threshold && h.until.Some? && h.until.value <= run[i].now
  {
    RunGuarded(cfg, run, actions, i);
    assert WorkerOk(cfg, run[i], w);
  }

  /**
    In every run, a failure counted when n >= threshold are already counted comes at least the cooldown of n
    after the n-th.
   */
  lemma FailuresAreSpaced(cfg: Config, run: seq<World>, actions: seq<Action>, i: nat, w: int)
    requires IsRun(cfg, run, actions) && i < |actions| && actions[i] == RecordFailure(w)
    requires cfg.threshold >= 1 && OneWorkerPerSite(run[0])
    ensures var site := SiteOf(run[i], w);
            var n := run[i].health[site].failures;
            n >= cfg.threshold ==>
              site in cfg.poll && site in run[i].marks && run[i].marks[site].count == n
              && run[i].now >= run[i].marks[site].at + CircuitCooldown(cfg.poll[site], n)
  {
    RunGuarded(cfg, run, actions, i);
    CooldownGap(cfg, run[i], w);
  }

  /** The step counts a failure of the site. */
  predicate CountsFailure(s: World, a: Action, site: int) {
    a.RecordFailure? && At(s, a.w) && SiteOf(s, a.w) == site
  }

  lemma StepKeepsMark(cfg: Config, s: World, a: Action, site: int)
    requires Enabled(cfg, s, a)
    ensures var s' := Apply(cfg, s, a);
            if CountsFailure(s, a, site)
            then MarkOf(s', site) == Some(Mark(s.now, s.health[site].failures + 1))
            else MarkOf(s', site) == MarkOf(s, site)
  {
  }

  /** A mark is what the last step that counted a failure of its site saw. */
  lemma {:induction false} MarkIsLastFailure(cfg: Config, run: seq<World>, actions: seq<Action>, i: nat, site: int)
    returns (j: nat)
    requires IsRun(cfg, run, actions) && i < |run| && site in run[i].marks
    ensures j < i && CountsFailure(run[j], actions[j], site)
    ensures run[i].marks[site] == Mark(run[j].now, run[j].health[site].failures + 1)
    ensures forall k :: j < k < i ==> !CountsFailure(run[k], actions[k], site)
  {
    hide Apply, Enabled, CountsFailure;
    StepKeepsMark(cfg, run[i - 1], actions[i - 1], site);
    if CountsFailure(run[i - 1], actions[i - 1], site) {
      j := i - 1;
    } else {
      j := MarkIsLastFailure(cfg, run, actions, i - 1, site);
    }
  }

  /**
    Two counted failures of a site with none in between, the first of them the n-th in a row and n at or
    above the threshold: unless a success came in between, they are at least the cooldown of n apart.
   */
  lemma ConsecutiveFailuresSpaced(cfg: Config, run: seq<World>, actions: seq<Action>, j: nat, i: nat, site: int)
    requires IsRun(cfg, run, actions) && j < i < |actions|
    requires cfg.threshold >= 1 && OneWorkerPerSite(run[0]) && site in cfg.poll
    requires CountsFailure(run[j], actions[j], site) && CountsFailure(run[i], actions[i], site)
    requires forall k :: j < k < i ==> !CountsFailure(run[k], actions[k], site)
    requires run[i].health[site].failures == run[j].health[site].failures + 1 >= cfg.threshold
    ensures run[i].now >= run[j].now + CircuitCooldown(cfg.poll[site], run[i].health[site].failures)
  {
    FailuresAreSpaced(cfg, run, actions, i, actions[i].w);
    var k := MarkIsLastFailure(cfg, run, actions, i, site);
    assert k == j;
  }
}
