/** Every job settles: rows only move towards rest, rest is final, and claims are bounded by the attempt limit. */
module SchedulerSettles {
  import opened Options
  import opened Jobs
  import opened Scheduler
  import opened SchedulerSafety

  // ----- One row across a step

  datatype Effect = Untouched | WasClaimed | HasFailed(wait: int) | WasCompleted

  /** What a step does to row id. */
  function EffectOn(s: World, a: Action, id: int): Effect {
    match a
    case Claim(_, i) => if i == id then WasClaimed else Untouched
    case Fail(w, wait) =>
      if At(s, w) && PcOf(s, w).JobFailing? && PcOf(s, w).ticket.id == id then HasFailed(wait) else Untouched
    case Complete(w) =>
      if At(s, w) && PcOf(s, w).Completing? && PcOf(s, w).ticket.id == id then WasCompleted else Untouched
    case _ => Untouched
  }

  lemma RowAfter(cfg: Config, s: World, a: Action, id: int)
    requires Safe(s) && Enabled(cfg, s, a) && id in s.jobs
    ensures s.now <= Apply(cfg, s, a).now && id in Apply(cfg, s, a).jobs
    ensures var j, j' := s.jobs[id], Apply(cfg, s, a).jobs[id];
            match EffectOn(s, a, id)
            case Untouched => j' == j
            case WasClaimed => j.status == Pending && j.runAfter <= s.now && j' == j.(status := InProgress)
            case HasFailed(wait) => j.status == InProgress && j' == FailedOnce(j, s.now + wait)
            case WasCompleted => j.status == InProgress && j' == j.(status := Done)
  {
    hide Safe;
    match a
    case Fail(w, _) => ReleasedRow(cfg, s, a, w);
    case Complete(w) => ReleasedRow(cfg, s, a, w);
    case Insert(_, _, _) =>
      SafeIds(s);
      InsertKeepsRow(cfg, s, a, id);
    case FollowUp(_, _, _) =>
      SafeIds(s);
      InsertKeepsRow(cfg, s, a, id);
    case _ =>
  }

  lemma SafeIds(s: World)
    requires Safe(s)
    ensures IdsUsed(s)
  {
  }

  lemma ReleasedRow(cfg: Config, s: World, a: Action, w: int)
    requires Safe(s) && Enabled(cfg, s, a) && (a.Fail? || a.Complete?) && WorkerOf(a) == Some(w)
    ensures Holding(PcOf(s, w)).Some? && s.jobs[Holding(PcOf(s, w)).value.id].status == InProgress
  {
    assert Holds(s, w, PcOf(s, w).ticket);
  }

  lemma InsertKeepsRow(cfg: Config, s: World, a: Action, id: int)
    requires IdsUsed(s) && Enabled(cfg, s, a) && (a.Insert? || a.FollowUp?) && id in s.jobs
    ensures id in Apply(cfg, s, a).jobs && Apply(cfg, s, a).jobs[id] == s.jobs[id] && Apply(cfg, s, a).now == s.now
  {
  }

  /** Row id after a step is as before, or it has moved towards rest. */
  ghost predicate RowSettles(jobs: Table, jobs': Table, id: int)
    requires id in jobs
  {
    id in jobs' && (jobs'[id] == jobs[id] || (Active(jobs[id]) && Settles(jobs[id], jobs'[id])))
  }

  lemma StepSettles(cfg: Config, s: World, a: Action, id: int)
    requires Safe(s) && Enabled(cfg, s, a) && id in s.jobs
    ensures RowSettles(s.jobs, Apply(cfg, s, a).jobs, id)
  {
    assert JobOk(s.jobs[id]);
    hide Safe, Enabled, Apply;
    RowAfter(cfg, s, a, id);
    TransitionsSettle(s.jobs[id], match EffectOn(s, a, id) case HasFailed(wait) => s.now + wait case _ => 0);
  }

  /** A job that is done or failed never changes again. */
  lemma {:induction false} RestIsFinal(cfg: Config, run: seq<World>, actions: seq<Action>, i: nat, j: nat, id: int)
    requires IsRun(cfg, run, actions) && i <= j < |run|
    requires id in run[i].jobs && !Active(run[i].jobs[id])
    ensures id in run[j].jobs && run[j].jobs[id] == run[i].jobs[id]
    decreases j - i
  {
    if i < j {
      RestIsFinal(cfg, run, actions, i, j - 1, id);
      RunSafe(cfg, run, actions, j - 1);
      StepSettles(cfg, run[j - 1], actions[j - 1], id);
    }
  }

  // ----- Counting claims

  function ClaimsDue(j: Job): int {
    j.attempts + if j.status == InProgress || j.status == Done then 1 else 0
  }

  /** The recorded claims of a job are its failed attempts and the one it is in or was completed by. */
  ghost predicate ClaimsCounted(s: World) {
    && s.claims.Keys == s.jobs.Keys
    && forall id :: id in s.jobs ==> s.claims[id] == ClaimsDue(s.jobs[id]) && s.jobs[id].maxAttempts == MAX_ATTEMPTS
  }

  lemma ReleaseCountsClaims(cfg: Config, s: World, a: Action, w: int)
    requires Safe(s) && ClaimsCounted(s) && Enabled(cfg, s, a)
    requires (a.Fail? || a.Complete?) && WorkerOf(a) == Some(w)
    ensures ClaimsCounted(Apply(cfg, s, a))
  {
    assert Holds(s, w, PcOf(s, w).ticket);
  }

  lemma ClaimCountsClaims(cfg: Config, s: World, a: Action)
    requires ClaimsCounted(s) && Enabled(cfg, s, a) && a.Claim?
    ensures ClaimsCounted(Apply(cfg, s, a))
  {
  }

  lemma EnqueueCountsClaims(s: World, k: Key, at: int, page: Option<int>)
    requires IdsUsed(s) && ClaimsCounted(s)
    ensures ClaimsCounted(EnqueueIn(s, k, at, page))
  {
  }

  lemma InsertCountsClaims(cfg: Config, s: World, a: Action)
    requires Safe(s) && ClaimsCounted(s) && Enabled(cfg, s, a) && (a.Insert? || a.FollowUp?)
    ensures ClaimsCounted(Apply(cfg, s, a))
  {
    hide ClaimsCounted;
    match a
    case Insert(site, page, at) =>
      assert IdsUsed(s);
      SameClaims(s, s.(supervisors := s.supervisors[site := Idle]));
      EnqueueCountsClaims(s.(supervisors := s.supervisors[site := Idle]), s.supervisors[site].key, at, page);
    case FollowUp(w, thread, at) => EnqueueCountsClaims(s, FollowUpKey(PcOf(s, w).done, thread), at, None);
  }

  lemma SameClaims(s: World, s': World)
    requires ClaimsCounted(s) && s'.jobs == s.jobs && s'.claims == s.claims
    ensures ClaimsCounted(s')
  {
  }

  lemma OtherStepCountsClaims(cfg: Config, s: World, a: Action)
    requires ClaimsCounted(s) && Enabled(cfg, s, a)
    requires !a.Claim? && !a.Fail? && !a.Complete? && !a.Insert? && !a.FollowUp?
    ensures ClaimsCounted(Apply(cfg, s, a))
  {
    hide ClaimsCounted;
    SameClaims(s, Apply(cfg, s, a));
  }

  lemma StepCountsClaims(cfg: Config, s: World, a: Action)
    requires Safe(s) && ClaimsCounted(s) && Enabled(cfg, s, a)
    ensures ClaimsCounted(Apply(cfg, s, a))
  {
    hide Safe, ClaimsCounted, Enabled, Apply;
    match a
    case Claim(_, _) => ClaimCountsClaims(cfg, s, a);
    case Fail(w, _) => ReleaseCountsClaims(cfg, s, a, w);
    case Complete(w) => ReleaseCountsClaims(cfg, s, a, w);
    case Insert(_, _, _) => InsertCountsClaims(cfg, s, a);
    case FollowUp(_, _, _) => InsertCountsClaims(cfg, s, a);
    case _ => OtherStepCountsClaims(cfg, s, a);
  }

  /** In every run, no job is ever claimed more often than the attempt limit allows. */
  lemma {:induction false} ClaimsBounded(cfg: Config, run: seq<World>, actions: seq<Action>, i: nat)
    requires IsRun(cfg, run, actions) && i < |run|
    ensures ClaimsCounted(run[i])
    ensures forall id :: id in run[i].jobs ==> run[i].claims[id] <= MAX_ATTEMPTS
  {
    RunSafe(cfg, run, actions, i);
    if i > 0 {
      ClaimsBounded(cfg, run, actions, i - 1);
      RunSafe(cfg, run, actions, i - 1);
      StepCountsClaims(cfg, run[i - 1], actions[i - 1]);
    }
    forall id | id in run[i].jobs
      ensures run[i].claims[id] <= MAX_ATTEMPTS
    {
      assert JobOk(run[i].jobs[id]);
    }
  }
}
