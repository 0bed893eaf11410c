/**
  What every run of the scheduler keeps, over any number of sites and workers and any interleaving: at most
  one active job per key, and a bounded number of claims per job.
 */
module SchedulerSafety {
  import opened Options
  import opened FiniteSums
  import opened Jobs
  import opened Scheduler

  ghost predicate IdsUsed(s: World) {
    forall id :: id in s.jobs ==> id < s.nextId
  }

  ghost predicate UniqueActive(jobs: Table) {
    forall i, j :: i in jobs && j in jobs && i != j && Active(jobs[i]) && Active(jobs[j]) ==> jobs[i].key != jobs[j].key
  }

  /** A supervisor that found its board-wide key free will still find it free when it inserts. */
  ghost predicate GatesHold(s: World) {
    forall site :: site in s.supervisors && s.supervisors[site].Counted? ==>
      var sup := s.supervisors[site];
      SupervisorKey(sup.key, site) && (sup.free && !Indexed(sup.key) ==> !HasActive(s.jobs, sup.key))
  }

  predicate Holds(s: World, w: int, t: Ticket) {
    w in s.workers && Holding(s.workers[w].pc) == Some(t)
  }

  /** A worker's ticket describes a job in progress, and no two workers hold the same job. */
  ghost predicate TicketsHold(s: World) {
    && (forall w, t :: Holds(s, w, t) ==>
          t.id in s.jobs && s.jobs[t.id].status == InProgress && s.jobs[t.id].key == t.key
                  && s.jobs[t.id].attempts == t.attempts)
    && forall w, t, v, u :: Holds(s, w, t) && Holds(s, v, u) && w != v ==> t.id != u.id
  }

  ghost predicate JobsOk(s: World) {
    forall id :: id in s.jobs ==> JobOk(s.jobs[id])
  }

  ghost predicate Safe(s: World) {
    IdsUsed(s) && UniqueActive(s.jobs) && GatesHold(s) && TicketsHold(s) && JobsOk(s)
  }

  lemma InitSafe(cfg: Config, s: World)
    requires Init(cfg, s)
    ensures Safe(s)
  {
  }

  // ----- How the table may change

  /** Row id changed in place: same key, and active only if it was. */
  ghost predicate Calms(jobs: Table, jobs': Table, id: int) {
    && id in jobs && jobs'.Keys == jobs.Keys
    && (forall i :: i in jobs && i != id ==> jobs'[i] == jobs[i])
    && jobs'[id].key == jobs[id].key && (Active(jobs'[id]) ==> Active(jobs[id]))
  }

  lemma CalmKeepsUnique(jobs: Table, jobs': Table, id: int)
    requires UniqueActive(jobs) && Calms(jobs, jobs', id)
    ensures UniqueActive(jobs')
    ensures forall k :: HasActive(jobs', k) ==> HasActive(jobs, k)
  {
    forall k | HasActive(jobs', k)
      ensures HasActive(jobs, k)
    {
      var i :| i in jobs' && Active(jobs'[i]) && jobs'[i].key == k;
      assert i in jobs && Active(jobs[i]) && jobs[i].key == k;
    }
  }

  lemma EnqueueKeepsUnique(jobs: Table, id: int, k: Key, at: int, page: Option<int>)
    requires UniqueActive(jobs) && id !in jobs
    requires Indexed(k) || !HasActive(jobs, k)
    ensures UniqueActive(Enqueued(jobs, id, k, at, page))
    ensures forall k' :: HasActive(Enqueued(jobs, id, k, at, page), k') ==> HasActive(jobs, k') || k' == k
  {
    var jobs' := Enqueued(jobs, id, k, at, page);
    forall k' | HasActive(jobs', k')
      ensures HasActive(jobs, k') || k' == k
    {
      var i :| i in jobs' && Active(jobs'[i]) && jobs'[i].key == k';
      assert i == id || (i in jobs && Active(jobs[i]) && jobs[i].key == k');
    }
    if !Conflicts(jobs, k) {
      forall i | i in jobs && Active(jobs[i])
        ensures jobs[i].key != k
      {
        assert jobs[i].key == k ==> HasActive(jobs, k);
      }
    }
  }

  // ----- Preservation, one kind of step at a time

  /** Steps that touch neither the jobs nor any ticket or gate. */
  lemma QuietStep(s: World, s': World)
    requires Safe(s)
    requires s'.jobs == s.jobs && s'.nextId == s.nextId && s'.supervisors == s.supervisors
    requires forall w, t :: Holds(s', w, t) ==> Holds(s, w, t)
    ensures Safe(s')
  {
  }

  lemma CountStep(s: World, s': World, site: int, k: Key)
    requires Safe(s) && SupervisorKey(k, site)
    requires s' == s.(supervisors := s.supervisors[site := Counted(k, |ActiveIds(s.jobs, k)| == 0)])
    ensures Safe(s')
  {
    CountZero(s.jobs, k);
    assert forall w, t :: Holds(s', w, t) ==> Holds(s, w, t);
  }

  /** Only the supervisor of the key's own site waits to insert a board-wide key. */
  lemma GatesSurvive(s: World, s': World, k: Key)
    requires GatesHold(s)
    requires forall k' :: HasActive(s'.jobs, k') ==> HasActive(s.jobs, k') || k' == k
    requires forall site :: site in s'.supervisors && s'.supervisors[site].Counted? ==>
               site in s.supervisors && s.supervisors[site] == s'.supervisors[site] && (Indexed(k) || k.site != site)
    ensures GatesHold(s')
  {
  }

  lemma TicketsSurvive(s: World, s': World)
    requires TicketsHold(s)
    requires forall w, t :: Holds(s', w, t) ==> Holds(s, w, t)
    requires forall w, t :: Holds(s', w, t) ==> t.id in s'.jobs && s'.jobs[t.id] == s.jobs[t.id]
    ensures TicketsHold(s')
  {
  }

  /** An insert of a key that is either indexed or known to be free. */
  lemma EnqueueStep(s: World, s0: World, s': World, k: Key, at: int, page: Option<int>)
    requires Safe(s)
    requires s0.jobs == s.jobs && s0.nextId == s.nextId && s0.workers == s.workers
    requires s' == EnqueueIn(s0, k, at, page)
    requires Indexed(k) || !HasActive(s.jobs, k)
    requires forall site :: site in s'.supervisors && s'.supervisors[site].Counted? ==>
               site in s.supervisors && s.supervisors[site] == s'.supervisors[site] && (Indexed(k) || k.site != site)
    ensures Safe(s')
  {
    EnqueueKeepsUnique(s.jobs, s.nextId, k, at, page);
    GatesSurvive(s, s', k);
    assert forall w, t :: Holds(s', w, t) ==> Holds(s, w, t);
    TicketsSurvive(s, s');
  }

  lemma InsertStep(cfg: Config, s: World, site: int, page: Option<int>, at: int)
    requires Safe(s) && Enabled(cfg, s, Insert(site, page, at))
    ensures Safe(Apply(cfg, s, Insert(site, page, at)))
  {
    var sup := s.supervisors[site];
    var s0 := s.(supervisors := s.supervisors[site := Idle]);
    var s' := Apply(cfg, s, Insert(site, page, at));
    assert SupervisorKey(sup.key, site);
    if sup.free {
      EnqueueStep(s, s0, s', sup.key, at, page);
    } else {
      assert forall w, t :: Holds(s', w, t) ==> Holds(s, w, t);
    }
  }

  /** A worker picks up a pending job. */
  lemma ClaimStep(cfg: Config, s: World, w: int, id: int)
    requires Safe(s) && Enabled(cfg, s, Claim(w, id))
    ensures Safe(Apply(cfg, s, Claim(w, id)))
  {
    var s' := Apply(cfg, s, Claim(w, id));
    CalmKeepsUnique(s.jobs, s'.jobs, id);
    forall v, t | Holds(s', v, t)
      ensures (v == w && t.id == id) || (v != w && Holds(s, v, t) && t.id != id)
    {
      if v == w {
        assert Holding(s'.workers[w].pc) == Some(Ticket(id, s.jobs[id].key, s.jobs[id].attempts));
      } else {
        assert Holds(s, v, t);
        assert s.jobs[t.id].status == InProgress && s.jobs[id].status == Pending;
      }
    }
  }

  /** A worker lets go of its job, which stays where it is or comes to rest. */
  lemma ReleaseStep(s: World, s': World, w: int, t: Ticket)
    requires Safe(s) && Holds(s, w, t)
    requires Calms(s.jobs, s'.jobs, t.id) && JobOk(s'.jobs[t.id])
    requires s'.nextId == s.nextId && s'.supervisors == s.supervisors
    requires forall v, u :: Holds(s', v, u) ==> v != w && Holds(s, v, u)
    ensures Safe(s')
  {
    CalmKeepsUnique(s.jobs, s'.jobs, t.id);
    forall v, u | Holds(s', v, u)
      ensures u.id in s'.jobs && s'.jobs[u.id] == s.jobs[u.id]
    {
    }
    TicketsSurvive(s, s');
  }

  lemma FailStep(cfg: Config, s: World, w: int, wait: int)
    requires Safe(s) && Enabled(cfg, s, Fail(w, wait))
    ensures Safe(Apply(cfg, s, Fail(w, wait)))
  {
    var s' := Apply(cfg, s, Fail(w, wait));
    var t := PcOf(s, w).ticket;
    assert Holds(s, w, t);
    TransitionsSettle(s.jobs[t.id], s.now + wait);
    forall v, u | Holds(s', v, u)
      ensures v != w && Holds(s, v, u)
    {
    }
    ReleaseStep(s, s', w, t);
  }

  lemma CompleteStep(cfg: Config, s: World, w: int)
    requires Safe(s) && Enabled(cfg, s, Complete(w))
    ensures Safe(Apply(cfg, s, Complete(w)))
  {
    var s' := Apply(cfg, s, Complete(w));
    var t := PcOf(s, w).ticket;
    assert Holds(s, w, t);
    TransitionsSettle(s.jobs[t.id], 0);
    forall v, u | Holds(s', v, u)
      ensures v != w && Holds(s, v, u)
    {
    }
    ReleaseStep(s, s', w, t);
  }

  /** A worker moves on without letting go of its ticket or gaining one. */
  lemma MoveStep(s: World, s': World, w: int)
    requires Safe(s) && w in s.workers && w in s'.workers
    requires s'.jobs == s.jobs && s'.nextId == s.nextId && s'.supervisors == s.supervisors
    requires forall v :: v in s'.workers && v != w ==> v in s.workers && s'.workers[v] == s.workers[v]
    requires Holding(s'.workers[w].pc) == None || Holding(s'.workers[w].pc) == Holding(s.workers[w].pc)
    ensures Safe(s')
  {
    forall v, t | Holds(s', v, t)
      ensures Holds(s, v, t)
    {
    }
    QuietStep(s, s');
  }

  lemma WorkerMoveStep(cfg: Config, s: World, a: Action, w: int)
    requires Safe(s) && Enabled(cfg, s, a) && WorkerOf(a) == Some(w)
    requires !a.Claim? && !a.Fail? && !a.Complete?
    ensures Safe(Apply(cfg, s, a))
  {
    MoveStep(s, Apply(cfg, s, a), w);
  }

  lemma FollowUpStep(cfg: Config, s: World, a: Action)
    requires Safe(s) && Enabled(cfg, s, a) && a.FollowUp?
    ensures Safe(Apply(cfg, s, a))
  {
    EnqueueStep(s, s, Apply(cfg, s, a), FollowUpKey(PcOf(s, a.w).done, a.thread), a.at, None);
  }

  lemma LookStep(cfg: Config, s: World, a: Action)
    requires Safe(s) && Enabled(cfg, s, a) && (a.Tick? || a.Count?)
    ensures Safe(Apply(cfg, s, a))
  {
    hide Safe;
    match a
    case Tick(_) => QuietStep(s, Apply(cfg, s, a));
    case Count(site, key) => CountStep(s, Apply(cfg, s, a), site, key);
  }

  /** Every step of every process keeps the invariant. */
  lemma StepSafe(cfg: Config, s: World, a: Action)
    requires Safe(s) && Enabled(cfg, s, a)
    ensures Safe(Apply(cfg, s, a))
  {
    hide Safe, Enabled, Apply;
    match a
    case Tick(_) => LookStep(cfg, s, a);
    case Count(_, _) => LookStep(cfg, s, a);
    case Insert(site, page, at) => InsertStep(cfg, s, site, page, at);
    case Claim(w, id) => ClaimStep(cfg, s, w, id);
    case Fail(w, wait) => FailStep(cfg, s, w, wait);
    case Complete(w) => CompleteStep(cfg, s, w);
    case FollowUp(_, _, _) => FollowUpStep(cfg, s, a);
    case _ => WorkerMoveStep(cfg, s, a, WorkerOf(a).value);
  }

  lemma {:induction false} RunSafe(cfg: Config, run: seq<World>, actions: seq<Action>, i: nat)
    requires IsRun(cfg, run, actions) && i < |run|
    ensures Safe(run[i])
  {
    if i == 0 {
      InitSafe(cfg, run[0]);
    } else {
      RunSafe(cfg, run, actions, i - 1);
      StepSafe(cfg, run[i - 1], actions[i - 1]);
    }
  }

  /** In every reachable state there is at most one active job per site, board, thread and kind. */
  lemma AtMostOneActiveJob(cfg: Config, run: seq<World>, actions: seq<Action>, i: nat, k: Key)
    requires IsRun(cfg, run, actions) && i < |run|
    ensures |ActiveIds(run[i].jobs, k)| <= 1
  {
    RunSafe(cfg, run, actions, i);
    var ids := ActiveIds(run[i].jobs, k);
    if ids != {} {
      var id := Pick(ids);
      forall j | j in ids
        ensures j in {id}
      {
      }
      SubsetOfSingleton(ids, id);
    }
  }

  lemma SubsetOfSingleton<T>(s: set<T>, x: T)
    requires s <= {x}
    ensures |s| <= 1
  {
    if x in s {
      assert s == {x};
    } else {
      assert s == {};
    }
  }

  /**
    What the insert alone guarantees: it keeps keys unique exactly when the key is covered by the index or
    free. Board-wide keys are not covered, so they rest on the supervisor's count.
   */
  lemma InsertKeepsUniqueIff(jobs: Table, id: int, k: Key, at: int, page: Option<int>)
    requires UniqueActive(jobs) && id !in jobs
    ensures UniqueActive(Enqueued(jobs, id, k, at, page)) <==> Indexed(k) || !HasActive(jobs, k)
  {
    if Indexed(k) || !HasActive(jobs, k) {
      EnqueueKeepsUnique(jobs, id, k, at, page);
    } else {
      var i :| i in jobs && Active(jobs[i]) && jobs[i].key == k;
      var jobs' := Enqueued(jobs, id, k, at, page);
      assert i in jobs' && id in jobs' && i != id && Active(jobs'[i]) && Active(jobs'[id]);
    }
  }
}
