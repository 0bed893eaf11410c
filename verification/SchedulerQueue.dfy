/**
  The order in which the queue hands out jobs, and what it holds, over every run of the scheduler and in terms of
  the rows themselves.
 */
module SchedulerQueue {
  import opened Options
  import opened Jobs
  import opened Scheduler
  import opened SchedulerSafety
  import opened SchedulerSettles

  // ----- Claims come in order of due time, then of id

  /** In every run a worker claims, of its site's pending jobs that are due, the one due longest, then of least id. */
  lemma ClaimTakesOldest(cfg: Config, run: seq<World>, actions: seq<Action>, i: nat, w: int, id: int)
    requires IsRun(cfg, run, actions) && i < |actions| && actions[i] == Claim(w, id)
    ensures w in run[i].workers && id in run[i].jobs
    ensures var s, j := run[i], run[i].jobs[id];
            && j.key.site == s.workers[w].site && j.status == Pending && j.runAfter <= s.now
            && run[i + 1].jobs == s.jobs[id := j.(status := InProgress)]
            && forall o ::
                 (o in s.jobs && o != id && s.jobs[o].key.site == s.workers[w].site && s.jobs[o].status == Pending
                  && s.jobs[o].runAfter <= s.now)
                 ==> j.runAfter < s.jobs[o].runAfter || (j.runAfter == s.jobs[o].runAfter && id < o)
  {
    var s := run[i];
    assert OldestDue(s.jobs, SiteOf(s, w), s.now, id);
  }

  /** A worker that finds nothing to claim leaves no job of its site pending and due. */
  lemma NothingLeftWaiting(cfg: Config, run: seq<World>, actions: seq<Action>, i: nat, w: int)
    requires IsRun(cfg, run, actions) && i < |actions| && actions[i] == ClaimNothing(w)
    ensures w in run[i].workers
    ensures forall id ::
              (id in run[i].jobs && run[i].jobs[id].key.site == run[i].workers[w].site
               && run[i].jobs[id].status == Pending)
              ==> run[i].jobs[id].runAfter > run[i].now
  {
    var s := run[i];
    forall id | id in s.jobs && s.jobs[id].key.site == s.workers[w].site && s.jobs[id].status == Pending
      ensures s.jobs[id].runAfter > s.now
    {
      assert !Due(s.jobs, SiteOf(s, w), s.now, id);
    }
  }

  ghost predicate UnclaimedFrom(actions: seq<Action>, i: nat, m: nat, id: int) {
    forall k :: i <= k < m && k < |actions| ==> !(actions[k].Claim? && actions[k].id == id)
  }

  lemma OnlyClaimsMovePending(cfg: Config, s: World, a: Action, id: int)
    requires Safe(s) && Enabled(cfg, s, a) && id in s.jobs && s.jobs[id].status == Pending
    requires !(a.Claim? && a.id == id)
    ensures id in Apply(cfg, s, a).jobs && Apply(cfg, s, a).jobs[id] == s.jobs[id] && s.now <= Apply(cfg, s, a).now
  {
    hide Safe, Enabled, Apply;
    RowAfter(cfg, s, a, id);
  }

  /** A pending row stays as it is until it is claimed. */
  lemma {:induction false} PendingStays(cfg: Config, run: seq<World>, actions: seq<Action>, i: nat, m: nat, id: int)
    requires IsRun(cfg, run, actions) && i <= m < |run|
    requires id in run[i].jobs && run[i].jobs[id].status == Pending && UnclaimedFrom(actions, i, m, id)
    ensures id in run[m].jobs && run[m].jobs[id] == run[i].jobs[id] && run[i].now <= run[m].now
    decreases m
  {
    if i < m {
      PendingStays(cfg, run, actions, i, m - 1, id);
      RunSafe(cfg, run, actions, m - 1);
      OnlyClaimsMovePending(cfg, run[m - 1], actions[m - 1], id);
    }
  }

  /** While a job waits, whatever else is claimed on its site was due before it. */
  lemma NoOvertaking(cfg: Config, run: seq<World>, actions: seq<Action>, i: nat, m: nat, id: int, w: int, other: int)
    requires IsRun(cfg, run, actions) && i <= m < |actions|
    requires id in run[i].jobs && run[i].jobs[id].status == Pending && run[i].jobs[id].runAfter <= run[i].now
    requires UnclaimedFrom(actions, i, m + 1, id)
    requires actions[m] == Claim(w, other) && At(run[m], w) && SiteOf(run[m], w) == run[i].jobs[id].key.site
    ensures other in run[m].jobs && run[m].jobs[other].runAfter <= run[i].jobs[id].runAfter
    ensures run[m].jobs[other].runAfter == run[i].jobs[id].runAfter ==> other < id
  {
    PendingStays(cfg, run, actions, i, m, id);
    ClaimTakesOldest(cfg, run, actions, m, w, other);
  }

  // ----- What is inserted

  /** An insert of k is skipped or gives a fresh row: pending, without attempts, and ten of them allowed. */
  predicate Inserts(s: World, s': World, k: Key, at: int, page: Option<int>, skipped: bool) {
    && s.nextId !in s.jobs
    && s'.jobs == (if skipped then s.jobs else s.jobs[s.nextId := Job(k, Pending, 0, 10, at, page)])
  }

  /** The index already has the key: both its columns are set and a job of it is pending or in progress. */
  predicate Taken(jobs: Table, k: Key) {
    k.board.Some? && k.thread.Some?
    && exists id :: id in jobs && jobs[id].key == k && (jobs[id].status == Pending || jobs[id].status == InProgress)
  }

  /** A supervisor inserts the key it counted, unless it was taken when counted or the index has it now. */
  lemma SupervisorInserts(cfg: Config, run: seq<World>, actions: seq<Action>, i: nat, site: int, page: Option<int>,
                          at: int)
    requires IsRun(cfg, run, actions) && i < |actions| && actions[i] == Insert(site, page, at)
    ensures site in run[i].supervisors && run[i].supervisors[site].Counted?
    ensures var sup := run[i].supervisors[site];
            Inserts(run[i], run[i + 1], sup.key, at, page, !sup.free || Taken(run[i].jobs, sup.key))
  {
    var sup := run[i].supervisors[site];
    RunSafe(cfg, run, actions, i);
    SafeIds(run[i]);
    hide Safe;
    TakenConflicts(run[i].jobs, sup.key);
  }

  /** After a catalog poll a worker queues thread polls, after a thread poll downloads, of the same board. */
  lemma WorkerQueues(cfg: Config, run: seq<World>, actions: seq<Action>, i: nat, w: int, thread: int, at: int)
    requires IsRun(cfg, run, actions) && i < |actions| && actions[i] == FollowUp(w, thread, at)
    ensures w in run[i].workers && run[i].workers[w].pc.Following?
    ensures var done := run[i].workers[w].pc.done;
            var k := Key(done.site, done.board, Some(thread), if done.kind == Catalog then Kind.Thread else Download);
            Inserts(run[i], run[i + 1], k, at, None, Taken(run[i].jobs, k))
  {
    var done := run[i].workers[w].pc.done;
    RunSafe(cfg, run, actions, i);
    SafeIds(run[i]);
    hide Safe;
    TakenConflicts(run[i].jobs, FollowUpKey(done, thread));
  }

  lemma TakenConflicts(jobs: Table, k: Key)
    ensures Taken(jobs, k) <==> Conflicts(jobs, k)
  {
    if Conflicts(jobs, k) {
      var id :| id in jobs && Active(jobs[id]) && jobs[id].key == k;
      assert jobs[id].status == Pending || jobs[id].status == InProgress;
    }
    if Taken(jobs, k) {
      var id :| id in jobs && jobs[id].key == k && (jobs[id].status == Pending || jobs[id].status == InProgress);
      assert Active(jobs[id]);
    }
  }

  /** Thread polls and downloads name a board and a thread, board-wide jobs a board only. */
  predicate Shaped(k: Key) {
    && k.board.Some?
    && match k.kind
       case Thread => k.thread.Some?
       case Download => k.thread.Some?
       case Catalog => k.thread.None?
       case RawCapture => k.thread.None?
       case Backfill => k.thread.None?
       case Other(_) => false
  }

  ghost predicate AllShaped(s: World) {
    forall id :: id in s.jobs ==> Shaped(s.jobs[id].key)
  }

  lemma SupervisorKeyShaped(s: World, site: int)
    requires Safe(s) && site in s.supervisors && s.supervisors[site].Counted?
    ensures Shaped(s.supervisors[site].key)
  {
  }

  lemma EnqueueShaped(s: World, k: Key, at: int, page: Option<int>)
    requires AllShaped(s) && Shaped(k)
    ensures AllShaped(EnqueueIn(s, k, at, page))
  {
  }

  lemma InsertShaped(cfg: Config, s: World, a: Action)
    requires Safe(s) && AllShaped(s) && Enabled(cfg, s, a) && (a.Insert? || a.FollowUp?)
    ensures AllShaped(Apply(cfg, s, a))
  {
    match a
    case Insert(site, page, at) =>
      SupervisorKeyShaped(s, site);
      hide Safe;
      EnqueueShaped(s.(supervisors := s.supervisors[site := Idle]), s.supervisors[site].key, at, page);
    case FollowUp(w, thread, at) => EnqueueShaped(s, FollowUpKey(PcOf(s, w).done, thread), at, None);
  }

  lemma NoNewRows(cfg: Config, s: World, a: Action)
    requires Enabled(cfg, s, a) && !a.Insert? && !a.FollowUp?
    ensures Apply(cfg, s, a).jobs.Keys == s.jobs.Keys
  {
    if a.Claim? {
      assert a.id in s.jobs;
    } else if a.Fail? || a.Complete? {
      assert PcOf(s, a.w).ticket.id in s.jobs;
    } else {
      assert Apply(cfg, s, a).jobs == s.jobs;
    }
  }

  lemma OtherStepShaped(cfg: Config, s: World, a: Action)
    requires Safe(s) && AllShaped(s) && Enabled(cfg, s, a) && !a.Insert? && !a.FollowUp?
    ensures AllShaped(Apply(cfg, s, a))
  {
    NoNewRows(cfg, s, a);
    forall id | id in s.jobs
      ensures id in Apply(cfg, s, a).jobs && Apply(cfg, s, a).jobs[id].key == s.jobs[id].key
    {
      hide Safe, Enabled, Apply;
      RowAfter(cfg, s, a, id);
    }
  }

  /** In every run each job is of a known kind and shape: so the index covers every thread poll and download. */
  lemma {:induction false} JobsShaped(cfg: Config, run: seq<World>, actions: seq<Action>, i: nat)
    requires IsRun(cfg, run, actions) && i < |run|
    ensures AllShaped(run[i])
  {
    if i > 0 {
      JobsShaped(cfg, run, actions, i - 1);
      RunSafe(cfg, run, actions, i - 1);
      hide Safe, AllShaped;
      if actions[i - 1].Insert? || actions[i - 1].FollowUp? {
        InsertShaped(cfg, run[i - 1], actions[i - 1]);
      } else {
        OtherStepShaped(cfg, run[i - 1], actions[i - 1]);
      }
    }
  }
}
