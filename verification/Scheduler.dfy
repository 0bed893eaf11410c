/**
  The scheduler as a state machine: per site one supervisor that counts and then inserts, and workers that
  check the circuit, claim, run and settle jobs. Every statement is one step, and steps of different
  processes interleave in any order.
 */
module Scheduler {
  import opened Options
  import opened Backoff
  import opened Jobs
  import opened SiteHealth

  datatype Config = Config(threshold: int, poll: map<int, int>)

  /** What a worker remembers of the job it claimed. */
  datatype Ticket = Ticket(id: int, key: Key, attempts: int)

  datatype Pc =
    | Top                            // head of the worker loop
    | Asleep(wakeAt: int)            // waiting for an open circuit
    | Cleared                        // circuit checked, about to claim
    | Running(ticket: Ticket)
    | SiteFailing(ticket: Ticket)    // about to count a site failure
    | Tripping(ticket: Ticket, count: int)  // counted, about to open the circuit
    | JobFailing(ticket: Ticket)     // about to reschedule or fail the job
    | Succeeding(ticket: Ticket)     // about to reset the site's counters
    | Completing(ticket: Ticket)     // about to mark the job done
    | Following(done: Key)           // queueing follow-up jobs of a finished one

  datatype Worker = Worker(site: int, pc: Pc)

  datatype Supervisor = Idle | Counted(key: Key, free: bool)

  /** The last counted failure of a site. */
  datatype Mark = Mark(at: int, count: int)

  /** `marks` and `claims` only record history; no step reads them. */
  datatype World = World(
    now: int, jobs: Table, nextId: int, health: map<int, Health>,
    supervisors: map<int, Supervisor>, workers: map<int, Worker>,
    marks: map<int, Mark>, claims: map<int, int>)

  datatype Action =
    | Tick(to: int)
    | Count(site: int, key: Key)
    | Insert(site: int, page: Option<int>, at: int)
    | CheckCircuit(w: int)
    | Wake(w: int)
    | Claim(w: int, id: int)
    | ClaimNothing(w: int)
    | FetchFailed(w: int)
    | FetchOk(w: int)
    | LocalFailed(w: int)
    | LocalOk(w: int)
    | RecordFailure(w: int)
    | Trip(w: int)
    | Fail(w: int, wait: int)
    | RecordSuccess(w: int)
    | Complete(w: int)
    | FollowUp(w: int, thread: int, at: int)
    | Return(w: int)

  /** The jobs a supervisor creates: board-wide polls, and thread polls for stale threads. */
  predicate SupervisorKey(k: Key, site: int) {
    && k.site == site && k.board.Some?
    && match k.kind
       case Catalog => k.thread.None?
       case RawCapture => k.thread.None?
       case Backfill => k.thread.None?
       case Thread => k.thread.Some?
       case _ => false
  }

  /** Catalog and thread jobs poll the site; their outcome drives the circuit breaker. */
  predicate Polls(k: Key) {
    k.kind == Catalog || k.kind == Thread
  }

  predicate CompletesLocally(k: Key) {
    k.kind == Download || k.kind == Backfill || k.kind == RawCapture
  }

  /** Finished catalog jobs queue thread jobs, finished thread jobs queue downloads. */
  function FollowUpKey(done: Key, thread: int): Key {
    Key(done.site, done.board, Some(thread), if done.kind == Catalog then Kind.Thread else Download)
  }

  function Holding(pc: Pc): Option<Ticket> {
    match pc
    case Running(t) => Some(t)
    case SiteFailing(t) => Some(t)
    case Tripping(t, _) => Some(t)
    case JobFailing(t) => Some(t)
    case Succeeding(t) => Some(t)
    case Completing(t) => Some(t)
    case _ => None
  }

  /** The wait drawn for a retry: exponential for the polling and download jobs, a minute for the others. */
  predicate IsWait(t: Ticket, wait: int, roll: nat) {
    if Polls(t.key) || t.key.kind == Download || t.key.kind == Backfill
    then BackoffDelay(t.attempts, MINUTE, 30 * MINUTE, roll) == Some(wait)
    else wait == MINUTE
  }

  predicate At(s: World, w: int) {
    w in s.workers && s.workers[w].site in s.health
  }

  function PcOf(s: World, w: int): Pc
    requires At(s, w)
  {
    s.workers[w].pc
  }

  function SiteOf(s: World, w: int): int
    requires At(s, w)
  {
    s.workers[w].site
  }

  ghost predicate Enabled(cfg: Config, s: World, a: Action) {
    match a
    case Tick(to) => s.now <= to
    case Count(site, key) => site in s.supervisors && s.supervisors[site].Idle? && SupervisorKey(key, site)
    case Insert(site, _, at) => site in s.supervisors && s.supervisors[site].Counted? && at <= s.now
    case CheckCircuit(w) => At(s, w) && PcOf(s, w).Top?
    case Wake(w) => At(s, w) && PcOf(s, w).Asleep? && PcOf(s, w).wakeAt <= s.now
    case Claim(w, id) => At(s, w) && PcOf(s, w).Cleared? && OldestDue(s.jobs, SiteOf(s, w), s.now, id)
    case ClaimNothing(w) => At(s, w) && PcOf(s, w).Cleared?
                            && forall id :: id in s.jobs ==> !Due(s.jobs, SiteOf(s, w), s.now, id)
    case FetchFailed(w) => At(s, w) && PcOf(s, w).Running? && Polls(PcOf(s, w).ticket.key)
    case FetchOk(w) => At(s, w) && PcOf(s, w).Running? && Polls(PcOf(s, w).ticket.key)
    case LocalFailed(w) => At(s, w) && PcOf(s, w).Running? && !Polls(PcOf(s, w).ticket.key)
    case LocalOk(w) => At(s, w) && PcOf(s, w).Running? && CompletesLocally(PcOf(s, w).ticket.key)
    case RecordFailure(w) => At(s, w) && PcOf(s, w).SiteFailing?
    case Trip(w) => At(s, w) && PcOf(s, w).Tripping? && PcOf(s, w).count >= 1 && SiteOf(s, w) in cfg.poll
    case Fail(w, wait) => At(s, w) && PcOf(s, w).JobFailing? && PcOf(s, w).ticket.id in s.jobs
                          && exists roll: nat :: IsWait(PcOf(s, w).ticket, wait, roll)
    case RecordSuccess(w) => At(s, w) && PcOf(s, w).Succeeding?
    case Complete(w) => At(s, w) && PcOf(s, w).Completing? && PcOf(s, w).ticket.id in s.jobs
    case FollowUp(w, _, at) => At(s, w) && PcOf(s, w).Following? && PcOf(s, w).done.board.Some? && at <= s.now
    case Return(w) => At(s, w) && PcOf(s, w).Following?
  }

  /** The worker whose own control state a step advances. */
  function WorkerOf(a: Action): Option<int> {
    match a
    case CheckCircuit(w) => Some(w)
    case Wake(w) => Some(w)
    case Claim(w, _) => Some(w)
    case ClaimNothing(w) => Some(w)
    case FetchFailed(w) => Some(w)
    case FetchOk(w) => Some(w)
    case LocalFailed(w) => Some(w)
    case LocalOk(w) => Some(w)
    case RecordFailure(w) => Some(w)
    case Trip(w) => Some(w)
    case Fail(w, _) => Some(w)
    case RecordSuccess(w) => Some(w)
    case Complete(w) => Some(w)
    case Return(w) => Some(w)
    case _ => None
  }

  function Goto(s: World, w: int, pc: Pc): World
    requires At(s, w)
  {
    s.(workers := s.workers[w := s.workers[w].(pc := pc)])
  }

  function SetHealth(s: World, site: int, h: Health): World {
    s.(health := s.health[site := h])
  }

  /** `at` is the clock reading the caller took before, at the start of its pass. */
  function EnqueueIn(s: World, k: Key, at: int, page: Option<int>): World {
    s.(jobs := Enqueued(s.jobs, s.nextId, k, at, page),
       claims := if Conflicts(s.jobs, k) then s.claims else s.claims[s.nextId := 0],
       nextId := s.nextId + 1)
  }

  function ClaimsOf(s: World, id: int): int {
    if id in s.claims then s.claims[id] else 0
  }

  ghost function Apply(cfg: Config, s: World, a: Action): World
    requires Enabled(cfg, s, a)
  {
    match a
    case Tick(to) => s.(now := to)
    case Count(site, key) => s.(supervisors := s.supervisors[site := Counted(key, |ActiveIds(s.jobs, key)| == 0)])
    case Insert(site, page, at) =>
      var sup := s.supervisors[site];
      var s' := s.(supervisors := s.supervisors[site := Idle]);
      if sup.free then EnqueueIn(s', sup.key, at, page) else s'
    case CheckCircuit(w) =>
      var h := s.health[SiteOf(s, w)];
      Goto(s, w, if Blocks(h, s.now) then Asleep(h.until.value) else Cleared)
    case Wake(w) => Goto(s, w, Cleared)
    case Claim(w, id) =>
      Goto(s, w, Running(Ticket(id, s.jobs[id].key, s.jobs[id].attempts)))
      .(jobs := Claimed(s.jobs, id), claims := s.claims[id := ClaimsOf(s, id) + 1])
    case ClaimNothing(w) => Goto(s, w, Top)
    case FetchFailed(w) => Goto(s, w, SiteFailing(PcOf(s, w).ticket))
    case FetchOk(w) => Goto(s, w, Succeeding(PcOf(s, w).ticket))
    case LocalFailed(w) => Goto(s, w, JobFailing(PcOf(s, w).ticket))
    case LocalOk(w) => Goto(s, w, Completing(PcOf(s, w).ticket))
    case RecordFailure(w) =>
      var h := AfterFailure(s.health[SiteOf(s, w)]);
      var t := PcOf(s, w).ticket;
      var pc := if h.failures >= cfg.threshold then Tripping(t, h.failures) else JobFailing(t);
      SetHealth(Goto(s, w, pc), SiteOf(s, w), h)
      .(marks := s.marks[SiteOf(s, w) := Mark(s.now, h.failures)])
    case Trip(w) =>
      var until := s.now + CircuitCooldown(cfg.poll[SiteOf(s, w)], PcOf(s, w).count);
      SetHealth(Goto(s, w, JobFailing(PcOf(s, w).ticket)), SiteOf(s, w), Tripped(s.health[SiteOf(s, w)], until))
    case Fail(w, wait) =>
      Goto(s, w, Top).(jobs := Failing(s.jobs, PcOf(s, w).ticket.id, s.now + wait))
    case RecordSuccess(w) =>
      SetHealth(Goto(s, w, Completing(PcOf(s, w).ticket)), SiteOf(s, w), AfterSuccess(s.health[SiteOf(s, w)], s.now))
    case Complete(w) =>
      var t := PcOf(s, w).ticket;
      Goto(s, w, if Polls(t.key) then Following(t.key) else Top).(jobs := Completed(s.jobs, t.id))
    case FollowUp(w, thread, at) => EnqueueIn(s, FollowUpKey(PcOf(s, w).done, thread), at, None)
    case Return(w) => Goto(s, w, Top)
  }

  /** A fresh database: no jobs, healthy sites, idle supervisors, workers at the head of their loop. */
  ghost predicate Init(cfg: Config, s: World) {
    && s.jobs == map[] && s.claims == map[] && s.marks == map[]
    && (forall site :: site in s.health ==> s.health[site].failures == 0 && !s.health[site].open)
    && (forall site :: site in s.supervisors ==> s.supervisors[site].Idle?)
    && (forall w :: w in s.workers ==>
            s.workers[w].pc.Top? && s.workers[w].site in s.health && s.workers[w].site in cfg.poll)
  }

  /** The states a run passes through, one more than it has actions. */
  ghost predicate IsRun(cfg: Config, run: seq<World>, actions: seq<Action>) {
    && |run| == |actions| + 1 && Init(cfg, run[0])
    && forall i :: 0 <= i < |actions| ==>
            Enabled(cfg, run[i], actions[i]) && run[i + 1] == Apply(cfg, run[i], actions[i])
  }
}
