/**
  The Postgres-backed job queue: one row per job, a partial unique index on active jobs, and the row
  transitions claim, complete and fail. Every statement is one atomic update of the table.
 */
module Jobs {
  import opened Options
  import opened FiniteSums

  datatype Kind = Catalog | Thread | Download | Backfill | RawCapture | Other(name: string)

  datatype Status = Pending | InProgress | Done | Failed

  /** What a job is about; two jobs with equal keys do the same work. */
  datatype Key = Key(site: int, board: Option<int>, thread: Option<int>, kind: Kind)

  /** `page` is the crawl cursor of a paginated catalog job, if it carries one. */
  datatype Job = Job(key: Key, status: Status, attempts: int, maxAttempts: int, runAfter: int, page: Option<int>)

  type Table = map<int, Job>

  const MAX_ATTEMPTS := 10

  predicate Active(j: Job) {
    j.status == Pending || j.status == InProgress
  }

  /** The unique index compares no NULLs, so it only constrains keys with both a board and a thread. */
  predicate Indexed(k: Key) {
    k.board.Some? && k.thread.Some?
  }

  predicate HasActive(jobs: Table, k: Key) {
    exists id :: id in jobs && Active(jobs[id]) && jobs[id].key == k
  }

  predicate Conflicts(jobs: Table, k: Key) {
    Indexed(k) && HasActive(jobs, k)
  }

  function NewJob(k: Key, runAfter: int, page: Option<int>): Job {
    Job(k, Pending, 0, MAX_ATTEMPTS, runAfter, page)
  }

  function Enqueued(jobs: Table, id: int, k: Key, runAfter: int, page: Option<int>): Table {
    if Conflicts(jobs, k) then jobs else jobs[id := NewJob(k, runAfter, page)]
  }

  predicate Due(jobs: Table, site: int, now: int, id: int) {
    id in jobs && jobs[id].key.site == site && jobs[id].status == Pending && jobs[id].runAfter <= now
  }

  /** Claim order: by due time, then by id. */
  predicate Before(jobs: Table, i: int, j: int)
    requires i in jobs && j in jobs
  {
    jobs[i].runAfter < jobs[j].runAfter || (jobs[i].runAfter == jobs[j].runAfter && i <= j)
  }

  predicate OldestDue(jobs: Table, site: int, now: int, id: int) {
    Due(jobs, site, now, id) && forall j :: j in jobs && Due(jobs, site, now, j) ==> Before(jobs, id, j)
  }

  function Claimed(jobs: Table, id: int): Table
    requires id in jobs
  {
    jobs[id := jobs[id].(status := InProgress)]
  }

  function Completed(jobs: Table, id: int): Table
    requires id in jobs
  {
    jobs[id := jobs[id].(status := Done)]
  }

  /** One more attempt; past the limit the job has failed, before it the job waits for its backoff. */
  function FailedOnce(j: Job, retryAt: int): Job {
    var attempts := j.attempts + 1;
    if attempts >= j.maxAttempts then j.(attempts := attempts, status := Failed)
    else j.(attempts := attempts, status := Pending, runAfter := retryAt)
  }

  function Failing(jobs: Table, id: int, retryAt: int): Table
    requires id in jobs
  {
    jobs[id := FailedOnce(jobs[id], retryAt)]
  }

  function ActiveIds(jobs: Table, k: Key): set<int> {
    set id | id in jobs && Active(jobs[id]) && jobs[id].key == k
  }

  /** The same rows by their columns, nulls compared as equal. */
  function CountedIds(jobs: Table, site: int, kind: Kind, board: Option<int>, thread: Option<int>): set<int> {
    set id | id in jobs && jobs[id].key.site == site && jobs[id].key.kind == kind
             && (jobs[id].status == Pending || jobs[id].status == InProgress)
             && jobs[id].key.board == board && jobs[id].key.thread == thread
  }

  lemma SameKey(jobs: Table, k: Key)
    ensures ActiveIds(jobs, k) == CountedIds(jobs, k.site, k.kind, k.board, k.thread)
  {
    var a, b := ActiveIds(jobs, k), CountedIds(jobs, k.site, k.kind, k.board, k.thread);
    forall id
      ensures id in a <==> id in b
    {
      if id in b {
        assert jobs[id].key == k;
      }
    }
    SameMembers(a, b);
  }

  lemma SameMembers<T>(a: set<T>, b: set<T>)
    requires forall x :: x in a <==> x in b
    ensures a == b
  {
  }

  // ----- The oldest due job

  lemma {:induction false} OldestAmong(jobs: Table, ids: set<int>) returns (id: int)
    requires ids != {} && forall i :: i in ids ==> i in jobs
    ensures id in ids && forall j :: j in ids ==> Before(jobs, id, j)
    decreases ids
  {
    var x := Pick(ids);
    if ids - {x} == {} {
      id := x;
      assert forall j :: j in ids ==> j == x || j in ids - {x};
    } else {
      var y := OldestAmong(jobs, ids - {x});
      id := if Before(jobs, x, y) then x else y;
      assert forall j :: j in ids ==> j == x || j in ids - {x};
    }
  }

  lemma OldestExists(jobs: Table, site: int, now: int, some: int)
    requires Due(jobs, site, now, some)
    ensures exists id :: OldestDue(jobs, site, now, id)
  {
    var due := set i | i in jobs && Due(jobs, site, now, i);
    assert some in due;
    var id := OldestAmong(jobs, due);
    assert OldestDue(jobs, site, now, id);
  }

  lemma OldestIsUnique(jobs: Table, site: int, now: int, i: int, j: int)
    requires OldestDue(jobs, site, now, i) && OldestDue(jobs, site, now, j)
    ensures i == j
  {
  }

  lemma CountZero(jobs: Table, k: Key)
    ensures |ActiveIds(jobs, k)| == 0 <==> !HasActive(jobs, k)
  {
    if HasActive(jobs, k) {
      var id :| id in jobs && Active(jobs[id]) && jobs[id].key == k;
      assert id in ActiveIds(jobs, k);
    }
    if ActiveIds(jobs, k) != {} {
      var id := Pick(ActiveIds(jobs, k));
      assert id in jobs && Active(jobs[id]) && jobs[id].key == k;
    }
  }

  // ----- The store

  class JobStore {
    var jobs: Table
    var nextId: int

    ghost predicate Valid()
      reads this
    {
      forall id :: id in jobs ==> id < nextId
    }

    constructor ()
      ensures Valid() && jobs == map[]
    {
      jobs, nextId := map[], 1;
    }

    /** The id sequence advances even when the insert is dropped. */
    method EnqueueJob(k: Key, runAfter: int, page: Option<int>) returns (created: bool)
      requires Valid()
      modifies this
      ensures Valid() && nextId == old(nextId) + 1
      ensures jobs == Enqueued(old(jobs), old(nextId), k, runAfter, page)
      ensures created <==> !Conflicts(old(jobs), k)
      ensures created <==>
              !(k.board.Some? && k.thread.Some? &&
                exists id :: id in old(jobs) && old(jobs)[id].key == k && old(jobs)[id].status in {Pending, InProgress})
      ensures jobs == if created then old(jobs)[old(nextId) := Job(k, Pending, 0, 10, runAfter, page)] else old(jobs)
    {
      created := !Conflicts(jobs, k);
      if created {
        jobs := jobs[nextId := NewJob(k, runAfter, page)];
      }
      nextId := nextId + 1;
    }

    method ClaimJob(site: int, now: int) returns (claimed: Option<int>)
      requires Valid()
      modifies `jobs
      ensures Valid()
      ensures claimed.None? <==> forall id :: id in old(jobs) ==> !Due(old(jobs), site, now, id)
      ensures claimed.None? ==> jobs == old(jobs)
      ensures claimed.Some? ==>
              OldestDue(old(jobs), site, now, claimed.value) && jobs == Claimed(old(jobs), claimed.value)
      ensures claimed.None? <==>
              forall i :: i in old(jobs) ==>
                !(old(jobs)[i].key.site == site && old(jobs)[i].status == Pending && old(jobs)[i].runAfter <= now)
      ensures claimed.Some? ==>
              var id := claimed.value;
              id in old(jobs) && var j := old(jobs)[id];
              && j.key.site == site && j.status == Pending && j.runAfter <= now
              && jobs == old(jobs)[id := j.(status := InProgress)]
              && forall i ::
                   (i in old(jobs) && i != id && old(jobs)[i].key.site == site && old(jobs)[i].status == Pending
                    && old(jobs)[i].runAfter <= now)
                   ==> j.runAfter < old(jobs)[i].runAfter || (j.runAfter == old(jobs)[i].runAfter && id < i)
    {
      if forall id :: id in jobs ==> !Due(jobs, site, now, id) {
        return None;
      }
      ghost var some :| some in jobs && Due(jobs, site, now, some);
      OldestExists(jobs, site, now, some);
      var id :| id in jobs && OldestDue(jobs, site, now, id);
      jobs := jobs[id := jobs[id].(status := InProgress)];
      claimed := Some(id);
    }

    method CompleteJob(id: int)
      requires Valid()
      modifies `jobs
      ensures Valid()
      ensures jobs == if id in old(jobs) then Completed(old(jobs), id) else old(jobs)
      ensures jobs.Keys == old(jobs).Keys
      ensures forall i :: i in jobs ==>
                jobs[i] == if i == id then old(jobs)[i].(status := Done) else old(jobs)[i]
    {
      if id in jobs {
        jobs := jobs[id := jobs[id].(status := Done)];
      }
    }

    method FailJob(id: int, backoff: int, now: int)
      requires Valid()
      modifies `jobs
      ensures Valid()
      ensures jobs == if id in old(jobs) then Failing(old(jobs), id, now + backoff) else old(jobs)
      ensures jobs.Keys == old(jobs).Keys && forall i :: i in jobs && i != id ==> jobs[i] == old(jobs)[i]
      ensures id in jobs ==>
                var j := old(jobs)[id];
                jobs[id] == if j.attempts + 1 >= j.maxAttempts
                            then j.(attempts := j.attempts + 1, status := Failed)
                            else j.(attempts := j.attempts + 1, status := Pending, runAfter := now + backoff)
    {
      if id in jobs {
        var j := jobs[id];
        var attempts := j.attempts + 1;
        if attempts >= j.maxAttempts {
          jobs := jobs[id := j.(attempts := attempts, status := Failed)];
        } else {
          jobs := jobs[id := j.(attempts := attempts, status := Pending, runAfter := now + backoff)];
        }
      }
    }

    method PendingJobCount(k: Key) returns (n: int)
      ensures n == |ActiveIds(jobs, k)|
      ensures n == |CountedIds(jobs, k.site, k.kind, k.board, k.thread)|
      ensures n == 0 <==> !HasActive(jobs, k)
    {
      n := |ActiveIds(jobs, k)|;
      SameKey(jobs, k);
      CountZero(jobs, k);
    }
  }

  // ----- Every job settles

  /** Rows as the queue ever leaves them: attempts below the limit unless the job has failed. */
  predicate JobOk(j: Job) {
    && 0 <= j.attempts <= j.maxAttempts
    && 0 < j.maxAttempts
    && (j.status == Failed <==> j.attempts == j.maxAttempts)
  }

  function Rank(s: Status): nat {
    match s
    case Pending => 2
    case InProgress => 1
    case Done => 0
    case Failed => 0
  }

  /** Lexicographic: attempts left, then how far the job is from rest. */
  ghost predicate Settles(j: Job, j': Job) {
    || j'.maxAttempts - j'.attempts < j.maxAttempts - j.attempts
    || (j'.attempts == j.attempts && j'.maxAttempts == j.maxAttempts && Rank(j'.status) < Rank(j.status))
  }

  lemma TransitionsSettle(j: Job, retryAt: int)
    requires JobOk(j)
    ensures j.status == Pending ==> Settles(j, j.(status := InProgress)) && JobOk(j.(status := InProgress))
    ensures j.status == InProgress ==>
              && Settles(j, j.(status := Done)) && JobOk(j.(status := Done))
              && Settles(j, FailedOnce(j, retryAt)) && JobOk(FailedOnce(j, retryAt))
  {
  }
}
