/**
  Supervisor and worker over one board's crawl cursor, statement by statement. The job is marked done before
  the cursor is stored, so the supervisor can put a stale cursor into the next job; with one worker it is
  never more than three polls behind.
 */
module CrawlMachine {
  import opened Crawl

  /** A page number and the poll it was computed from, -1 for the initial cursor; `from` only records history. */
  datatype Cursor = Cursor(page: int, from: int)

  datatype Supervisor =
    | Idle
    | HasRead(cursor: Cursor)      // the board row is read
    | FoundFree(cursor: Cursor)    // no active catalog job was counted

  datatype CatalogJob = NoJob | Queued(cursor: Cursor) | Running(cursor: Cursor)

  datatype Setting = NothingToStore | ToStore(cursor: Cursor)

  datatype State = State(stored: Cursor, supervisor: Supervisor, job: CatalogJob, setting: Setting, log: seq<Cursor>)

  /** Read, Count and Insert are the supervisor's; the others are the worker's. */
  datatype Action = Read | Count | Insert | Claim | Succeed | Retry | GiveUp | Store

  predicate Enabled(s: State, a: Action) {
    match a
    case Read => s.supervisor.Idle?
    case Count => s.supervisor.HasRead?
    case Insert => s.supervisor.FoundFree?
    case Claim => s.job.Queued? && s.setting.NothingToStore?
    case Succeed => s.job.Running?
    case Retry => s.job.Running?
    case GiveUp => s.job.Running?
    case Store => s.setting.ToStore?
  }

  function Apply(n: nat, k: nat, s: State, a: Action): State
    requires Enabled(s, a)
  {
    match a
    case Read => s.(supervisor := HasRead(s.stored))
    case Count => s.(supervisor := if s.job.NoJob? then FoundFree(s.supervisor.cursor) else Idle)
    case Insert => s.(supervisor := Idle, job := Queued(s.supervisor.cursor))
    case Claim => s.(job := Running(s.job.cursor))
    case Succeed =>
      var c := s.job.cursor;
      s.(job := NoJob, setting := ToStore(Cursor(Next(n, k, c.page), |s.log|)), log := s.log + [c])
    case Retry => s.(job := Queued(s.job.cursor))
    case GiveUp => s.(job := NoJob)
    case Store => s.(stored := s.setting.cursor, setting := NothingToStore)
  }

  function Start(page: int): State {
    State(Cursor(page, -1), Idle, NoJob, NothingToStore, [])
  }

  /** The steps of a run from whatever state it starts in. */
  ghost predicate Steps(n: nat, k: nat, run: seq<State>, actions: seq<Action>) {
    && |run| == |actions| + 1
    && forall i :: 0 <= i < |actions| ==> Enabled(run[i], actions[i]) && run[i + 1] == Apply(n, k, run[i], actions[i])
  }

  /** A run from any stored cursor: changed settings and a shrunk history leave cursors of every kind. */
  ghost predicate IsRun(n: nat, k: nat, run: seq<State>, actions: seq<Action>) {
    Steps(n, k, run, actions) && exists page :: 1 <= page <= n + 1 && run[0] == Start(page)
  }

  // ----- The invariant

  /** The cursor is in range, and is what the poll it names left behind. */
  predicate Traced(n: nat, k: nat, log: seq<Cursor>, c: Cursor) {
    && 1 <= c.page <= n + 1
    && -1 <= c.from < |log|
    && (c.from >= 0 ==> c.page == Next(n, k, log[c.from].page))
  }

  ghost predicate LogOk(n: nat, k: nat, log: seq<Cursor>) {
    forall i :: 0 <= i < |log| ==> Traced(n, k, log[..i], log[i]) && log[i].from >= i - 3
  }

  ghost predicate Fresh(n: nat, k: nat, s: State) {
    var m := |s.log|;
    && LogOk(n, k, s.log)
    && Traced(n, k, s.log, s.stored)
    // the worker is busy with one thing at a time
    && (s.job.Running? ==> s.setting.NothingToStore?)
    && (s.setting.NothingToStore? ==> s.stored.from == m - 1)
    && (s.setting.ToStore? ==>
            s.stored.from >= m - 2 && Traced(n, k, s.log, s.setting.cursor) && s.setting.cursor.from == m - 1)
    // what is in flight is at most three polls behind, two while a job is active
    && (!s.job.NoJob? ==> Traced(n, k, s.log, s.job.cursor) && s.job.cursor.from >= m - 3)
    && (!s.supervisor.Idle? ==> Traced(n, k, s.log, s.supervisor.cursor)
                                && s.supervisor.cursor.from >= if s.job.NoJob? then m - 3 else m - 2)
    && (s.supervisor.FoundFree? ==> s.job.NoJob?)
  }

  lemma TracedLonger(n: nat, k: nat, log: seq<Cursor>, c: Cursor, more: Cursor)
    requires Traced(n, k, log, c)
    ensures Traced(n, k, log + [more], c)
  {
  }

  lemma SucceedFresh(n: nat, k: nat, s: State)
    requires Fresh(n, k, s) && k >= 1 && s.job.Running?
    ensures Fresh(n, k, Apply(n, k, s, Succeed))
  {
    var c := s.job.cursor;
    var log := s.log + [c];
    NextInRange(n, k, c.page);
    forall i | 0 <= i < |log|
      ensures Traced(n, k, log[..i], log[i]) && log[i].from >= i - 3
    {
      if i < |s.log| {
        assert log[..i] == s.log[..i];
      } else {
        assert log[..i] == s.log;
      }
    }
    TracedLonger(n, k, s.log, s.stored, c);
    if !s.supervisor.Idle? {
      TracedLonger(n, k, s.log, s.supervisor.cursor, c);
    }
  }

  lemma StepFresh(n: nat, k: nat, s: State, a: Action)
    requires Fresh(n, k, s) && k >= 1 && Enabled(s, a)
    ensures Fresh(n, k, Apply(n, k, s, a))
  {
    if a.Succeed? {
      SucceedFresh(n, k, s);
    }
  }

  lemma {:induction false} RunFresh(n: nat, k: nat, run: seq<State>, actions: seq<Action>, i: nat)
    requires IsRun(n, k, run, actions) && k >= 1 && i < |run|
    ensures Fresh(n, k, run[i])
  {
    if i > 0 {
      RunFresh(n, k, run, actions, i - 1);
      StepFresh(n, k, run[i - 1], actions[i - 1]);
    }
  }

  // ----- The stored cursor

  /**
    In every run the stored cursor stays within 1..n+1. Once nothing waits to be stored it is what the last
    successful poll left behind, however many failed before or since; until one succeeds it is the initial one.
   */
  lemma CursorFollowsSuccess(n: nat, k: nat, run: seq<State>, actions: seq<Action>, i: nat)
    requires IsRun(n, k, run, actions) && k >= 1 && i < |run|
    ensures 1 <= run[i].stored.page <= n + 1
    ensures run[i].log == [] ==> run[i].stored == run[0].stored
    ensures run[i].log != [] && run[i].setting.NothingToStore? ==>
              run[i].stored.page == Next(n, k, run[i].log[|run[i].log| - 1].page)
  {
    RunFresh(n, k, run, actions, i);
    if run[i].log == [] {
      StoredUnchanged(n, k, run, actions, i);
    }
  }

  lemma {:induction false} StoredUnchanged(n: nat, k: nat, run: seq<State>, actions: seq<Action>, i: nat)
    requires IsRun(n, k, run, actions) && i < |run| && run[i].log == []
    ensures run[i].stored == run[0].stored && run[i].setting.NothingToStore?
  {
    if i > 0 {
      StoredUnchanged(n, k, run, actions, i - 1);
    }
  }
}
