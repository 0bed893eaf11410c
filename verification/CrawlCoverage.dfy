/**
  How many consecutive successful polls fetch every page, in every run of the crawl. For each kind of run the
  least such number is found: that many suffice, and some run of one poll less misses a page.
 */
module CrawlCoverage {
  import opened Crawl
  import opened CrawlMachine

  // ----- Windows of the log

  ghost function PagesOf(log: seq<Cursor>): (r: seq<int>)
    ensures |r| == |log| && forall i :: 0 <= i < |log| ==> r[i] == log[i].page
  {
    seq(|log|, i requires 0 <= i < |log| => log[i].page)
  }

  lemma LogEntry(n: nat, k: nat, log: seq<Cursor>, i: nat)
    requires LogOk(n, k, log) && i < |log|
    ensures 1 <= log[i].page <= n + 1 && i - 3 <= log[i].from < i
    ensures 3 <= i ==> log[i].page == Next(n, k, log[log[i].from].page)
  {
    assert Traced(n, k, log[..i], log[i]);
  }

  lemma LogIsLagged(n: nat, k: nat, log: seq<Cursor>, a: nat, b: nat)
    requires LogOk(n, k, log) && a <= b <= |log|
    ensures Lagged(n, k, PagesOf(log)[a..b], 3)
  {
    hide LogOk, Traced, Next, Continues;
    var polls := PagesOf(log)[a..b];
    forall i | 0 <= i < |polls|
      ensures 1 <= polls[i] <= n + 1
    {
      LogEntry(n, k, log, a + i);
    }
    forall i | 3 <= i < |polls|
      ensures Continues(n, k, polls, 3, i)
    {
      LogEntry(n, k, log, a + i);
      ContinuesFrom(n, k, polls, 3, i, log[a + i].from - a);
    }
  }

  /** Page q is fetched by one of the `length` polls from the a-th on. */
  ghost predicate FetchedIn(n: nat, k: nat, log: seq<Cursor>, a: nat, length: nat, q: int)
    requires a + length <= |log|
  {
    exists x :: a <= x < a + length && Fetches(n, k, log[x].page, q)
  }

  lemma WindowFetches(n: nat, k: nat, log: seq<Cursor>, a: nat, length: nat, q: int)
    requires a + length <= |log| && FetchedBy(n, k, PagesOf(log)[a..a + length], q)
    ensures FetchedIn(n, k, log, a, length, q)
  {
    var polls := PagesOf(log)[a..a + length];
    var x :| 0 <= x < |polls| && Fetches(n, k, polls[x], q);
    assert log[a + x].page == polls[x];
  }

  /** A window of consecutive successful polls somewhere in a run, and a page to look for. */
  datatype Window = Window(run: seq<State>, actions: seq<Action>, at: nat, first: nat, page: int)

  ghost predicate IsWindow(n: nat, w: Window, length: nat) {
    w.at < |w.run| && 1 <= w.page <= n && w.first + length <= |w.run[w.at].log|
  }

  ghost predicate Sees(n: nat, k: nat, w: Window, length: nat)
    requires IsWindow(n, w, length)
  {
    FetchedIn(n, k, w.run[w.at].log, w.first, length, w.page)
  }

  // ----- Kinds of runs

  /** The supervisor reads the cursor only when no job is active and no cursor waits to be stored. */
  ghost predicate ReadsQuietly(run: seq<State>, actions: seq<Action>)
    requires |run| == |actions| + 1
  {
    forall i :: 0 <= i < |actions| && actions[i] == Read ==> run[i].job.NoJob? && run[i].setting.NothingToStore?
  }

  /** All runs, or only those without stale reads; from any cursor, or only from the first page of a new board. */
  datatype Kind = Kind(quiet: bool, fromFirst: bool)

  ghost predicate Admits(kind: Kind, n: nat, k: nat, run: seq<State>, actions: seq<Action>) {
    && IsRun(n, k, run, actions)
    && (kind.quiet ==> ReadsQuietly(run, actions))
    && (kind.fromFirst ==> run[0] == Start(1))
  }

  /** How many polls a cursor can lie behind. */
  function Lag(kind: Kind): nat {
    if kind.quiet then 1 else 3
  }

  /** The longest way of cursors past a page. */
  function Span(n: nat, k: nat, kind: Kind): int
    requires k >= 1
  {
    if kind.fromFirst then Cycle(n, k) - 1 else Lap(n, k)
  }

  /** As many polls as the cursors of a span take, each lying behind as long as it can, and one more. */
  function Enough(n: nat, k: nat, kind: Kind): int
    requires k >= 1
  {
    if kind.quiet then Span(n, k, kind) + 1 else 3 * Span(n, k, kind) + 1
  }

  lemma EnoughIsProduct(n: nat, k: nat, kind: Kind)
    requires k >= 1
    ensures Enough(n, k, kind) == Mul(Span(n, k, kind), Lag(kind)) + 1
  {
    hide Span;
  }

  /** In every run of a kind, any `length` consecutive successful polls fetch every page of the history. */
  ghost predicate Suffices(kind: Kind, n: nat, k: nat, length: nat) {
    forall w :: IsWindow(n, w, length) && Admits(kind, n, k, w.run, w.actions) ==> Sees(n, k, w, length)
  }

  // ----- Runs without stale reads

  ghost predicate Current(s: State) {
    var m := |s.log|;
    && (forall i :: 0 <= i < m ==> s.log[i].from == i - 1)
    && (!s.job.NoJob? ==> s.job.cursor.from == m - 1 && s.setting.NothingToStore?)
    && (!s.supervisor.Idle? ==> s.supervisor.cursor.from == m - 1 && s.job.NoJob? && s.setting.NothingToStore?)
  }

  lemma {:induction false} RunCurrent(n: nat, k: nat, run: seq<State>, actions: seq<Action>, i: nat)
    requires IsRun(n, k, run, actions) && k >= 1 && i < |run| && ReadsQuietly(run, actions)
    ensures Current(run[i])
  {
    if i > 0 {
      RunCurrent(n, k, run, actions, i - 1);
      RunFresh(n, k, run, actions, i - 1);
    }
  }

  lemma CurrentLogHasNoLag(n: nat, k: nat, s: State, a: nat, b: nat)
    requires LogOk(n, k, s.log) && Current(s) && a <= b <= |s.log|
    ensures Lagged(n, k, PagesOf(s.log)[a..b], 1)
  {
    hide LogOk, Current, Traced, Next, Continues;
    var polls := PagesOf(s.log)[a..b];
    forall i | 0 <= i < |polls|
      ensures 1 <= polls[i] <= n + 1
    {
      EntryFollows(n, k, s, a + i);
    }
    forall i | 1 <= i < |polls|
      ensures Continues(n, k, polls, 1, i)
    {
      EntryFollows(n, k, s, a + i);
      ContinuesFrom(n, k, polls, 1, i, i - 1);
    }
  }

  lemma EntryFollows(n: nat, k: nat, s: State, i: nat)
    requires LogOk(n, k, s.log) && Current(s) && i < |s.log|
    ensures 1 <= s.log[i].page <= n + 1
    ensures 1 <= i ==> s.log[i].page == Next(n, k, s.log[i - 1].page)
  {
    assert Traced(n, k, s.log[..i], s.log[i]);
  }

  lemma AdmittedIsLagged(kind: Kind, n: nat, k: nat, w: Window, length: nat)
    requires Admits(kind, n, k, w.run, w.actions) && IsWindow(n, w, length) && k >= 1
    ensures Lagged(n, k, PagesOf(w.run[w.at].log)[w.first..w.first + length], Lag(kind))
  {
    var s := w.run[w.at];
    RunFresh(n, k, w.run, w.actions, w.at);
    if kind.quiet {
      RunCurrent(n, k, w.run, w.actions, w.at);
      CurrentLogHasNoLag(n, k, s, w.first, w.first + length);
    } else {
      LogIsLagged(n, k, s.log, w.first, w.first + length);
    }
  }

  // ----- Runs from page 1

  /** Every cursor about is one the crawl comes by from page 1. */
  ghost predicate OnWay(n: nat, k: nat, s: State) {
    && FromFirst(n, k, s.stored.page)
    && (!s.supervisor.Idle? ==> FromFirst(n, k, s.supervisor.cursor.page))
    && (!s.job.NoJob? ==> FromFirst(n, k, s.job.cursor.page))
    && (s.setting.ToStore? ==> FromFirst(n, k, s.setting.cursor.page))
    && forall i :: 0 <= i < |s.log| ==> FromFirst(n, k, s.log[i].page)
  }

  lemma NextOnWay(n: nat, k: nat, p: int)
    requires FromFirst(n, k, p)
    ensures FromFirst(n, k, Next(n, k, p))
  {
    var t: nat :| p == Advance(n, k, 1, t);
    assert Next(n, k, p) == Advance(n, k, 1, t + 1);
  }

  lemma StepOnWay(n: nat, k: nat, s: State, a: Action)
    requires OnWay(n, k, s) && Enabled(s, a)
    ensures OnWay(n, k, Apply(n, k, s, a))
  {
    hide FromFirst;
    if a.Succeed? {
      NextOnWay(n, k, s.job.cursor.page);
    }
  }

  lemma {:induction false} RunOnWay(n: nat, k: nat, run: seq<State>, actions: seq<Action>, i: nat)
    requires Steps(n, k, run, actions) && run[0] == Start(1) && i < |run|
    ensures OnWay(n, k, run[i])
  {
    if i == 0 {
      assert Advance(n, k, 1, 0) == 1;
    } else {
      RunOnWay(n, k, run, actions, i - 1);
      StepOnWay(n, k, run[i - 1], actions[i - 1]);
    }
  }

  // ----- Enough polls

  /** In every run of its kind, enough polls fetch every page, however the processes interleave. */
  lemma EveryPageIsFetched(kind: Kind, n: nat, k: nat, w: Window, length: nat)
    requires Admits(kind, n, k, w.run, w.actions) && k >= 1 && IsWindow(n, w, length)
    requires length >= Enough(n, k, kind)
    ensures Sees(n, k, w, length)
  {
    EnoughIsProduct(n, k, kind);
    var log := w.run[w.at].log;
    var polls := PagesOf(log)[w.first..w.first + length];
    AdmittedIsLagged(kind, n, k, w, length);
    if kind.fromFirst {
      RunOnWay(n, k, w.run, w.actions, w.at);
      forall i | 0 <= i < |polls|
        ensures FromFirst(n, k, polls[i])
      {
        assert polls[i] == log[w.first + i].page;
      }
      LaggedPollsCoverFromFirst(n, k, polls, Lag(kind), w.page);
    } else {
      LaggedPollsCover(n, k, polls, Lag(kind), w.page);
    }
    WindowFetches(n, k, log, w.first, length, w.page);
  }

  // ----- Schedules

  /** A state in which nothing is under way. */
  function Resting(c: Cursor, log: seq<Cursor>): State {
    State(c, Idle, NoJob, NothingToStore, log)
  }

  /**
    A schedule that polls one cursor three times: it is read again before the first result is stored, and once
    more before the first stale job is claimed.
   */
  function StaleAction(i: nat): Action {
    if i in {0, 5, 8} then Read
    else if i in {1, 6, 12} then Count
    else if i in {2, 7, 13} then Insert
    else if i in {3, 10, 15} then Claim
    else if i in {4, 11, 16} then Succeed
    else Store
  }

  function StaleState(n: nat, k: nat, c: Cursor, log: seq<Cursor>, i: nat): State {
    var m, next := |log|, Next(n, k, c.page);
    var first, second, third := Cursor(next, m), Cursor(next, m + 1), Cursor(next, m + 2);
    var once, twice, thrice := log + [c], log + [c] + [c], log + [c] + [c] + [c];
    match i
    case 0 => Resting(c, log)
    case 1 => State(c, HasRead(c), NoJob, NothingToStore, log)
    case 2 => State(c, FoundFree(c), NoJob, NothingToStore, log)
    case 3 => State(c, Idle, Queued(c), NothingToStore, log)
    case 4 => State(c, Idle, Running(c), NothingToStore, log)
    case 5 => State(c, Idle, NoJob, ToStore(first), once)
    case 6 => State(c, HasRead(c), NoJob, ToStore(first), once)
    case 7 => State(c, FoundFree(c), NoJob, ToStore(first), once)
    case 8 => State(c, Idle, Queued(c), ToStore(first), once)
    case 9 => State(c, HasRead(c), Queued(c), ToStore(first), once)
    case 10 => State(first, HasRead(c), Queued(c), NothingToStore, once)
    case 11 => State(first, HasRead(c), Running(c), NothingToStore, once)
    case 12 => State(first, HasRead(c), NoJob, ToStore(second), twice)
    case 13 => State(first, FoundFree(c), NoJob, ToStore(second), twice)
    case 14 => State(first, Idle, Queued(c), ToStore(second), twice)
    case 15 => State(second, Idle, Queued(c), NothingToStore, twice)
    case 16 => State(second, Idle, Running(c), NothingToStore, twice)
    case 17 => State(second, Idle, NoJob, ToStore(third), thrice)
    case _ => Resting(third, thrice)
  }

  lemma StaleStep(n: nat, k: nat, c: Cursor, log: seq<Cursor>, i: nat)
    requires i < 18
    ensures Enabled(StaleState(n, k, c, log, i), StaleAction(i))
    ensures StaleState(n, k, c, log, i + 1) == Apply(n, k, StaleState(n, k, c, log, i), StaleAction(i))
  {
  }

  /** The schedule of one poll in which the cursor is read only when it is up to date. */
  function QuietAction(i: nat): Action {
    match i
    case 0 => Read
    case 1 => Count
    case 2 => Insert
    case 3 => Claim
    case 4 => Succeed
    case _ => Store
  }

  function QuietState(n: nat, k: nat, c: Cursor, log: seq<Cursor>, i: nat): State {
    var next := Cursor(Next(n, k, c.page), |log|);
    match i
    case 0 => Resting(c, log)
    case 1 => State(c, HasRead(c), NoJob, NothingToStore, log)
    case 2 => State(c, FoundFree(c), NoJob, NothingToStore, log)
    case 3 => State(c, Idle, Queued(c), NothingToStore, log)
    case 4 => State(c, Idle, Running(c), NothingToStore, log)
    case 5 => State(c, Idle, NoJob, ToStore(next), log + [c])
    case _ => Resting(next, log + [c])
  }

  lemma QuietStep(n: nat, k: nat, c: Cursor, log: seq<Cursor>, i: nat)
    requires i < 6
    ensures Enabled(QuietState(n, k, c, log, i), QuietAction(i))
    ensures QuietState(n, k, c, log, i + 1) == Apply(n, k, QuietState(n, k, c, log, i), QuietAction(i))
  {
  }

  /** One more round of a schedule, from rest to rest: the cursor is polled Lag times. */
  lemma Round(kind: Kind, n: nat, k: nat, c: Cursor, log: seq<Cursor>)
    returns (run: seq<State>, actions: seq<Action>, next: Cursor)
    ensures Steps(n, k, run, actions) && run[0] == Resting(c, log)
    ensures run[|actions|] == Resting(next, log + seq(Lag(kind), i => c)) && next.page == Next(n, k, c.page)
    ensures kind.quiet ==> ReadsQuietly(run, actions)
  {
    if kind.quiet {
      run := seq(7, i requires 0 <= i => QuietState(n, k, c, log, i));
      actions := seq(6, i requires 0 <= i => QuietAction(i));
      next := Cursor(Next(n, k, c.page), |log|);
      forall i | 0 <= i < 6
        ensures Enabled(run[i], actions[i]) && run[i + 1] == Apply(n, k, run[i], actions[i])
      {
        QuietStep(n, k, c, log, i);
      }
      assert seq(1, i => c) == [c];
    } else {
      run := seq(19, i requires 0 <= i => StaleState(n, k, c, log, i));
      actions := seq(18, i requires 0 <= i => StaleAction(i));
      next := Cursor(Next(n, k, c.page), |log| + 2);
      forall i | 0 <= i < 18
        ensures Enabled(run[i], actions[i]) && run[i + 1] == Apply(n, k, run[i], actions[i])
      {
        StaleStep(n, k, c, log, i);
      }
      assert log + seq(3, i => c) == log + [c] + [c] + [c];
    }
  }

  lemma StepsJoin(n: nat, k: nat, run: seq<State>, actions: seq<Action>, more: seq<State>, rest: seq<Action>)
    requires Steps(n, k, run, actions) && Steps(n, k, more, rest) && run[|actions|] == more[0]
    ensures Steps(n, k, run + more[1..], actions + rest)
    ensures (run + more[1..])[|actions + rest|] == more[|rest|]
    ensures ReadsQuietly(run, actions) && ReadsQuietly(more, rest) ==> ReadsQuietly(run + more[1..], actions + rest)
  {
    var all, acts := run + more[1..], actions + rest;
    forall i | 0 <= i < |acts|
      ensures all[i] == if i < |actions| then run[i] else more[i - |actions|]
      ensures Enabled(all[i], acts[i]) && all[i + 1] == Apply(n, k, all[i], acts[i])
    {
    }
  }

  /** The turn a poll belongs to when each cursor is polled Lag times. */
  function Turn(kind: Kind, x: nat): nat {
    if kind.quiet then x else x / 3
  }

  ghost predicate Repeats(kind: Kind, n: nat, k: nat, page: int, log: seq<Cursor>, rounds: nat) {
    && |log| == Lag(kind) * rounds
    && forall x :: 0 <= x < |log| ==> log[x].page == Advance(n, k, page, Turn(kind, x))
  }

  /** There is a run that polls each cursor Lag times before it moves on to the next. */
  lemma {:induction false} SlowRun(kind: Kind, n: nat, k: nat, page: int, rounds: nat)
    returns (run: seq<State>, actions: seq<Action>, c: Cursor)
    ensures Steps(n, k, run, actions) && run[0] == Start(page)
    ensures run[|actions|] == Resting(c, run[|actions|].log) && c.page == Advance(n, k, page, rounds)
    ensures Repeats(kind, n, k, page, run[|actions|].log, rounds)
    ensures kind.quiet ==> ReadsQuietly(run, actions)
    decreases rounds
  {
    if rounds == 0 {
      run, actions, c := [Start(page)], [], Cursor(page, -1);
    } else {
      var before, acts, last := SlowRun(kind, n, k, page, rounds - 1);
      var log := before[|acts|].log;
      var more, rest;
      more, rest, c := Round(kind, n, k, last, log);
      run, actions := before + more[1..], acts + rest;
      StepsJoin(n, k, before, acts, more, rest);
      RepeatsMore(kind, n, k, page, log, rounds - 1, last);
    }
  }

  lemma RepeatsMore(kind: Kind, n: nat, k: nat, page: int, log: seq<Cursor>, rounds: nat, c: Cursor)
    requires Repeats(kind, n, k, page, log, rounds) && c.page == Advance(n, k, page, rounds)
    ensures Repeats(kind, n, k, page, log + seq(Lag(kind), i => c), rounds + 1)
  {
    var more := log + seq(Lag(kind), i => c);
    forall x | 0 <= x < |more|
      ensures more[x].page == Advance(n, k, page, Turn(kind, x))
    {
      if x >= |log| {
        assert Turn(kind, x) == rounds;
      }
    }
  }

  // ----- One poll less misses a page

  /** A run of the kind with a window of any length short of enough that never fetches page 1. */
  lemma ShorterWindowMisses(kind: Kind, n: nat, k: nat, length: nat) returns (w: Window)
    requires n >= 1 && k >= 1
    ensures length < Enough(n, k, kind) ==>
              Admits(kind, n, k, w.run, w.actions) && IsWindow(n, w, length) && !Sees(n, k, w, length)
  {
    CycleAndLap(n, k);
    var skipped := if kind.fromFirst then 1 else 0;
    var page := if kind.fromFirst then 1 else 2;
    var span, lag := Span(n, k, kind), Lag(kind);
    var run, actions, c := SlowRun(kind, n, k, page, span + skipped);
    w := Window(run, actions, |actions|, lag * skipped, 1);
    if length < Enough(n, k, kind) {
      var log := run[|actions|].log;
      forall x | w.first <= x < w.first + length
        ensures !Fetches(n, k, log[x].page, 1)
      {
        MissedTurn(kind, n, k, Turn(kind, x));
      }
    }
  }

  /** The turns of a slow run, after that of page 1 itself, that go by without page 1. */
  lemma MissedTurn(kind: Kind, n: nat, k: nat, t: nat)
    requires n >= 1 && k >= 1
    requires if kind.fromFirst then 1 <= t < Cycle(n, k) else t < Lap(n, k)
    ensures !Fetches(n, k, Advance(n, k, if kind.fromFirst then 1 else 2, t), 1)
  {
    if kind.fromFirst {
      CycleMisses(n, k, t);
    } else {
      LapMisses(n, k, t);
    }
  }

  /** The smallest case on a new board: two pages, one page a poll, and six polls that never come by page 1. */
  lemma TwoCyclesMissFirstPage() returns (w: Window)
    ensures IsRun(2, 1, w.run, w.actions) && w.run[0] == Start(1) && w.page == 1
    ensures IsWindow(2, w, 6) && 6 == 2 * Cycle(2, 1) && !Sees(2, 1, w, 6)
    ensures PagesOf(w.run[w.at].log) == [1, 1, 1, 2, 2, 2, 3, 3, 3] && w.first == 3
  {
    var kind := Kind(false, true);
    var run, actions, c := SlowRun(kind, 2, 1, 1, 3);
    w := Window(run, actions, |actions|, 3, 1);
    var log := run[|actions|].log;
    assert Advance(2, 1, 1, 0) == 1;
    assert Advance(2, 1, 1, 1) == 2;
    assert Advance(2, 1, 1, 2) == 3;
    assert Cycle(2, 1) == 3;
    forall x | 0 <= x < 9
      ensures log[x].page == x / 3 + 1
    {
      assert log[x].page == Advance(2, 1, 1, Turn(kind, x));
    }
  }

  /**
    The least number of consecutive successful polls that fetch every page, for every kind of run: three laps
    and one, without stale reads one lap and one, and a cycle where that begins at page 1.
   */
  lemma LeastWindow(kind: Kind, n: nat, k: nat, length: nat)
    requires k >= 1
    ensures Suffices(kind, n, k, length) <==> n == 0 || length >= Enough(n, k, kind)
  {
    if n > 0 && length < Enough(n, k, kind) {
      var w := ShorterWindowMisses(kind, n, k, length);
    } else {
      forall w | IsWindow(n, w, length) && Admits(kind, n, k, w.run, w.actions)
        ensures Sees(n, k, w, length)
      {
        EveryPageIsFetched(kind, n, k, w, length);
      }
    }
  }

  // ----- Two cycles

  /**
    Two cycles of polls fetch every page in every run exactly when the history is empty or one poll long; on
    new boards, exactly when two polls reach its end; without stale reads, always.
   */
  lemma TwoCyclesSufficeIff(n: nat, k: nat)
    requires k >= 1
    ensures 2 * Cycle(n, k) >= 0
    ensures Suffices(Kind(false, false), n, k, 2 * Cycle(n, k)) <==> n == 0 || n == k
    ensures Suffices(Kind(false, true), n, k, 2 * Cycle(n, k)) <==> n < 2 * k
    ensures Suffices(Kind(true, false), n, k, 2 * Cycle(n, k))
  {
    if n == 0 {
      DivBounds(0, k);
    } else {
      CycleAndLap(n, k);
    }
    var length := 2 * Cycle(n, k);
    LeastWindow(Kind(false, false), n, k, length);
    LeastWindow(Kind(false, true), n, k, length);
    LeastWindow(Kind(true, false), n, k, length);
  }
}
