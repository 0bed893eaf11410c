/**
  Crawling a site that sometimes fails to answer: what a poll does with the pages it gets decides the step the
  worker takes, so that failed polls leave the cursor alone and successful ones see every thread.
 */
module CrawlPolls {
  import opened Crawl
  import opened CrawlMachine
  import opened CrawlCoverage

  /** A history of n pages whose pages may each fail to load. */
  ghost predicate Answers(fetch: int -> Page, n: nat) {
    forall q :: q >= 1 ==> fetch(q).FetchError? || (fetch(q).summaries == [] <==> q > n)
  }

  /** A poll fails exactly when one of its pages, no further than the first empty one, fails to load. */
  lemma FailsIff(fetch: int -> Page, n: nat, p: int, k: nat, stored: int)
    requires Answers(fetch, n) && 1 <= p <= n + 1
    ensures PollFrom(fetch, p, k, stored).PollFailed? <==>
            exists q :: p <= q < p + k && q <= n + 1 && fetch(q).FetchError?
  {
    PollOutcome(fetch, p, k, stored);
    if HitsError(fetch, p, k) {
      var q :| p <= q < p + k && fetch(q).FetchError? && AllListed(fetch, p, q);
      assert !Listed(fetch(n + 1));
    }
    if q :| p <= q < p + k && q <= n + 1 && fetch(q).FetchError? {
      var first := FirstError(fetch, p, q);
      forall t | p <= t < first
        ensures Listed(fetch(t))
      {
      }
      assert AllListed(fetch, p, first);
    }
  }

  lemma {:induction false} FirstError(fetch: int -> Page, p: int, q: int) returns (first: int)
    requires p <= q && fetch(q).FetchError?
    ensures p <= first <= q && fetch(first).FetchError? && forall t :: p <= t < first ==> !fetch(t).FetchError?
    decreases q - p
  {
    if fetch(p).FetchError? {
      first := p;
    } else {
      first := FirstError(fetch, p + 1, q);
    }
  }

  lemma {:induction false} JoinedHas(fetch: int -> Page, page: int, m: nat, q: int, t: string)
    requires page <= q < page + m && fetch(q).Threads? && t in fetch(q).summaries
    ensures t in Joined(fetch, page, m)
  {
    if q < page + m - 1 {
      JoinedHas(fetch, page, m - 1, q, t);
    }
  }

  /** A poll that succeeds moves the cursor as on a site without failures, and has every thread of its pages. */
  lemma SucceedsAlike(fetch: int -> Page, n: nat, p: int, k: nat, stored: int)
    requires Answers(fetch, n) && 1 <= p <= n + 1 && k >= 1
    requires PollFrom(fetch, p, k, stored).Crawled?
    ensures PollFrom(fetch, p, k, stored).nextPage == Next(n, k, p)
    ensures forall q :: Fetches(n, k, p, q) ==> fetch(q).Threads?
    ensures forall q, t :: Fetches(n, k, p, q) && t in fetch(q).summaries ==>
              t in PollFrom(fetch, p, k, stored).summaries
  {
    PollOutcome(fetch, p, k, stored);
    var r := PollFrom(fetch, p, k, stored);
    var m: nat :| ReadsThrough(fetch, p, k, stored, m, r);
    assert m > 0 ==> Listed(fetch(p + m - 1));
    assert p + m - 1 <= n;
    assert m < k ==> p + m > n;
    forall q | Fetches(n, k, p, q)
      ensures fetch(q).Threads?
      ensures forall t :: t in fetch(q).summaries ==> t in r.summaries
    {
      assert Listed(fetch(q));
      forall t | t in fetch(q).summaries
        ensures t in r.summaries
      {
        JoinedHas(fetch, p, m, q, t);
      }
    }
  }

  // ----- The worker's steps

  predicate EndsPoll(a: Action) {
    a.Succeed? || a.Retry? || a.GiveUp?
  }

  ghost function PollAt(k: nat, s: State, fetch: int -> Page): Polled
    requires s.job.Running?
  {
    PollFrom(fetch, s.job.cursor.page, k, s.stored.page)
  }

  /** At each step the site answers in its own way, and a poll ends as its pages say. */
  ghost predicate Faces(n: nat, k: nat, run: seq<State>, actions: seq<Action>, fetches: seq<int -> Page>) {
    && IsRun(n, k, run, actions) && |fetches| == |actions|
    && forall i :: 0 <= i < |actions| ==>
         && Answers(fetches[i], n)
         && (EndsPoll(actions[i]) ==> (actions[i].Succeed? <==> PollAt(k, run[i], fetches[i]).Crawled?))
  }

  /** A poll that fails leaves stored cursor and log as they are; the job waits with its own cursor or is given up. */
  lemma FailedPollKeepsCursor(n: nat, k: nat, run: seq<State>, actions: seq<Action>, fetches: seq<int -> Page>, i: nat)
    requires Faces(n, k, run, actions, fetches) && k >= 1 && i < |actions| && EndsPoll(actions[i])
    requires run[i].job.Running? && exists q ::
               run[i].job.cursor.page <= q < run[i].job.cursor.page + k && q <= n + 1 && fetches[i](q).FetchError?
    ensures run[i + 1].stored == run[i].stored && run[i + 1].setting == run[i].setting && run[i + 1].log == run[i].log
    ensures run[i + 1].job == NoJob || run[i + 1].job == Queued(run[i].job.cursor)
  {
    RunFresh(n, k, run, actions, i);
    FailsIff(fetches[i], n, run[i].job.cursor.page, k, run[i].stored.page);
  }

  /** A poll whose pages all load is a success, and the cursor it is about to store is the one its pages give. */
  lemma LoadedPollMovesCursor(n: nat, k: nat, run: seq<State>, actions: seq<Action>, fetches: seq<int -> Page>, i: nat)
    requires Faces(n, k, run, actions, fetches) && k >= 1 && i < |actions| && EndsPoll(actions[i])
    requires run[i].job.Running? && forall q ::
               run[i].job.cursor.page <= q < run[i].job.cursor.page + k && q <= n + 1 ==> !fetches[i](q).FetchError?
    ensures PollAt(k, run[i], fetches[i]).Crawled? && run[i + 1].setting.ToStore?
    ensures run[i + 1].setting.cursor.page == PollAt(k, run[i], fetches[i]).nextPage
    ensures run[i + 1].stored == run[i].stored && run[i + 1].log == run[i].log + [run[i].job.cursor]
  {
    RunFresh(n, k, run, actions, i);
    FailsIff(fetches[i], n, run[i].job.cursor.page, k, run[i].stored.page);
    SucceedsAlike(fetches[i], n, run[i].job.cursor.page, k, run[i].stored.page);
  }

  // ----- Every thread is seen

  /** The step that logged a poll. */
  lemma {:induction false} LoggedBy(n: nat, k: nat, run: seq<State>, actions: seq<Action>, at: nat, x: nat)
    returns (i: nat)
    requires IsRun(n, k, run, actions) && at < |run| && x < |run[at].log|
    ensures i < at && actions[i].Succeed? && run[i].job.Running? && run[i].job.cursor == run[at].log[x]
    decreases at
  {
    if x < |run[at - 1].log| {
      i := LoggedBy(n, k, run, actions, at - 1, x);
    } else {
      i := at - 1;
    }
  }

  /**
    However often pages fail to load, enough consecutive successful polls see every thread: one of them has all
    that a given page listed when it was polled.
   */
  lemma EveryThreadIsSeen(kind: Kind, n: nat, k: nat, w: Window, length: nat, fetches: seq<int -> Page>)
    returns (i: nat, x: nat)
    requires Faces(n, k, w.run, w.actions, fetches) && Admits(kind, n, k, w.run, w.actions)
    requires k >= 1 && IsWindow(n, w, length) && length >= Enough(n, k, kind)
    ensures i < w.at && w.actions[i].Succeed? && w.run[i].job.Running?
    ensures w.first <= x < w.first + length && w.run[i].job.cursor == w.run[w.at].log[x]
    ensures fetches[i](w.page).Threads? && PollAt(k, w.run[i], fetches[i]).Crawled?
    ensures forall t :: t in fetches[i](w.page).summaries ==> t in PollAt(k, w.run[i], fetches[i]).summaries
  {
    EveryPageIsFetched(kind, n, k, w, length);
    x :| w.first <= x < w.first + length && Fetches(n, k, w.run[w.at].log[x].page, w.page);
    i := LoggedBy(n, k, w.run, w.actions, w.at, x);
    RunFresh(n, k, w.run, w.actions, i);
    SucceedsAlike(fetches[i], n, w.run[i].job.cursor.page, k, w.run[i].stored.page);
  }
}
