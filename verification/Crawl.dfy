/**
  The crawl of a paginated catalog: one poll walks a few pages from a cursor, wraps to the newest page at the
  end of history, and the cursor is stored after the job is completed. While a worker is between completing a
  job and storing the cursor, the supervisor may already read the old one.
 */
module Crawl {

  // ----- One poll

  datatype Page = FetchError | Threads(summaries: seq<string>)

  datatype Polled = PollFailed | Crawled(summaries: seq<string>, nextPage: int)

  /** What a poll of `pages` pages from `page` yields; `stored` is the cursor the board row holds. */
  function PollFrom(fetch: int -> Page, page: int, pages: nat, stored: int): Polled
    decreases pages
  {
    if pages == 0 then Crawled([], stored)
    else
      match fetch(page)
      case FetchError => PollFailed
      case Threads(got) =>
        if got == [] then Crawled([], 1)
        else
          match PollFrom(fetch, page + 1, pages - 1, page + 1)
          case PollFailed => PollFailed
          case Crawled(rest, next) => Crawled(got + rest, next)
  }

  // ----- What a poll does, whatever the pages answer

  predicate Listed(p: Page) {
    p.Threads? && p.summaries != []
  }

  ghost predicate AllListed(fetch: int -> Page, from: int, upTo: int) {
    forall q :: from <= q < upTo ==> Listed(fetch(q))
  }

  /** The first page of a batch that is no list of threads is an error. */
  ghost predicate HitsError(fetch: int -> Page, page: int, pages: nat) {
    exists q :: page <= q < page + pages && fetch(q).FetchError? && AllListed(fetch, page, q)
  }

  /** The lists of m pages joined in page order. */
  ghost function Joined(fetch: int -> Page, page: int, m: nat): seq<string> {
    if m == 0 then []
    else Joined(fetch, page, m - 1) + match fetch(page + m - 1) case Threads(got) => got case FetchError => []
  }

  /** A batch is read in full, or up to an empty page: what it yields and where the cursor goes. */
  ghost predicate ReadsThrough(fetch: int -> Page, page: int, pages: nat, stored: int, m: nat, r: Polled) {
    && m <= pages && AllListed(fetch, page, page + m)
    && (m < pages ==> fetch(page + m) == Threads([]))
    && r == Crawled(Joined(fetch, page, m), if m < pages then 1 else if pages == 0 then stored else page + pages)
  }

  lemma {:induction false} JoinedFront(fetch: int -> Page, page: int, m: nat)
    requires m > 0 && fetch(page).Threads?
    ensures Joined(fetch, page, m) == fetch(page).summaries + Joined(fetch, page + 1, m - 1)
    decreases m
  {
    if m > 1 {
      JoinedFront(fetch, page, m - 1);
      assert page + 1 + (m - 1) - 1 == page + m - 1;
    }
  }

  lemma HitsNext(fetch: int -> Page, page: int, pages: nat)
    requires pages > 0 && Listed(fetch(page))
    ensures HitsError(fetch, page, pages) <==> HitsError(fetch, page + 1, pages - 1)
  {
    if HitsError(fetch, page, pages) {
      var q :| page <= q < page + pages && fetch(q).FetchError? && AllListed(fetch, page, q);
      assert AllListed(fetch, page + 1, q);
    }
    if HitsError(fetch, page + 1, pages - 1) {
      var q :| page + 1 <= q < page + pages && fetch(q).FetchError? && AllListed(fetch, page + 1, q);
      assert AllListed(fetch, page, q);
    }
  }

  /** Neither an empty batch nor an empty first page is an error; an erring first page is. */
  lemma HitsFirst(fetch: int -> Page, page: int, pages: nat)
    requires pages == 0 || !Listed(fetch(page))
    ensures HitsError(fetch, page, pages) <==> pages > 0 && fetch(page).FetchError?
  {
    if pages > 0 && fetch(page).FetchError? {
      assert AllListed(fetch, page, page);
    }
  }

  lemma ReadsNext(fetch: int -> Page, page: int, pages: nat, stored: int, m: nat, rest: Polled)
    requires pages > 0 && Listed(fetch(page)) && ReadsThrough(fetch, page + 1, pages - 1, page + 1, m, rest)
    ensures ReadsThrough(fetch, page, pages, stored, m + 1,
                         Crawled(fetch(page).summaries + rest.summaries, rest.nextPage))
  {
    JoinedFront(fetch, page, m + 1);
  }

  /** A poll fails exactly when a page errors before any is empty; else it reads pages up to an empty one. */
  lemma {:induction false} PollOutcome(fetch: int -> Page, page: int, pages: nat, stored: int)
    ensures PollFrom(fetch, page, pages, stored).PollFailed? <==> HitsError(fetch, page, pages)
    ensures PollFrom(fetch, page, pages, stored).Crawled? ==>
              exists m: nat :: ReadsThrough(fetch, page, pages, stored, m, PollFrom(fetch, page, pages, stored))
    decreases pages
  {
    if pages == 0 || !Listed(fetch(page)) {
      HitsFirst(fetch, page, pages);
      if PollFrom(fetch, page, pages, stored).Crawled? {
        assert ReadsThrough(fetch, page, pages, stored, 0, PollFrom(fetch, page, pages, stored));
      }
    } else {
      hide HitsError, ReadsThrough;
      HitsNext(fetch, page, pages);
      PollOutcome(fetch, page + 1, pages - 1, page + 1);
      var rest := PollFrom(fetch, page + 1, pages - 1, page + 1);
      if rest.Crawled? {
        var m: nat :| ReadsThrough(fetch, page + 1, pages - 1, page + 1, m, rest);
        ReadsNext(fetch, page, pages, stored, m, rest);
      }
    }
  }

  function Batch(pages: int): nat {
    if pages < 0 then 0 else pages
  }

  method CrawlPages(fetch: int -> Page, page: int, pages: int, archivePage: int) returns (r: Polled)
    ensures r == PollFrom(fetch, page, Batch(pages), archivePage)
    ensures r.PollFailed? <==> HitsError(fetch, page, Batch(pages))
    ensures r.Crawled? ==>
              exists m: nat :: ReadsThrough(fetch, page, Batch(pages), archivePage, m, r)
  {
    hide HitsError, ReadsThrough;
    PollOutcome(fetch, page, Batch(pages), archivePage);
    var summaries, nextPage := [], archivePage;
    ghost var goal := PollFrom(fetch, page, Batch(pages), archivePage);
    var i := 0;
    while i < pages
      invariant 0 <= i && (i <= pages || i == 0)
      invariant goal == (match PollFrom(fetch, page + i, if pages < i then 0 else pages - i, nextPage)
                         case PollFailed => PollFailed
                         case Crawled(rest, next) => Crawled(summaries + rest, next))
    {
      var p := page + i;
      var got := fetch(p);
      if got.FetchError? {
        return PollFailed;
      }
      if |got.summaries| == 0 {
        assert summaries + [] == summaries;
        return Crawled(summaries, 1);
      }
      ghost var rest := PollFrom(fetch, p + 1, pages - i - 1, p + 1);
      if rest.Crawled? {
        assert summaries + (got.summaries + rest.summaries) == (summaries + got.summaries) + rest.summaries;
      }
      nextPage := p + 1;
      summaries := summaries + got.summaries;
      i := i + 1;
    }
    assert summaries + [] == summaries;
    r := Crawled(summaries, nextPage);
  }

  /** A history of n non-empty pages, numbered from 1. */
  ghost predicate IsHistory(fetch: int -> Page, n: nat) {
    forall p :: p >= 1 ==> fetch(p).Threads? && (fetch(p).summaries == [] <==> p > n)
  }

  /** The cursor after a poll of k pages from p. */
  function Next(n: nat, k: nat, p: int): int {
    if p + k - 1 <= n then p + k else 1
  }

  /**
    A poll of a fixed history always succeeds, moves the cursor on, and fetches pages p to p + k - 1 as far as
    they exist.
   */
  lemma {:induction false} PollOfHistory(fetch: int -> Page, n: nat, p: int, k: nat, stored: int)
    requires IsHistory(fetch, n) && 1 <= p <= n + 1 && k >= 1
    ensures PollFrom(fetch, p, k, stored).Crawled?
    ensures PollFrom(fetch, p, k, stored).nextPage == Next(n, k, p)
    ensures forall q, t :: p <= q < p + k && q <= n && t in fetch(q).summaries ==>
            t in PollFrom(fetch, p, k, stored).summaries
    decreases k
  {
    if p <= n && k > 1 {
      PollOfHistory(fetch, n, p + 1, k - 1, p + 1);
    }
  }

  /** The cursor never leaves 1..n+1. */
  lemma NextInRange(n: nat, k: nat, p: int)
    requires 1 <= p <= n + 1 && k >= 1
    ensures 1 <= Next(n, k, p) <= n + 1
  {
  }

  // ----- Coverage by consecutive polls

  predicate Fetches(n: nat, k: nat, p: int, q: int) {
    p <= q < p + k && q <= n
  }

  /** A product and a quotient, named so that equal factors are recognised before any arithmetic is done. */
  function Mul(a: int, k: int): int {
    a * k
  }

  function Div(a: int, k: int): int
    requires k != 0
  {
    a / k
  }

  /**
    Polls in one full cycle from page 1: as many as it takes to see n pages and the empty one behind them, k at
    a time.
   */
  function Cycle(n: nat, k: nat): int
    requires k >= 1
  {
    Div(n, k) + 1
  }

  /** Polls it takes to go past n pages, k at a time, from wherever the cursor stands. */
  function Lap(n: nat, k: nat): int
    requires k >= 1
  {
    Div(n - 1, k) + 1
  }

  function Advance(n: nat, k: nat, p: int, steps: nat): int {
    if steps == 0 then p else Next(n, k, Advance(n, k, p, steps - 1))
  }

  lemma {:induction false} AdvanceAdds(n: nat, k: nat, p: int, s: nat, t: nat)
    ensures Advance(n, k, p, s + t) == Advance(n, k, Advance(n, k, p, s), t)
  {
    if t > 0 {
      AdvanceAdds(n, k, p, s, t - 1);
    }
  }

  lemma MulStep(t: int, k: int)
    ensures Mul(t + 1, k) == Mul(t, k) + k && Mul(0, k) == 0
  {
  }

  lemma MulCancel(x: int, y: int, k: int)
    requires k >= 1 && Mul(x, k) < Mul(y, k)
    ensures x < y
  {
  }

  lemma DivBounds(a: int, k: int)
    requires k >= 1
    ensures Mul(Div(a, k), k) <= a < Mul(Div(a, k), k) + k
    ensures a >= 0 ==> Div(a, k) >= 0
  {
  }

  lemma DivMonotone(a: int, b: int, k: int)
    requires k >= 1 && a <= b
    ensures Div(a, k) <= Div(b, k)
  {
    DivBounds(a, k);
    DivBounds(b, k);
    MulStep(Div(b, k), k);
    MulCancel(Div(a, k), Div(b, k) + 1, k);
  }

  /** Two stretches hold no more whole batches than one as long as both. */
  lemma DivAdds(a: nat, b: nat, k: int)
    requires k >= 1
    ensures Div(a, k) + Div(b, k) <= Div(a + b, k)
  {
    var x, y, z := Div(a, k), Div(b, k), Div(a + b, k);
    DivBounds(a, k);
    DivBounds(b, k);
    DivBounds(a + b, k);
    MulAdds(x, y, k);
    MulStep(z, k);
    MulCancel(x + y, z + 1, k);
  }

  lemma MulAdds(x: int, y: int, k: int)
    ensures Mul(x + y, k) == Mul(x, k) + Mul(y, k)
  {
  }

  lemma {:induction false} AdvanceStraight(n: nat, k: nat, p: int, t: nat)
    requires 1 <= p && p + Mul(t, k) <= n + 1
    ensures Advance(n, k, p, t) == p + Mul(t, k)
  {
    MulStep(t - 1, k);
    if t > 0 {
      AdvanceStraight(n, k, p, t - 1);
    }
  }

  /** From any cursor the crawl wraps to page 1 after the whole batches that are left, and one poll more. */
  lemma WrapsAfter(n: nat, k: nat, p: int)
    requires 1 <= p <= n + 1 && k >= 1
    ensures Div(n + 1 - p, k) >= 0 && Advance(n, k, p, Div(n + 1 - p, k) + 1) == 1
  {
    DivBounds(n + 1 - p, k);
    AdvanceStraight(n, k, p, Div(n + 1 - p, k));
  }

  /** Page q is fetched after as many polls as there are whole batches before it. */
  lemma ReachedStraight(n: nat, k: nat, p: int, q: int)
    requires 1 <= p <= q <= n && k >= 1
    ensures Div(q - p, k) >= 0 && Fetches(n, k, Advance(n, k, p, Div(q - p, k)), q)
  {
    DivBounds(q - p, k);
    AdvanceStraight(n, k, p, Div(q - p, k));
  }

  /** Whatever the cursor, a lap of polls and one more fetch every page. */
  lemma LapCovers(n: nat, k: nat, p: int, q: int) returns (t: nat)
    requires 1 <= p <= n + 1 && k >= 1 && 1 <= q <= n
    ensures t <= Lap(n, k) && Fetches(n, k, Advance(n, k, p, t), q)
  {
    if p <= q {
      ReachedStraight(n, k, p, q);
      DivMonotone(q - p, n - 1, k);
      t := Div(q - p, k);
    } else {
      WrapsAfter(n, k, p);
      ReachedStraight(n, k, 1, q);
      var s, u := Div(n + 1 - p, k) + 1, Div(q - 1, k);
      AdvanceAdds(n, k, p, s, u);
      DivAdds(n + 1 - p, q - 1, k);
      DivMonotone(n + q - p, n - 1, k);
      t := s + u;
    }
  }

  /** And no fewer will do: from page 2 a lap of polls goes by without page 1. */
  lemma LapMisses(n: nat, k: nat, t: nat)
    requires n >= 1 && k >= 1 && t < Lap(n, k)
    ensures !Fetches(n, k, Advance(n, k, 2, t), 1)
  {
    DivBounds(n - 1, k);
    MulGrows(t, Div(n - 1, k), k);
    AdvanceStraight(n, k, 2, t);
    MulPositive(t, k);
  }

  lemma MulGrows(x: int, y: int, k: int)
    requires x <= y && k >= 0
    ensures Mul(x, k) <= Mul(y, k)
  {
  }

  lemma MulPositive(m: int, k: int)
    requires m >= 0 && k >= 0
    ensures Mul(m, k) >= 0
  {
  }

  /** So two cycles of polls are more than enough when each continues the one before. */
  lemma TwoCyclesCover(n: nat, k: nat, p: int, q: int) returns (t: nat)
    requires 1 <= p <= n + 1 && k >= 1 && 1 <= q <= n
    ensures t < 2 * Cycle(n, k) && Fetches(n, k, Advance(n, k, p, t), q)
  {
    CycleAndLap(n, k);
    t := LapCovers(n, k, p, q);
  }

  /** From page 1 the cursor comes back to page 1 after a cycle, so one cycle of polls fetches every page. */
  lemma {:induction false} CycleCovers(n: nat, k: nat, before: nat, q: int) returns (t: nat)
    requires k >= 1 && 1 <= q <= n
    ensures t < Cycle(n, k) && Fetches(n, k, Advance(n, k, 1, before + t), q)
    decreases before
  {
    if before == 0 {
      ReachedStraight(n, k, 1, q);
      DivMonotone(q - 1, n, k);
      t := Div(q - 1, k);
    } else {
      var s := CycleCovers(n, k, before - 1, q);
      if s > 0 {
        t := s - 1;
      } else {
        WrapsAfter(n, k, 1);
        var cycle := Cycle(n, k);
        AdvanceAdds(n, k, 1, cycle, before - 1);
        t := cycle - 1;
      }
    }
  }

  /** And no fewer: after page 1's own poll the rest of the cycle goes by without it. */
  lemma CycleMisses(n: nat, k: nat, t: nat)
    requires k >= 1 && 1 <= t < Cycle(n, k)
    ensures !Fetches(n, k, Advance(n, k, 1, t), 1)
  {
    DivBounds(n, k);
    MulGrows(t, Div(n, k), k);
    AdvanceStraight(n, k, 1, t);
    MulPositive(t - 1, k);
    MulStep(t - 1, k);
  }

  /** How cycles and laps compare, and when twice the cycle outlasts three laps. */
  lemma CycleAndLap(n: nat, k: nat)
    requires n >= 1 && k >= 1
    ensures 1 <= Lap(n, k) <= Cycle(n, k) <= Lap(n, k) + 1
    ensures 2 * Cycle(n, k) >= 3 * Lap(n, k) + 1 <==> n == k
    ensures Cycle(n, k) <= 2 <==> n < 2 * k
  {
    var m, c := Div(n - 1, k), Div(n, k);
    DivBounds(n - 1, k);
    DivBounds(n, k);
    DivMonotone(n - 1, n, k);
    MulStep(m, k);
    MulStep(m + 1, k);
    MulStep(0, k);
    MulStep(1, k);
    MulCancel(c, m + 2, k);
    if c >= 2 {
      MulGrows(2, c, k);
    }
    if m == 0 && c == 1 {
      assert n == k;
    }
    if n == k {
      MulCancel(c, 2, k);
      MulCancel(m, 1, k);
      MulCancel(0, c + 1, k);
    }
  }

  /** Poll i starts where one of the `lag` polls before it left off. */
  ghost predicate Continues(n: nat, k: nat, polls: seq<int>, lag: nat, i: int)
    requires 0 <= i < |polls|
  {
    exists j :: i - lag <= j < i && 0 <= j && polls[i] == Next(n, k, polls[j])
  }

  lemma ContinuesFrom(n: nat, k: nat, polls: seq<int>, lag: nat, i: int, j: int)
    requires 0 <= i < |polls| && i - lag <= j < i && 0 <= j && polls[i] == Next(n, k, polls[j])
    ensures Continues(n, k, polls, lag, i)
  {
  }

  ghost predicate Lagged(n: nat, k: nat, polls: seq<int>, lag: nat) {
    && (forall i :: 0 <= i < |polls| ==> 1 <= polls[i] <= n + 1)
    && forall i :: lag <= i < |polls| ==> Continues(n, k, polls, lag, i)
  }

  /** A poll up to the last-th one stood at page p. */
  ghost predicate Occurs(polls: seq<int>, last: nat, p: int)
    requires last < |polls|
  {
    exists x :: 0 <= x <= last && polls[x] == p
  }

  lemma OccursLater(polls: seq<int>, j: nat, i: nat, p: int)
    requires j <= i < |polls| && Occurs(polls, j, p)
    ensures Occurs(polls, i, p)
  {
    var x :| 0 <= x <= j && polls[x] == p;
  }

  /** Following the polls backwards from i reaches one of the first `lag`, at least i / lag steps away. */
  lemma {:induction false} ChainBack(n: nat, k: nat, polls: seq<int>, lag: nat, i: nat) returns (start: int, steps: nat)
    requires Lagged(n, k, polls, lag) && lag >= 1 && i < |polls|
    ensures 1 <= start <= n + 1 && polls[i] == Advance(n, k, start, steps)
    ensures Mul(steps + 1, lag) > i
    ensures forall t: nat :: t <= steps ==> Occurs(polls, i, Advance(n, k, start, t))
    decreases i
  {
    if i < lag {
      start, steps := polls[i], 0;
      MulStep(0, lag);
    } else {
      assert Continues(n, k, polls, lag, i);
      var j :| i - lag <= j < i && 0 <= j && polls[i] == Next(n, k, polls[j]);
      var before;
      start, before := ChainBack(n, k, polls, lag, j);
      steps := before + 1;
      MulStep(before + 1, lag);
      forall t: nat | t <= steps
        ensures Occurs(polls, i, Advance(n, k, start, t))
      {
        if t <= before {
          OccursLater(polls, j, i, Advance(n, k, start, t));
        } else {
          assert polls[i] == Advance(n, k, start, t);
        }
      }
    }
  }

  /** Some poll fetches page q. */
  ghost predicate FetchedBy(n: nat, k: nat, polls: seq<int>, q: int) {
    exists x :: 0 <= x < |polls| && Fetches(n, k, polls[x], q)
  }

  lemma OccurrenceFetches(n: nat, k: nat, polls: seq<int>, last: nat, p: int, q: int)
    requires last < |polls| && Occurs(polls, last, p) && Fetches(n, k, p, q)
    ensures FetchedBy(n, k, polls, q)
  {
    var x :| 0 <= x <= last && polls[x] == p;
    assert Fetches(n, k, polls[x], q);
  }

  /** With a lag of d, d laps of consecutive polls and one more fetch every page. */
  lemma LaggedPollsCover(n: nat, k: nat, polls: seq<int>, lag: nat, q: int)
    requires Lagged(n, k, polls, lag) && lag >= 1 && k >= 1 && 1 <= q <= n
    requires |polls| > Mul(Lap(n, k), lag)
    ensures FetchedBy(n, k, polls, q)
  {
    var last := LastOf(n, k, |polls|, Lap(n, k), lag);
    var start, steps := ChainBack(n, k, polls, lag, last);
    MulCancel(Lap(n, k), steps + 1, lag);
    var t := LapCovers(n, k, start, q);
    OccurrenceFetches(n, k, polls, last, Advance(n, k, start, t), q);
  }

  lemma LastOf(n: nat, k: nat, length: nat, m: int, lag: nat) returns (last: nat)
    requires k >= 1 && n >= 1 && length > Mul(m, lag) && m in {Lap(n, k), Cycle(n, k) - 1}
    ensures last == Mul(m, lag) && last < length
  {
    CycleAndLap(n, k);
    MulPositive(m, lag);
    last := Mul(m, lag);
  }

  /** A cursor the crawl comes by on its way from page 1. */
  ghost predicate FromFirst(n: nat, k: nat, p: int) {
    exists t: nat :: p == Advance(n, k, 1, t)
  }

  /** When the crawl began at page 1, one poll less than a cycle per lag, and one more, fetch every page. */
  lemma LaggedPollsCoverFromFirst(n: nat, k: nat, polls: seq<int>, lag: nat, q: int)
    requires Lagged(n, k, polls, lag) && lag >= 1 && k >= 1 && 1 <= q <= n
    requires forall i :: 0 <= i < |polls| ==> FromFirst(n, k, polls[i])
    requires |polls| > Mul(Cycle(n, k) - 1, lag)
    ensures FetchedBy(n, k, polls, q)
  {
    var last := LastOf(n, k, |polls|, Cycle(n, k) - 1, lag);
    var start, steps := ChainBack(n, k, polls, lag, last);
    MulCancel(Cycle(n, k) - 1, steps + 1, lag);
    assert Occurs(polls, last, Advance(n, k, start, 0));
    var first :| 0 <= first <= last && polls[first] == start;
    assert FromFirst(n, k, polls[first]);
    var before: nat :| start == Advance(n, k, 1, before);
    var t := CycleCovers(n, k, before, q);
    AdvanceAdds(n, k, 1, before, t);
    OccurrenceFetches(n, k, polls, last, Advance(n, k, start, t), q);
  }
}
