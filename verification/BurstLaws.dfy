/** When a burst is reported, in numbers: the least count, the rate over at least an hour, and each event's post. */
module BurstLaws {
  import opened FiniteSums
  import opened Sequences
  import opened Bursts

  const HOUR := 3_600_000_000_000

  // ----- The rate test without quotients

  /** The time the posts span, but at least an hour. */
  function Longest(posts: seq<Post>): int
    requires posts != []
  {
    var span := posts[|posts| - 1].time - posts[0].time;
    if span < HOUR then HOUR else span
  }

  /**
    A count is a burst exactly when it is at least three and, over the span of the posts or an hour, at least the
    threshold times what their number gives for the window.
   */
  lemma BurstIff(posts: seq<Post>, count: nat, window: int, threshold: real)
    requires posts != [] && window > 0
    ensures IsBurst(count, ExpectedInWindow(posts, window), threshold) <==>
            count >= 3
            && Prod(count as real, Longest(posts) as real) >= Prod(threshold, Prod(|posts| as real, window as real))
  {
  }

  // ----- Counts

  ghost function Inside(posts: seq<Post>, low: int, high: int): set<int> {
    set i | 0 <= i < |posts| && low <= posts[i].time <= high
  }

  lemma CountSnoc(posts: seq<Post>, low: int, high: int)
    requires posts != []
    ensures CountIn(posts, low, high) ==
            CountIn(posts[..|posts| - 1], low, high) + if low <= posts[|posts| - 1].time <= high then 1 else 0
  {
    var n := |posts| - 1;
    assert posts == posts[..n] + [posts[n]];
    CountSplits(posts[..n], [posts[n]], low, high);
    assert [posts[n]][1..] == [];
  }

  lemma InsideSnoc(posts: seq<Post>, low: int, high: int)
    requires posts != []
    ensures |posts| - 1 !in Inside(posts[..|posts| - 1], low, high)
    ensures Inside(posts, low, high) ==
            Inside(posts[..|posts| - 1], low, high)
            + if low <= posts[|posts| - 1].time <= high then {|posts| - 1} else {}
  {
  }

  /** The count of an interval is the number of posts inside, its ends included. */
  lemma {:induction false} CountIsNumber(posts: seq<Post>, low: int, high: int)
    ensures CountIn(posts, low, high) == |set i | 0 <= i < |posts| && low <= posts[i].time <= high|
    decreases |posts|
  {
    if posts == [] {
      assert Inside(posts, low, high) == {};
    } else {
      CountIsNumber(posts[..|posts| - 1], low, high);
      hide CountIn;
      CountSnoc(posts, low, high);
      InsideSnoc(posts, low, high);
    }
  }

  // ----- What is reported

  /** With no recent events, something is reported exactly when some interval of the window's length is that full. */
  lemma ReportedWhen(posts: seq<Post>, sorted: seq<Post>, window: int, threshold: real)
    requires IsSorting(posts, sorted) && window > 0 && sorted != []
    ensures EventsOf(sorted, |sorted|, window, threshold, {}) != [] <==>
            exists low ::
              && IntervalCount(posts, low, window) >= 3
              && Prod(IntervalCount(posts, low, window) as real, Longest(sorted) as real)
                 >= Prod(threshold, Prod(|posts| as real, window as real))
  {
    hide ExpectedInWindow, IsBurst, EventsOf, Prod, Longest, CountIn;
    ReportedIff(posts, sorted, window, threshold);
    PermutesLength(posts, sorted);
    var expected := ExpectedInWindow(sorted, window);
    if low :| IsBurst(IntervalCount(posts, low, window), expected, threshold) {
      BurstIff(sorted, IntervalCount(posts, low, window), window, threshold);
    }
    if low :| IntervalCount(posts, low, window) >= 3
              && Prod(IntervalCount(posts, low, window) as real, Longest(sorted) as real)
                 >= Prod(threshold, Prod(|posts| as real, window as real))
    {
      BurstIff(sorted, IntervalCount(posts, low, window), window, threshold);
    }
  }

  lemma {:induction false} BurstBoardIff(posts: seq<Post>, n: nat, window: int, threshold: real, board: int)
    requires n <= |posts|
    ensures board in BurstBoards(posts, n, window, threshold) <==>
            exists j :: 0 <= j < n && posts[j].board == board && BurstAt(posts, j, window, threshold)
    decreases n
  {
    hide BurstAt;
    if n > 0 {
      BurstBoardIff(posts, n - 1, window, threshold, board);
    }
  }

  /** Post i is the first burst of its board. */
  ghost predicate FirstBurst(posts: seq<Post>, i: nat, window: int, threshold: real)
    requires i < |posts|
  {
    && BurstAt(posts, i, window, threshold)
    && forall j :: 0 <= j < i && posts[j].board == posts[i].board ==> !BurstAt(posts, j, window, threshold)
  }

  /** The events are the first bursts of the boards without a recent event, each with its window's count. */
  lemma {:induction false} EventIff(posts: seq<Post>, n: nat, window: int, threshold: real, recent: set<int>, e: Event)
    requires n <= |posts|
    ensures e in EventsOf(posts, n, window, threshold, recent) <==>
            exists i :: 0 <= i < n && e == Event(posts[i].board, WindowCount(posts, i, window))
                        && posts[i].board !in recent && FirstBurst(posts, i, window, threshold)
    decreases n
  {
    hide BurstAt, WindowCount;
    if n > 0 {
      EventIff(posts, n - 1, window, threshold, recent, e);
      BurstBoardIff(posts, n - 1, window, threshold, posts[n - 1].board);
      assert FirstBurst(posts, n - 1, window, threshold) <==>
             (BurstAt(posts, n - 1, window, threshold)
              && posts[n - 1].board !in BurstBoards(posts, n - 1, window, threshold));
    }
  }
}
