/**
  Bursts of one near-duplicate image (internal/ambitious/anomaly.go): posts sorted by time, and for each post
  a window of fixed length opened at it. Times are nanoseconds; rates are real numbers.
 */
module Bursts {

  import opened Sequences

  datatype Post = Post(time: int, board: int)

  datatype Event = Event(board: int, count: nat)

  const NANOS_PER_HOUR: real := 3600000000000.0

  ghost predicate ByTime(posts: seq<Post>) {
    forall i, j :: 0 <= i < j < |posts| ==> posts[i].time <= posts[j].time
  }

  predicate Within(p: Post, low: int, high: int) {
    low <= p.time <= high
  }

  /** How many posts fall in a closed interval of time. */
  function CountIn(posts: seq<Post>, low: int, high: int): (n: nat)
    ensures n <= |posts|
  {
    if posts == [] then 0
    else (if Within(posts[0], low, high) then 1 else 0) + CountIn(posts[1..], low, high)
  }

  lemma {:induction false} CountSplits(s: seq<Post>, t: seq<Post>, low: int, high: int)
    ensures CountIn(s + t, low, high) == CountIn(s, low, high) + CountIn(t, low, high)
    decreases |s|
  {
    if s == [] {
      assert s + t == t;
    } else {
      assert (s + t)[0] == s[0] && (s + t)[1..] == s[1..] + t;
      CountSplits(s[1..], t, low, high);
    }
  }

  /** An interval that catches more of these posts counts at least as many. */
  lemma {:induction false} CountGrows(posts: seq<Post>, low: int, high: int, low': int, high': int)
    requires forall k :: 0 <= k < |posts| && Within(posts[k], low, high) ==> Within(posts[k], low', high')
    ensures CountIn(posts, low, high) <= CountIn(posts, low', high')
    decreases |posts|
  {
    if posts != [] {
      CountGrows(posts[1..], low, high, low', high');
    }
  }

  lemma {:induction false} CountNone(posts: seq<Post>, low: int, high: int)
    requires forall k :: 0 <= k < |posts| ==> !Within(posts[k], low, high)
    ensures CountIn(posts, low, high) == 0
    decreases |posts|
  {
    if posts != [] {
      CountNone(posts[1..], low, high);
    }
  }

  lemma {:induction false} CountEvery(posts: seq<Post>, low: int, high: int)
    requires forall k :: 0 <= k < |posts| ==> Within(posts[k], low, high)
    ensures CountIn(posts, low, high) == |posts|
    decreases |posts|
  {
    if posts != [] {
      CountEvery(posts[1..], low, high);
    }
  }

  /** Counting does not depend on the order of the posts. */
  lemma {:induction false} CountPermutes(s: seq<Post>, t: seq<Post>, low: int, high: int)
    requires Permutes(s, t)
    ensures CountIn(s, low, high) == CountIn(t, low, high)
    decreases |s|
  {
    PermutesLength(s, t);
    if s != [] {
      PermutesMember(s, t, s[0]);
      var i := Find(t, s[0]);
      assert t == t[..i] + ([t[i]] + t[i + 1..]);
      CountSplits(t[..i], [t[i]] + t[i + 1..], low, high);
      CountSplits([t[i]], t[i + 1..], low, high);
      CountSplits(t[..i], t[i + 1..], low, high);
      TailPermutes(s, t, i);
      CountPermutes(s[1..], Without(t, i), low, high);
    }
  }

  /** The posts from i on in the window opened at post i. */
  ghost function WindowCount(posts: seq<Post>, i: nat, window: int): nat
    requires i < |posts|
  {
    CountIn(posts[i..], posts[i].time, posts[i].time + window)
  }

  /** The inner loop leaves at the first post past the window; on sorted posts nothing after it is inside. */
  method CountWindow(posts: seq<Post>, i: nat, window: int) returns (count: nat)
    requires i < |posts| && window > 0 && ByTime(posts)
    ensures count == WindowCount(posts, i, window)
  {
    var low, high := posts[i].time, posts[i].time + window;
    count := 1;
    var j := i + 1;
    while j < |posts|
      invariant i < j <= |posts| && count == j - i
      invariant forall k :: i <= k < j ==> Within(posts[k], low, high)
      invariant CountIn(posts[i..], low, high) == count + CountIn(posts[j..], low, high)
    {
      if posts[j].time - posts[i].time <= window {
        count := count + 1;
      } else {
        CountNone(posts[j..], low, high);
        break;
      }
      j := j + 1;
    }
  }

  // ----- The rate test

  function Larger(x: real, y: real): real {
    if x < y then y else x
  }

  function ExpectedInWindow(posts: seq<Post>, window: int): (e: real)
    requires posts != []
  {
    var hours := (posts[|posts| - 1].time - posts[0].time) as real / NANOS_PER_HOUR;
    |posts| as real / Larger(hours, 1.0) * (window as real / NANOS_PER_HOUR)
  }

  predicate IsBurst(count: nat, expected: real, threshold: real) {
    expected > 0.0 && count as real / expected >= threshold && count >= 3
  }

  /** Once a count is a burst, every larger one is. */
  lemma BurstGrows(count: nat, more: nat, expected: real, threshold: real)
    requires count <= more && IsBurst(count, expected, threshold)
    ensures IsBurst(more, expected, threshold)
  {
    assert more as real / expected == count as real / expected + (more - count) as real / expected;
    assert (more - count) as real / expected >= 0.0;
  }

  // ----- Reporting

  ghost predicate BurstAt(posts: seq<Post>, i: nat, window: int, threshold: real)
    requires i < |posts|
  {
    IsBurst(WindowCount(posts, i, window), ExpectedInWindow(posts, window), threshold)
  }

  /** The boards of the bursts opened at the first n posts. */
  ghost function BurstBoards(posts: seq<Post>, n: nat, window: int, threshold: real): set<int>
    requires n <= |posts|
  {
    if n == 0 then {}
    else
      var before := BurstBoards(posts, n - 1, window, threshold);
      if BurstAt(posts, n - 1, window, threshold) then before + {posts[n - 1].board} else before
  }

  /** Each board is reported at its first burst, unless it has an event of the last hour. */
  ghost function EventsOf(posts: seq<Post>, n: nat, window: int, threshold: real, recent: set<int>): seq<Event>
    requires n <= |posts|
  {
    if n == 0 then []
    else
      var i := n - 1;
      var before := EventsOf(posts, i, window, threshold, recent);
      if BurstAt(posts, i, window, threshold) && posts[i].board !in recent + BurstBoards(posts, i, window, threshold)
      then before + [Event(posts[i].board, WindowCount(posts, i, window))]
      else before
  }

  /** Some order of the posts by time; equal times may come either way. */
  ghost predicate IsSorting(posts: seq<Post>, sorted: seq<Post>) {
    Permutes(posts, sorted) && ByTime(sorted)
  }

  lemma InsertKeepsOrder(sorted: seq<Post>, k: nat, p: Post)
    requires ByTime(sorted) && k <= |sorted|
    requires (forall i :: 0 <= i < k ==> sorted[i].time <= p.time) && (k < |sorted| ==> p.time < sorted[k].time)
    ensures IsSorting(sorted + [p], sorted[..k] + [p] + sorted[k..])
  {
    hide Permutes;
    var longer := sorted[..k] + [p] + sorted[k..];
    InsertPermutes(sorted, k, p);
    forall i, j | 0 <= i < j < |longer|
      ensures longer[i].time <= longer[j].time
    {
      InsertedPair(sorted, k, p, i, j);
    }
  }

  lemma InsertPermutes<T>(s: seq<T>, k: nat, x: T)
    requires k <= |s|
    ensures Permutes(s + [x], s[..k] + [x] + s[k..])
  {
    assert s == s[..k] + s[k..];
  }

  lemma InsertedPair(sorted: seq<Post>, k: nat, p: Post, i: nat, j: nat)
    requires ByTime(sorted) && k <= |sorted| && i < j <= |sorted|
    requires (forall i :: 0 <= i < k ==> sorted[i].time <= p.time) && (k < |sorted| ==> p.time < sorted[k].time)
    ensures var longer := sorted[..k] + [p] + sorted[k..]; longer[i].time <= longer[j].time
  {
    var longer := sorted[..k] + [p] + sorted[k..];
    assert longer[i] == if i < k then sorted[i] else if i == k then p else sorted[i - 1];
    assert longer[j] == if j < k then sorted[j] else if j == k then p else sorted[j - 1];
    assert k < j ==> sorted[k].time <= sorted[j - 1].time;
  }

  method InsertByTime(sorted: seq<Post>, p: Post) returns (longer: seq<Post>)
    requires ByTime(sorted)
    ensures IsSorting(sorted + [p], longer)
  {
    var k := 0;
    while k < |sorted| && sorted[k].time <= p.time
      invariant k <= |sorted| && forall i :: 0 <= i < k ==> sorted[i].time <= p.time
    {
      k := k + 1;
    }
    InsertKeepsOrder(sorted, k, p);
    longer := sorted[..k] + [p] + sorted[k..];
  }

  lemma SortingMore(posts: seq<Post>, sorted: seq<Post>, p: Post, longer: seq<Post>)
    requires IsSorting(posts, sorted) && IsSorting(sorted + [p], longer)
    ensures IsSorting(posts + [p], longer)
  {
  }

  /** What the library's sort promises. */
  method SortByTime(posts: seq<Post>) returns (sorted: seq<Post>)
    ensures IsSorting(posts, sorted)
  {
    sorted := [];
    for n := 0 to |posts|
      invariant IsSorting(posts[..n], sorted)
    {
      var longer := InsertByTime(sorted, posts[n]);
      SortingMore(posts[..n], sorted, posts[n], longer);
      assert posts[..n + 1] == posts[..n] + [posts[n]];
      sorted := longer;
    }
    assert posts[..|posts|] == posts;
  }

  method DetectBursts(posts: seq<Post>, window: int, threshold: real, recent: set<int>) returns (events: seq<Event>)
    requires window > 0
    ensures |posts| < 3 ==> events == []
    ensures |posts| >= 3 ==>
            exists sorted :: IsSorting(posts, sorted) && events == EventsOf(sorted, |sorted|, window, threshold, recent)
  {
    if |posts| < 3 {
      return [];
    }
    var sorted := SortByTime(posts);
    PermutesLength(posts, sorted);
    events := ScanWindows(sorted, window, threshold, recent);
  }

  method ScanWindows(posts: seq<Post>, window: int, threshold: real, recent: set<int>) returns (events: seq<Event>)
    requires posts != [] && ByTime(posts) && window > 0
    ensures events == EventsOf(posts, |posts|, window, threshold, recent)
  {
    events := [];
    var seen := recent;
    for i := 0 to |posts|
      invariant seen == recent + BurstBoards(posts, i, window, threshold)
      invariant events == EventsOf(posts, i, window, threshold, recent)
    {
      var count := CountWindow(posts, i, window);
      var expected := ExpectedInWindow(posts, window);
      if IsBurst(count, expected, threshold) {
        if posts[i].board !in seen {
          events := events + [Event(posts[i].board, count)];
          seen := seen + {posts[i].board};
        }
      }
    }
  }

  // ----- Windows opened at posts lose nothing

  /** The earliest post not before a moment. */
  lemma {:induction false} Anchor(posts: seq<Post>, low: int, high: int) returns (i: nat)
    requires ByTime(posts) && CountIn(posts, low, high) > 0
    ensures i < |posts| && low <= posts[i].time
    ensures CountIn(posts, low, high) == CountIn(posts[i..], low, high)
    decreases |posts|
  {
    if low <= posts[0].time {
      i := 0;
      assert posts[0..] == posts;
    } else {
      var k := Anchor(posts[1..], low, high);
      i := k + 1;
      assert posts[1..][k..] == posts[i..];
    }
  }

  /** Every interval of the window's length has an anchor whose own window holds at least as many posts. */
  lemma AnchorHoldsInterval(posts: seq<Post>, low: int, window: int) returns (i: nat)
    requires ByTime(posts) && window > 0 && CountIn(posts, low, low + window) > 0
    ensures i < |posts| && WindowCount(posts, i, window) >= CountIn(posts, low, low + window)
  {
    i := Anchor(posts, low, low + window);
    CountGrows(posts[i..], low, low + window, posts[i].time, posts[i].time + window);
  }

  /** And no anchor's window holds more than the interval it opens. */
  lemma AnchorIsInterval(posts: seq<Post>, i: nat, window: int)
    requires i < |posts|
    ensures WindowCount(posts, i, window) <= CountIn(posts, posts[i].time, posts[i].time + window)
  {
    assert posts == posts[..i] + posts[i..];
    CountSplits(posts[..i], posts[i..], posts[i].time, posts[i].time + window);
  }

  /** The posts in the interval of the window's length that starts at low. */
  function IntervalCount(posts: seq<Post>, low: int, window: int): nat {
    CountIn(posts, low, low + window)
  }

  ghost predicate SomeAnchorReaches(posts: seq<Post>, window: int, n: nat) {
    exists i :: 0 <= i < |posts| && WindowCount(posts, i, window) >= n
  }

  ghost predicate SomeIntervalReaches(posts: seq<Post>, window: int, n: nat) {
    exists low :: IntervalCount(posts, low, window) >= n
  }

  /**
    On any posts, whatever order they come in, some window of the sorted ones reaches a count exactly when some
    interval does.
   */
  lemma WindowsLoseNothing(posts: seq<Post>, sorted: seq<Post>, window: int, n: nat)
    requires IsSorting(posts, sorted) && window > 0 && n > 0
    ensures SomeAnchorReaches(sorted, window, n) <==> SomeIntervalReaches(posts, window, n)
  {
    if SomeAnchorReaches(sorted, window, n) {
      var i :| 0 <= i < |sorted| && WindowCount(sorted, i, window) >= n;
      AnchorIsInterval(sorted, i, window);
      CountPermutes(posts, sorted, sorted[i].time, sorted[i].time + window);
      assert IntervalCount(posts, sorted[i].time, window) >= n;
    }
    if SomeIntervalReaches(posts, window, n) {
      var low :| IntervalCount(posts, low, window) >= n;
      CountPermutes(posts, sorted, low, low + window);
      var i := AnchorHoldsInterval(sorted, low, window);
    }
  }

  ghost predicate SomeIntervalBursts(posts: seq<Post>, window: int, expected: real, threshold: real) {
    exists low :: IsBurst(IntervalCount(posts, low, window), expected, threshold)
  }

  ghost predicate SomeAnchorBursts(posts: seq<Post>, n: nat, window: int, threshold: real)
    requires n <= |posts|
  {
    exists i :: 0 <= i < n && BurstAt(posts, i, window, threshold)
  }

  lemma {:induction false} BoardsOfBursts(posts: seq<Post>, n: nat, window: int, threshold: real)
    requires n <= |posts|
    ensures BurstBoards(posts, n, window, threshold) != {} <==> SomeAnchorBursts(posts, n, window, threshold)
    decreases n
  {
    if n > 0 {
      BoardsOfBursts(posts, n - 1, window, threshold);
      if BurstAt(posts, n - 1, window, threshold) {
        assert posts[n - 1].board in BurstBoards(posts, n, window, threshold);
      }
    }
  }

  function BoardsOf(events: seq<Event>): set<int> {
    if events == [] then {} else BoardsOf(events[..|events| - 1]) + {events[|events| - 1].board}
  }

  /** The events are one per board, for exactly the boards with a burst and no recent event. */
  lemma {:induction false} OneEventPerBoard(posts: seq<Post>, n: nat, window: int, threshold: real, recent: set<int>)
    requires n <= |posts|
    ensures var events := EventsOf(posts, n, window, threshold, recent);
            && BoardsOf(events) == BurstBoards(posts, n, window, threshold) - recent
            && |events| == |BoardsOf(events)|
    decreases n
  {
    if n > 0 {
      OneEventPerBoard(posts, n - 1, window, threshold, recent);
      var before := EventsOf(posts, n - 1, window, threshold, recent);
      var after := EventsOf(posts, n, window, threshold, recent);
      if before != after {
        assert after[..|after| - 1] == before;
      }
    }
  }

  lemma AnchorBurstIsInterval(posts: seq<Post>, sorted: seq<Post>, i: nat, window: int, threshold: real)
    requires Permutes(posts, sorted) && i < |sorted| && BurstAt(sorted, i, window, threshold)
    ensures SomeIntervalBursts(posts, window, ExpectedInWindow(sorted, window), threshold)
  {
    var low, expected := sorted[i].time, ExpectedInWindow(sorted, window);
    AnchorIsInterval(sorted, i, window);
    CountPermutes(posts, sorted, low, low + window);
    BurstGrows(WindowCount(sorted, i, window), IntervalCount(posts, low, window), expected, threshold);
  }

  lemma IntervalBurstHasAnchor(posts: seq<Post>, sorted: seq<Post>, low: int, window: int, threshold: real)
    requires IsSorting(posts, sorted) && window > 0 && sorted != []
    requires IsBurst(IntervalCount(posts, low, window), ExpectedInWindow(sorted, window), threshold)
    ensures SomeAnchorBursts(sorted, |sorted|, window, threshold)
  {
    hide ExpectedInWindow;
    CountPermutes(posts, sorted, low, low + window);
    var i := AnchorHoldsInterval(sorted, low, window);
    var expected := ExpectedInWindow(sorted, window);
    BurstGrows(IntervalCount(posts, low, window), WindowCount(sorted, i, window), expected, threshold);
    assert BurstAt(sorted, i, window, threshold);
  }

  /** With no recent events something is reported exactly when some interval of the window's length bursts. */
  lemma ReportedIff(posts: seq<Post>, sorted: seq<Post>, window: int, threshold: real)
    requires IsSorting(posts, sorted) && window > 0 && sorted != []
    ensures (EventsOf(sorted, |sorted|, window, threshold, {}) != []
         <==> SomeIntervalBursts(posts, window, ExpectedInWindow(sorted, window), threshold))
  {
    hide ExpectedInWindow, IsBurst, BurstAt, EventsOf, BurstBoards;
    var expected := ExpectedInWindow(sorted, window);
    OneEventPerBoard(sorted, |sorted|, window, threshold, {});
    BoardsOfBursts(sorted, |sorted|, window, threshold);
    if SomeAnchorBursts(sorted, |sorted|, window, threshold) {
      var i :| 0 <= i < |sorted| && BurstAt(sorted, i, window, threshold);
      AnchorBurstIsInterval(posts, sorted, i, window, threshold);
    }
    if SomeIntervalBursts(posts, window, expected, threshold) {
      var low :| IsBurst(IntervalCount(posts, low, window), expected, threshold);
      IntervalBurstHasAnchor(posts, sorted, low, window, threshold);
    }
  }
}
