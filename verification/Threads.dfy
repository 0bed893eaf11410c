/**
  Thread rows and the live catalog pass: listed threads are refreshed, active threads that are missing too
  often in a row are archived.
 */
module Threads {
  import opened Options
  import opened FiniteSums

  datatype Status = Live | Archived

  datatype Row = Row(board: int, native: string, status: Status, missing: int, replies: int, lastSeen: Option<int>)

  type Table = map<int, Row>

  datatype Summary = Summary(native: string, replies: int)

  // ----- Row transitions

  /** A catalog entry revives an archived thread and clears its misses. */
  function Upserted(r: Row): Row {
    r.(missing := 0, status := Live)
  }

  function Seen(r: Row, replies: int, now: int): Row {
    r.(lastSeen := Some(now), missing := 0, replies := if replies > r.replies then replies else r.replies)
  }

  function MarkedArchived(r: Row): Row {
    r.(status := Archived, missing := 0)
  }

  function Missed(r: Row): Row {
    r.(missing := r.missing + 1)
  }

  function NewRow(board: int, native: string): Row {
    Row(board, native, Live, 0, 0, None)
  }

  /** What one live poll does to a thread it did not list. */
  function MissedByPoll(r: Row, limit: int): Row {
    if r.status != Live then r
    else if Missed(r).missing >= limit then MarkedArchived(Missed(r))
    else Missed(r)
  }

  predicate IsRow(rows: Table, id: int, board: int, native: string) {
    id in rows && rows[id].board == board && rows[id].native == native
  }

  /** (board, native id) identifies a thread. */
  ghost predicate KeysUnique(rows: Table) {
    forall i, j ::
      i in rows && j in rows && rows[i].board == rows[j].board && rows[i].native == rows[j].native ==> i == j
  }

  predicate Mirrored(rows: Table, family: set<int>, board: int, native: string) {
    exists id :: id in rows && rows[id].native == native && rows[id].board != board && rows[id].board in family
  }

  class ThreadStore {
    var rows: Table
    var nextId: int
    /** Boards of the sites whose post numbers are shared. */
    const family: set<int>

    ghost predicate Valid()
      reads this
    {
      KeysUnique(rows) && forall id :: id in rows ==> id < nextId
    }

    method FindThreadMirror(board: int, native: string) returns (found: bool)
      ensures found <==> Mirrored(rows, family, board, native)
      ensures found <==>
              exists id ::
                id in rows && rows[id].native == native && rows[id].board != board && rows[id].board in family
    {
      found := Mirrored(rows, family, board, native);
    }

    /** The id sequence advances on every call, also when the row exists. */
    method UpsertThread(board: int, native: string) returns (id: int, created: bool)
      requires Valid()
      modifies this
      ensures Valid() && IsRow(rows, id, board, native)
      ensures created <==> id !in old(rows)
      ensures created ==> rows == old(rows)[id := NewRow(board, native)]
      ensures created ==> forall i :: !IsRow(old(rows), i, board, native)
      ensures !created ==> IsRow(old(rows), id, board, native) && rows == old(rows)[id := Upserted(old(rows)[id])]
      ensures created ==> rows[id] == Row(board, native, Live, 0, 0, None)
      ensures !created ==> rows[id] == old(rows)[id].(missing := 0, status := Live)
    {
      if exists i :: IsRow(rows, i, board, native) && i in rows {
        id :| id in rows && IsRow(rows, id, board, native);
        created := false;
        rows := rows[id := rows[id].(missing := 0, status := Live)];
      } else {
        id, created := nextId, true;
        rows := rows[id := NewRow(board, native)];
      }
      nextId := nextId + 1;
    }

    method MarkThreadSeen(id: int, replies: int, now: int)
      requires Valid()
      modifies `rows
      ensures Valid()
      ensures rows == if id in old(rows) then old(rows)[id := Seen(old(rows)[id], replies, now)] else old(rows)
      ensures id in rows ==>
                var r := old(rows)[id];
                rows[id] == Row(r.board, r.native, r.status, 0, if replies > r.replies then replies else r.replies,
                                Some(now))
    {
      if id in rows {
        var r := rows[id];
        var most := if replies > r.replies then replies else r.replies;
        rows := rows[id := r.(lastSeen := Some(now), missing := 0, replies := most)];
      }
    }

    method MarkThreadArchived(id: int)
      requires Valid()
      modifies `rows
      ensures Valid()
      ensures rows == if id in old(rows) then old(rows)[id := MarkedArchived(old(rows)[id])] else old(rows)
      ensures id in rows ==> rows[id] == old(rows)[id].(status := Archived, missing := 0)
    {
      if id in rows {
        rows := rows[id := rows[id].(status := Archived, missing := 0)];
      }
    }

    method RecordThreadMissing(id: int) returns (n: Option<int>)
      requires Valid()
      modifies `rows
      ensures Valid()
      ensures n.None? <==> id !in old(rows)
      ensures n.None? ==> rows == old(rows)
      ensures n.Some? ==> rows == old(rows)[id := Missed(old(rows)[id])] && n.value == rows[id].missing
      ensures n.Some? ==> n.value == old(rows)[id].missing + 1 && rows[id] == old(rows)[id].(missing := n.value)
    {
      if id !in rows {
        return None;
      }
      rows := rows[id := rows[id].(missing := rows[id].missing + 1)];
      n := Some(rows[id].missing);
    }

    /** The two statements for one entry of the catalog. */
    method RefreshEntry(board: int, sum: Summary, now: int) returns (id: int, isNew: bool)
      requires Valid()
      modifies this
      ensures Valid() && PutOne(old(rows), rows, board, now, sum, id)
      ensures isNew <==> id !in old(rows)
      ensures rows.Keys == old(rows).Keys + {id}
    {
      id, isNew := UpsertThread(board, sum.native);
      MarkThreadSeen(id, sum.replies, now);
    }

    /** Refreshes every listed thread that is not mirrored elsewhere; reports what was listed and what is new. */
    method RefreshListed(board: int, summaries: seq<Summary>, now: int) returns (seen: set<string>, created: set<int>)
      requires Valid()
      modifies this
      ensures Valid()
      ensures seen == Natives(summaries)
      ensures Refreshed(old(rows), rows, family, board, summaries, now)
      ensures created == rows.Keys - old(rows).Keys
    {
      seen, created := {}, {};
      ghost var before := rows;
      for i := 0 to |summaries|
        invariant Valid()
        invariant seen == Natives(summaries[..i])
        invariant Refreshed(before, rows, family, board, summaries[..i], now)
        invariant created == rows.Keys - before.Keys
      {
        hide Refreshed, Mirrored, Natives, KeysUnique, PutOne;
        var sum := summaries[i];
        ghost var mid, listed := rows, summaries[..i];
        seen := seen + {sum.native};
        NativesSnoc(summaries, i);
        var mirror := FindThreadMirror(board, sum.native);
        if mirror {
          SkipMirrored(before, rows, family, board, listed, now, sum);
        } else {
          var id, isNew := RefreshEntry(board, sum, now);
          if isNew {
            created := created + {id};
          }
          RefreshOne(before, mid, rows, family, board, listed, now, sum, id);
        }
        assert listed + [sum] == summaries[..i + 1];
      }
      assert summaries[..|summaries|] == summaries;
    }

    /** Counts a miss for every active thread of the board that was not listed, and archives at the limit. */
    method ArchiveMissing(board: int, seen: set<string>, limit: int)
      requires Valid()
      modifies `rows
      ensures Valid()
      ensures rows.Keys == old(rows).Keys
      ensures forall id :: id in rows ==> rows[id] == AfterMisses(old(rows)[id], board, seen, limit)
    {
      var before := rows;
      var active := set id | id in rows && rows[id].board == board && rows[id].status == Live;
      var rest := active;
      while rest != {}
        invariant Valid()
        invariant rest <= active && rows.Keys == before.Keys
        invariant forall id :: id in rows ==>
                    rows[id] == if id in active && id !in rest then AfterMisses(before[id], board, seen, limit)
                                else before[id]
        decreases rest
      {
        var id := PickAny(rest);
        rest := rest - {id};
        if before[id].native !in seen {
          var n := RecordThreadMissing(id);
          if n.Some? && n.value >= limit {
            MarkThreadArchived(id);
          }
        }
      }
    }

    /** One live catalog poll of a board. */
    method LiveCatalogPass(board: int, summaries: seq<Summary>, now: int, limit: int) returns (created: set<int>)
      requires Valid()
      modifies this
      ensures Valid()
      ensures created == rows.Keys - old(rows).Keys
      ensures PassEffect(old(rows), rows, family, board, summaries, now, limit)
    {
      ghost var before := rows;
      var seen;
      seen, created := RefreshListed(board, summaries, now);
      ghost var mid := rows;
      ArchiveMissing(board, seen, limit);
      ComposePass(before, mid, rows, family, board, summaries, now, limit);
    }
  }

  // ----- The effect of a pass, row by row

  ghost function Natives(summaries: seq<Summary>): set<string> {
    set i | 0 <= i < |summaries| :: summaries[i].native
  }

  lemma NativesSnoc(summaries: seq<Summary>, i: nat)
    requires i < |summaries|
    ensures Natives(summaries[..i + 1]) == Natives(summaries[..i]) + {summaries[i].native}
  {
    var s, t := summaries[..i + 1], summaries[..i];
    assert forall j :: 0 <= j < i ==> s[j] == t[j];
    forall x | x in Natives(t) + {summaries[i].native}
      ensures x in Natives(s)
    {
      if x in Natives(t) {
        var j :| 0 <= j < |t| && t[j].native == x;
        assert s[j].native == x;
      } else {
        assert s[i].native == x;
      }
    }
  }

  /** The most replies that the entries of a thread report, or what is known already. */
  function Most(summaries: seq<Summary>, native: string, known: int): int {
    if summaries == [] then known
    else
      var last := summaries[|summaries| - 1];
      var most := Most(summaries[..|summaries| - 1], native, known);
      if last.native == native && last.replies > most then last.replies else most
  }

  lemma {:induction false} MostIsLargest(summaries: seq<Summary>, native: string, known: int)
    ensures var most := Most(summaries, native, known);
            && known <= most
            && (forall i :: 0 <= i < |summaries| && summaries[i].native == native ==> summaries[i].replies <= most)
            && (most == known
                || exists i :: 0 <= i < |summaries| && summaries[i].native == native && summaries[i].replies == most)
    decreases |summaries|
  {
    if summaries != [] {
      var n := |summaries| - 1;
      MostIsLargest(summaries[..n], native, known);
      assert Most(summaries, native, known) == Most(summaries[..n], native, known)
             || (summaries[n].native == native && summaries[n].replies == Most(summaries, native, known));
    }
  }

  lemma {:induction false} MostOfUnlisted(summaries: seq<Summary>, native: string, known: int)
    requires native !in Natives(summaries)
    ensures Most(summaries, native, known) == known
    decreases |summaries|
  {
    if summaries != [] {
      var n := |summaries| - 1;
      assert summaries[n].native in Natives(summaries);
      NativesSnoc(summaries, n);
      assert summaries[..n + 1] == summaries;
      MostOfUnlisted(summaries[..n], native, known);
    }
  }

  lemma MostSnoc(summaries: seq<Summary>, sum: Summary, native: string, known: int)
    ensures Most(summaries + [sum], native, known) ==
            if sum.native == native && sum.replies > Most(summaries, native, known) then sum.replies
            else Most(summaries, native, known)
  {
    assert (summaries + [sum])[..|summaries|] == summaries;
  }

  lemma NativesJoin(summaries: seq<Summary>, sum: Summary)
    ensures Natives(summaries + [sum]) == Natives(summaries) + {sum.native}
  {
    NativesSnoc(summaries + [sum], |summaries|);
    assert (summaries + [sum])[..|summaries| + 1] == summaries + [sum];
    assert (summaries + [sum])[..|summaries|] == summaries;
  }

  /** A row after its thread was listed: live, no misses, seen just now, with the most replies reported. */
  predicate Refresh(r: Row, r': Row, summaries: seq<Summary>, now: int) {
    r' == Row(r.board, r.native, Live, 0, Most(summaries, r.native, r.replies), Some(now))
  }

  ghost predicate IsRefreshed(rows: Table, family: set<int>, board: int, summaries: seq<Summary>, native: string) {
    native in Natives(summaries) && !Mirrored(rows, family, board, native)
  }

  /** Rows of the board that are listed and not mirrored are refreshed or new; all other rows are unchanged. */
  ghost predicate Refreshed(rows: Table, rows': Table, family: set<int>, board: int, summaries: seq<Summary>, now: int)
  {
    && (forall id :: id in rows ==>
          id in rows'
          && if rows[id].board == board && IsRefreshed(rows, family, board, summaries, rows[id].native)
             then Refresh(rows[id], rows'[id], summaries, now) else rows'[id] == rows[id])
    && (forall id :: id in rows' && id !in rows ==>
          IsRefreshed(rows, family, board, summaries, rows'[id].native)
          && Refresh(NewRow(board, rows'[id].native), rows'[id], summaries, now))
    && forall native :: IsRefreshed(rows, family, board, summaries, native) ==>
            exists id :: IsRow(rows', id, board, native)
  }

  /** New and refreshed rows are of this board, so they mirror nothing here. */
  lemma SameMirrors(rows: Table, rows': Table, family: set<int>, board: int, summaries: seq<Summary>, now: int,
                    native: string)
    requires Refreshed(rows, rows', family, board, summaries, now)
    ensures Mirrored(rows', family, board, native) <==> Mirrored(rows, family, board, native)
  {
    hide Most, IsRefreshed;
    if Mirrored(rows, family, board, native) {
      var id :| id in rows && rows[id].native == native && rows[id].board != board && rows[id].board in family;
      assert rows'[id] == rows[id];
    }
    if Mirrored(rows', family, board, native) {
      var id :| id in rows' && rows'[id].native == native && rows'[id].board != board && rows'[id].board in family;
      assert id in rows;
    }
  }

  lemma SkipMirrored(rows: Table, rows': Table, family: set<int>, board: int, summaries: seq<Summary>, now: int,
                     sum: Summary)
    requires Refreshed(rows, rows', family, board, summaries, now) && Mirrored(rows', family, board, sum.native)
    ensures Refreshed(rows, rows', family, board, summaries + [sum], now)
  {
    SameMirrors(rows, rows', family, board, summaries, now, sum.native);
    NativesJoin(summaries, sum);
    hide Most, Mirrored, Natives;
    forall native, known | native != sum.native
      ensures Most(summaries + [sum], native, known) == Most(summaries, native, known)
    {
      MostSnoc(summaries, sum, native, known);
    }
    forall native
      ensures IsRefreshed(rows, family, board, summaries + [sum], native) <==>
              IsRefreshed(rows, family, board, summaries, native)
    {
    }
  }

  /** What the statements did to the row of one entry. */
  ghost predicate PutOne(mid: Table, rows': Table, board: int, now: int, sum: Summary, id: int) {
    && IsRow(rows', id, board, sum.native) && rows'.Keys == mid.Keys + {id}
    && (forall i :: i in mid && i != id ==> rows'[i] == mid[i])
    && (if id in mid
        then IsRow(mid, id, board, sum.native) && rows'[id] == Seen(Upserted(mid[id]), sum.replies, now)
        else rows'[id] == Seen(NewRow(board, sum.native), sum.replies, now)
             && forall i :: !IsRow(mid, i, board, sum.native))
  }

  lemma RefreshOne(rows: Table, mid: Table, rows': Table, family: set<int>, board: int, summaries: seq<Summary>,
                   now: int, sum: Summary, id: int)
    requires Refreshed(rows, mid, family, board, summaries, now) && KeysUnique(mid)
    requires !Mirrored(mid, family, board, sum.native) && PutOne(mid, rows', board, now, sum, id)
    ensures Refreshed(rows, rows', family, board, summaries + [sum], now)
  {
    SameMirrors(rows, mid, family, board, summaries, now, sum.native);
    NativesJoin(summaries, sum);
    forall i | i in rows
      ensures i in rows'
      ensures if rows[i].board == board && IsRefreshed(rows, family, board, summaries + [sum], rows[i].native)
              then Refresh(rows[i], rows'[i], summaries + [sum], now) else rows'[i] == rows[i]
    {
      OldRow(rows, mid, rows', family, board, summaries, now, sum, id, i);
    }
    forall i | i in rows' && i !in rows
      ensures IsRefreshed(rows, family, board, summaries + [sum], rows'[i].native)
      ensures Refresh(NewRow(board, rows'[i].native), rows'[i], summaries + [sum], now)
    {
      AddedRow(rows, mid, rows', family, board, summaries, now, sum, id, i);
    }
    forall x | IsRefreshed(rows, family, board, summaries + [sum], x)
      ensures exists i :: IsRow(rows', i, board, x)
    {
      if x == sum.native {
        assert IsRow(rows', id, board, x);
      } else {
        assert IsRefreshed(rows, family, board, summaries, x);
        var i :| IsRow(mid, i, board, x);
        assert IsRow(rows', i, board, x);
      }
    }
  }

  lemma OldRow(rows: Table, mid: Table, rows': Table, family: set<int>, board: int, summaries: seq<Summary>, now: int,
               sum: Summary, id: int, i: int)
    requires Refreshed(rows, mid, family, board, summaries, now) && KeysUnique(mid) && i in rows
    requires !Mirrored(rows, family, board, sum.native) && PutOne(mid, rows', board, now, sum, id)
    ensures i in rows'
    ensures if rows[i].board == board && IsRefreshed(rows, family, board, summaries + [sum], rows[i].native)
            then Refresh(rows[i], rows'[i], summaries + [sum], now) else rows'[i] == rows[i]
  {
    NativesJoin(summaries, sum);
    MostSnoc(summaries, sum, rows[i].native, rows[i].replies);
    if rows[i].native !in Natives(summaries) {
      MostOfUnlisted(summaries, rows[i].native, rows[i].replies);
    }
    hide Most, Mirrored, Natives;
    if i != id {
      assert mid[i].board == board && mid[i].native == sum.native ==> IsRow(mid, i, board, sum.native);
    }
  }

  lemma AddedRow(rows: Table, mid: Table, rows': Table, family: set<int>, board: int, summaries: seq<Summary>, now: int,
                 sum: Summary, id: int, i: int)
    requires Refreshed(rows, mid, family, board, summaries, now) && KeysUnique(mid) && i in rows' && i !in rows
    requires !Mirrored(rows, family, board, sum.native) && PutOne(mid, rows', board, now, sum, id)
    ensures IsRefreshed(rows, family, board, summaries + [sum], rows'[i].native)
    ensures Refresh(NewRow(board, rows'[i].native), rows'[i], summaries + [sum], now)
  {
    NativesJoin(summaries, sum);
    MostSnoc(summaries, sum, rows'[i].native, 0);
    if i !in mid {
      assert !IsRefreshed(rows, family, board, summaries, sum.native);
      MostOfUnlisted(summaries, sum.native, 0);
    } else if i != id {
      assert mid[i].native == sum.native ==> IsRow(mid, i, board, sum.native);
    }
  }

  function AfterMisses(r: Row, board: int, seen: set<string>, limit: int): Row {
    if r.board == board && r.native !in seen then MissedByPoll(r, limit) else r
  }

  /** A whole live poll: unlisted active threads miss once, listed ones are refreshed unless mirrored. */
  ghost predicate PassEffect(rows: Table, rows': Table, family: set<int>, board: int, summaries: seq<Summary>, now: int,
                             limit: int) {
    && (forall id :: id in rows ==>
          id in rows'
          && if rows[id].board != board then rows'[id] == rows[id]
             else if rows[id].native !in Natives(summaries) then rows'[id] == MissedByPoll(rows[id], limit)
             else if Mirrored(rows, family, board, rows[id].native) then rows'[id] == rows[id]
             else Refresh(rows[id], rows'[id], summaries, now))
    && (forall id :: id in rows' && id !in rows ==>
          IsRefreshed(rows, family, board, summaries, rows'[id].native)
          && Refresh(NewRow(board, rows'[id].native), rows'[id], summaries, now))
    && forall native :: IsRefreshed(rows, family, board, summaries, native) ==>
            exists id :: IsRow(rows', id, board, native)
  }

  lemma ComposePass(rows: Table, mid: Table, rows': Table, family: set<int>, board: int, summaries: seq<Summary>,
                    now: int, limit: int)
    requires Refreshed(rows, mid, family, board, summaries, now) && rows'.Keys == mid.Keys
    requires forall id :: id in rows' ==> rows'[id] == AfterMisses(mid[id], board, Natives(summaries), limit)
    ensures PassEffect(rows, rows', family, board, summaries, now, limit)
  {
    hide Most, Mirrored, Natives;
    forall native | IsRefreshed(rows, family, board, summaries, native)
      ensures exists id :: IsRow(rows', id, board, native)
    {
      var id :| IsRow(mid, id, board, native);
      assert IsRow(rows', id, board, native);
    }
  }

  /**
    A thread the poll lists is stored, live and seen just now with at least the replies listed, when no other board
    of the family has it; other boards, whatever they have, do not suppress it.
   */
  lemma ListedThreadIsStored(rows: Table, rows': Table, family: set<int>, board: int, summaries: seq<Summary>, now: int,
                             limit: int, i: nat)
    requires PassEffect(rows, rows', family, board, summaries, now, limit) && i < |summaries|
    requires forall id :: id in rows && rows[id].native == summaries[i].native && rows[id].board != board ==>
               rows[id].board !in family
    ensures exists id :: id in rows' && rows'[id].board == board && rows'[id].native == summaries[i].native
                         && rows'[id].status == Live && rows'[id].missing == 0 && rows'[id].lastSeen == Some(now)
                         && rows'[id].replies >= summaries[i].replies
                         && (id in rows ==> rows'[id].replies >= rows[id].replies)
  {
    var native := summaries[i].native;
    assert native in Natives(summaries);
    assert IsRefreshed(rows, family, board, summaries, native);
    var id :| IsRow(rows', id, board, native);
    MostIsLargest(summaries, native, if id in rows then rows[id].replies else 0);
    hide Most, Natives;
    assert rows'[id].replies >= summaries[i].replies;
  }

  /** A thread that another board of the family has is left alone: no row of this board is made or changed for it. */
  lemma MirroredThreadIsSkipped(rows: Table, rows': Table, family: set<int>, board: int, summaries: seq<Summary>,
                                now: int, limit: int, i: nat, sibling: int, id: int)
    requires PassEffect(rows, rows', family, board, summaries, now, limit) && i < |summaries|
    requires sibling in rows && rows[sibling].native == summaries[i].native
    requires rows[sibling].board != board && rows[sibling].board in family
    requires id in rows' && rows'[id].native == summaries[i].native && rows'[id].board == board
    ensures id in rows && rows'[id] == rows[id]
  {
    assert summaries[i].native in Natives(summaries);
    assert Mirrored(rows, family, board, summaries[i].native);
    hide Most, Natives;
  }

  // ----- No active thread stays past the limit

  ghost predicate WithinLimit(rows: Table, board: int, limit: int) {
    forall id :: id in rows && rows[id].board == board && rows[id].status == Live ==> rows[id].missing < limit
  }

  /** After every pass no active thread of any board has used up its misses, provided none had before. */
  lemma PassKeepsLimit(rows: Table, rows': Table, family: set<int>, board: int, summaries: seq<Summary>, now: int,
                       limit: int, b: int)
    requires PassEffect(rows, rows', family, board, summaries, now, limit) && limit >= 1
    requires WithinLimit(rows, b, limit)
    ensures WithinLimit(rows', b, limit)
  {
  }

  // ----- Why a thread was archived

  /** What happens to one thread row, in order. */
  datatype Event = ListedAgain | SeenByPoll(replies: int, at: int) | MissedByLivePoll | ArchivedByThreadJob

  function AfterEvent(r: Row, e: Event, limit: int): Row {
    match e
    case ListedAgain => Upserted(r)
    case SeenByPoll(replies, at) => Seen(r, replies, at)
    case MissedByLivePoll => MissedByPoll(r, limit)
    case ArchivedByThreadJob => MarkedArchived(r)
  }

  function AfterEvents(r: Row, events: seq<Event>, limit: int): Row {
    if events == [] then r
    else AfterEvent(AfterEvents(r, events[..|events| - 1], limit), events[|events| - 1], limit)
  }

  /** The last m events are all misses. */
  predicate EndsInMisses(events: seq<Event>, m: int) {
    0 <= m <= |events| && forall i :: |events| - m <= i < |events| ==> events[i] == MissedByLivePoll
  }

  /** An active thread's counter is the number of live polls that missed it since it was last seen. */
  lemma {:induction false} CounterIsMisses(board: int, native: string, events: seq<Event>, limit: int)
    requires limit >= 1
    ensures var r := AfterEvents(NewRow(board, native), events, limit);
            r.status == Live ==> r.missing < limit && EndsInMisses(events, r.missing)
    ensures var r := AfterEvents(NewRow(board, native), events, limit);
            r.status == Archived ==> r.missing == 0
    decreases |events|
  {
    if events != [] {
      CounterIsMisses(board, native, events[..|events| - 1], limit);
    }
  }

  /**
    A live poll archives a thread exactly when the `limit` latest things that happened to it, this poll
    included, were live polls that missed it.
   */
  lemma ArchivedByPollIff(board: int, native: string, events: seq<Event>, limit: int)
    requires limit >= 1
    requires AfterEvents(NewRow(board, native), events, limit).status == Live
    ensures AfterEvents(NewRow(board, native), events + [MissedByLivePoll], limit).status == Archived
        <==> EndsInMisses(events + [MissedByLivePoll], limit)
  {
    var r := AfterEvents(NewRow(board, native), events, limit);
    var longer := events + [MissedByLivePoll];
    assert longer[..|longer| - 1] == events;
    CounterIsMisses(board, native, events, limit);
    if EndsInMisses(longer, limit) {
      assert EndsInMisses(events, limit - 1);
      MissesCounted(board, native, events, limit, limit - 1);
    }
  }

  /** m misses in a row on a thread that stays active are all counted. */
  lemma {:induction false} MissesCounted(board: int, native: string, events: seq<Event>, limit: int, m: nat)
    requires limit >= 1 && EndsInMisses(events, m)
    requires AfterEvents(NewRow(board, native), events, limit).status == Live
    ensures AfterEvents(NewRow(board, native), events, limit).missing >= m
    decreases m
  {
    if m == 0 {
      CounterNonNegative(board, native, events, limit);
    } else {
      var init := events[..|events| - 1];
      assert EndsInMisses(init, m - 1);
      MissesCounted(board, native, init, limit, m - 1);
    }
  }

  lemma {:induction false} CounterNonNegative(board: int, native: string, events: seq<Event>, limit: int)
    ensures AfterEvents(NewRow(board, native), events, limit).missing >= 0
    decreases |events|
  {
    if events != [] {
      CounterNonNegative(board, native, events[..|events| - 1], limit);
    }
  }
}
