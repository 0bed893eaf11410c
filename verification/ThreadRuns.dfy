/**
  Runs of the statements on thread rows, by any number of workers in any order, from an empty table. A worker
  that counts a miss decides by the number returned whether its next statement archives the thread.
 */
module ThreadRuns {
  import opened Threads

  /** `deciding` holds, for each worker about to archive, the thread it counted too many misses of. */
  datatype State = State(rows: Table, deciding: map<int, int>)

  datatype Step =
    | Upsert(id: int, board: int, native: string)
    | See(id: int, replies: int, at: int)
    | ArchiveGone(id: int)
    | Miss(w: int, id: int)
    | ArchiveMissed(w: int)

  /** An upsert names the row that its key has, or a new one. */
  ghost predicate Enabled(s: State, a: Step) {
    match a
    case Upsert(id, board, native) =>
      IsRow(s.rows, id, board, native) || (id !in s.rows && forall i :: !IsRow(s.rows, i, board, native))
    case Miss(w, _) => w !in s.deciding
    case ArchiveMissed(w) => w in s.deciding
    case _ => true
  }

  function Put(rows: Table, id: int, update: Row -> Row): Table {
    if id in rows then rows[id := update(rows[id])] else rows
  }

  ghost function Apply(s: State, a: Step, limit: int): State
    requires Enabled(s, a)
  {
    match a
    case Upsert(id, board, native) =>
      s.(rows := s.rows[id := if id in s.rows then Upserted(s.rows[id]) else NewRow(board, native)])
    case See(id, replies, at) => s.(rows := Put(s.rows, id, r => Seen(r, replies, at)))
    case ArchiveGone(id) => s.(rows := Put(s.rows, id, MarkedArchived))
    case Miss(w, id) =>
      var rows := Put(s.rows, id, Missed);
      State(rows, if id in rows && rows[id].missing >= limit then s.deciding[w := id] else s.deciding)
    case ArchiveMissed(w) =>
      State(Put(s.rows, s.deciding[w], MarkedArchived), s.deciding - {w})
  }

  ghost predicate IsRun(run: seq<State>, steps: seq<Step>, limit: int) {
    && |run| == |steps| + 1 && run[0] == State(map[], map[])
    && forall i :: 0 <= i < |steps| ==> Enabled(run[i], steps[i]) && run[i + 1] == Apply(run[i], steps[i], limit)
  }

  /** A live row that has used up its misses. */
  predicate Overdue(rows: Table, id: int, limit: int) {
    id in rows && rows[id].status == Live && rows[id].missing >= limit
  }

  /** Some worker is about to archive every thread that has used up its misses. */
  ghost predicate Attended(s: State, limit: int) {
    forall id :: Overdue(s.rows, id, limit) ==> exists w :: w in s.deciding && s.deciding[w] == id
  }

  lemma StepAttended(s: State, a: Step, limit: int)
    requires Attended(s, limit) && Enabled(s, a) && limit >= 1
    ensures Attended(Apply(s, a, limit), limit)
  {
    var s' := Apply(s, a, limit);
    forall id | Overdue(s'.rows, id, limit)
      ensures exists w :: w in s'.deciding && s'.deciding[w] == id
    {
      if a.Miss? && a.id == id {
        assert s'.deciding[a.w] == id;
      } else {
        assert Overdue(s.rows, id, limit);
        var w :| w in s.deciding && s.deciding[w] == id;
        assert w in s'.deciding && s'.deciding[w] == id;
      }
    }
  }

  lemma {:induction false} RunAttended(run: seq<State>, steps: seq<Step>, limit: int, i: nat)
    requires IsRun(run, steps, limit) && limit >= 1 && i < |run|
    ensures Attended(run[i], limit)
  {
    if i > 0 {
      RunAttended(run, steps, limit, i - 1);
      StepAttended(run[i - 1], steps[i - 1], limit);
    }
  }

  /**
    In every run, whenever no worker stands between counting and archiving, no live thread of any board has as
    many misses as the limit.
   */
  lemma RunKeepsLimit(run: seq<State>, steps: seq<Step>, limit: int, i: nat, board: int)
    requires IsRun(run, steps, limit) && limit >= 1 && i < |run| && run[i].deciding == map[]
    ensures WithinLimit(run[i].rows, board, limit)
  {
    RunAttended(run, steps, limit, i);
    forall id | id in run[i].rows && run[i].rows[id].board == board && run[i].rows[id].status == Live
      ensures run[i].rows[id].missing < limit
    {
      assert !Overdue(run[i].rows, id, limit);
    }
  }
}
