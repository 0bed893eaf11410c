/** What the blob index remembers along a run: platform hashes, thumbnail paths and the flags of file rows. */
module BlobHistory {
  import opened Options
  import opened BlobIndex

  // ----- Which blob a file is bound to

  /** A reported md5 is tried before the sha1, and the sha1 before leaving the binding as it is. */
  lemma BindingOrder(s: Index, f: FileId, md5: string, sha1: string, found: Option<Hash>)
    requires Enabled(s, Bind(f, md5, sha1, found))
    ensures f in Apply(s, Bind(f, md5, sha1, found)).files
    ensures var hash := Apply(s, Bind(f, md5, sha1, found)).files[f].hash;
            if md5 != "" && exists h :: h in s.blobs && s.blobs[h].md5 == Some(md5) then
              hash.Some? && hash.value in s.blobs && s.blobs[hash.value].md5 == Some(md5)
            else if sha1 != "" && exists h :: h in s.blobs && s.blobs[h].sha1 == Some(sha1) then
              hash.Some? && hash.value in s.blobs && s.blobs[hash.value].sha1 == Some(sha1)
            else
              hash == if f in s.files then s.files[f].hash else None
  {
    ResolvedInOrder(s, md5, sha1, found);
    hide Resolves;
  }

  /** What one step does to a blob that is already there. */
  lemma BlobAfter(s: Index, a: Action, h: Hash)
    requires Enabled(s, a) && h in s.blobs
    ensures h in Apply(s, a).blobs
    ensures var b, b' := s.blobs[h], Apply(s, a).blobs[h];
            if a.Download? && a.c.hash == h then
              && b'.md5 == (if a.c.md5.Some? then a.c.md5 else b.md5)
              && b'.sha1 == (if a.c.sha1.Some? then a.c.sha1 else b.sha1)
              && b'.thumbPath == b.thumbPath
            else
              && b'.md5 == b.md5 && b'.sha1 == b.sha1 && b'.refs == b.refs
              && (b.thumbPath.Some? ==> b'.thumbPath == b.thumbPath)
  {
    hide Resolves;
  }

  /** A download of that content reports another md5. */
  predicate Redefines(a: Action, h: Hash, md5: string) {
    a.Download? && a.c.hash == h && a.c.md5.Some? && a.c.md5 != Some(md5)
  }

  lemma {:induction false} Md5Stays(run: seq<Index>, actions: seq<Action>, i: nat, j: nat, h: Hash, md5: string)
    requires IsRun(run, actions) && i <= j < |run|
    requires h in run[i].blobs && run[i].blobs[h].md5 == Some(md5)
    requires forall k :: i <= k < j ==> !Redefines(actions[k], h, md5)
    ensures h in run[j].blobs && run[j].blobs[h].md5 == Some(md5)
    decreases j
  {
    if i < j {
      Md5Stays(run, actions, i, j - 1, h, md5);
      hide Enabled, Apply;
      BlobAfter(run[j - 1], actions[j - 1], h);
    }
  }

  lemma DownloadReports(s: Index, a: Action)
    requires Enabled(s, a) && a.Download? && a.c.md5.Some?
    ensures a.c.hash in Apply(s, a).blobs && Apply(s, a).blobs[a.c.hash].md5 == a.c.md5
  {
  }

  /**
    Once a download has reported md5 for its content, a file that a platform lists with that md5 is bound to a blob
    carrying it, whatever its sha1 says, as long as no later download of the content reported another md5.
   */
  lemma DownloadsAreFoundByMd5(run: seq<Index>, actions: seq<Action>, i: nat, j: nat, md5: string)
    requires IsRun(run, actions) && i < j < |actions| && md5 != ""
    requires actions[i].Download? && actions[i].c.md5 == Some(md5)
    requires forall k :: i < k < j ==> !Redefines(actions[k], actions[i].c.hash, md5)
    requires actions[j].Bind? && actions[j].md5 == md5
    ensures actions[j].f in run[j + 1].files && run[j + 1].blobs == run[j].blobs
    ensures var hash := run[j + 1].files[actions[j].f].hash;
            hash.Some? && hash.value in run[j + 1].blobs && run[j + 1].blobs[hash.value].md5 == Some(md5)
  {
    DownloadReports(run[i], actions[i]);
    Md5Stays(run, actions, i + 1, j, actions[i].c.hash, md5);
    BindingOrder(run[j], actions[j].f, md5, actions[j].sha1, actions[j].found);
  }

  // ----- What never changes back

  /** The first thumbnail path recorded for a blob is the one it keeps. */
  lemma {:induction false} ThumbPathStays(run: seq<Index>, actions: seq<Action>, i: nat, j: nat, h: Hash)
    requires IsRun(run, actions) && i <= j < |run| && h in run[i].blobs && run[i].blobs[h].thumbPath.Some?
    ensures h in run[j].blobs && run[j].blobs[h].thumbPath == run[i].blobs[h].thumbPath
    decreases j
  {
    if i < j {
      ThumbPathStays(run, actions, i, j - 1, h);
      hide Enabled, Apply;
      BlobAfter(run[j - 1], actions[j - 1], h);
    }
  }

  /** A thumbnail gives a bound file's blob its path when it has none yet, and marks the row. */
  lemma ThumbnailRecorded(run: seq<Index>, actions: seq<Action>, i: nat, f: FileId, path: string)
    requires IsRun(run, actions) && i < |actions| && actions[i] == Thumb(f, path)
    ensures f in run[i].files && run[i + 1].files == run[i].files[f := run[i].files[f].(thumb := true)]
    ensures var hash := run[i].files[f].hash;
            hash.Some? && hash.value in run[i].blobs && run[i].blobs[hash.value].thumbPath == None ==>
              hash.value in run[i + 1].blobs && run[i + 1].blobs[hash.value].thumbPath == Some(path)
  {
  }

  lemma RowAfter(s: Index, a: Action, f: FileId)
    requires Enabled(s, a) && f in s.files
    ensures f in Apply(s, a).files
    ensures s.files[f].full ==> Apply(s, a).files[f].full
    ensures s.files[f].thumb ==> Apply(s, a).files[f].thumb
    ensures s.files[f].hash.Some? ==> Apply(s, a).files[f].hash.Some?
  {
    hide Resolves;
  }

  /** File rows, their flags and their being bound are never taken back. */
  lemma {:induction false} RowsOnlyGain(run: seq<Index>, actions: seq<Action>, i: nat, j: nat, f: FileId)
    requires IsRun(run, actions) && i <= j < |run| && f in run[i].files
    ensures f in run[j].files
    ensures run[i].files[f].full ==> run[j].files[f].full
    ensures run[i].files[f].thumb ==> run[j].files[f].thumb
    ensures run[i].files[f].hash.Some? ==> run[j].files[f].hash.Some?
    decreases j
  {
    if i < j {
      RowsOnlyGain(run, actions, i, j - 1, f);
      hide Enabled, Apply;
      RowAfter(run[j - 1], actions[j - 1], f);
    }
  }
}
