/**
  The content-addressed blob index: one blob row per content hash with a reference count, and file rows that
  are bound to blobs by platform hashes or by downloading. Each transaction is one atomic update.
 */
module BlobIndex {
  import opened Options
  import opened FiniteSums

  type Hash = string

  /** A file row is identified by its post and url. */
  datatype FileId = FileId(post: int, url: string)

  datatype FileRow = FileRow(hash: Option<Hash>, full: bool, thumb: bool)

  datatype Blob = Blob(refs: int, md5: Option<string>, sha1: Option<string>, thumbPath: Option<string>)

  datatype Index = Index(blobs: map<Hash, Blob>, files: map<FileId, FileRow>)

  /** What a download reports about the content; an empty column is absent. */
  datatype Content = Content(hash: Hash, md5: Option<string>, sha1: Option<string>)

  function Coalesce<T>(a: Option<T>, b: Option<T>): Option<T> {
    if a.Some? then a else b
  }

  // ----- Transactions

  function Merged(b: Blob, c: Content, inc: bool): Blob {
    b.(refs := b.refs + if inc then 1 else 0, md5 := Coalesce(c.md5, b.md5), sha1 := Coalesce(c.sha1, b.sha1))
  }

  function Downloaded(s: Index, f: FileId, c: Content, full: bool, thumb: bool): Index
    requires f in s.files
  {
    var row := s.files[f];
    var inc := full && !row.full;
    Index(
      s.blobs[c.hash := if c.hash in s.blobs then Merged(s.blobs[c.hash], c, inc) else Blob(1, c.md5, c.sha1, None)],
      s.files[f := FileRow(Some(c.hash), row.full || full, row.thumb || thumb)])
  }

  function ThumbStored(s: Index, f: FileId, path: string): Index
    requires f in s.files
  {
    var row := s.files[f];
    var files := s.files[f := row.(thumb := true)];
    if row.hash.Some? && row.hash.value in s.blobs then
      var b := s.blobs[row.hash.value];
      Index(s.blobs[row.hash.value := b.(thumbPath := Coalesce(b.thumbPath, Some(path)))], files)
    else Index(s.blobs, files)
  }

  /** A blob that a platform-reported hash may resolve to: md5 is tried first, then sha1. */
  predicate Resolves(s: Index, md5: string, sha1: string, found: Option<Hash>) {
    var byMd5 := set h | h in s.blobs && md5 != "" && s.blobs[h].md5 == Some(md5);
    var bySha1 := set h | h in s.blobs && sha1 != "" && s.blobs[h].sha1 == Some(sha1);
    match found
    case Some(h) => h in byMd5 || (byMd5 == {} && h in bySha1)
    case None => byMd5 == {} && bySha1 == {}
  }

  /** A blob with the md5 if there is one, else one with the sha1 if there is one, else nothing. */
  lemma ResolvedInOrder(s: Index, md5: string, sha1: string, found: Option<Hash>)
    requires Resolves(s, md5, sha1, found)
    ensures
      if md5 != "" && exists h :: h in s.blobs && s.blobs[h].md5 == Some(md5) then
        found.Some? && found.value in s.blobs && s.blobs[found.value].md5 == Some(md5)
      else if sha1 != "" && exists h :: h in s.blobs && s.blobs[h].sha1 == Some(sha1) then
        found.Some? && found.value in s.blobs && s.blobs[found.value].sha1 == Some(sha1)
      else
        found == None
  {
    var byMd5 := set h | h in s.blobs && md5 != "" && s.blobs[h].md5 == Some(md5);
    var bySha1 := set h | h in s.blobs && sha1 != "" && s.blobs[h].sha1 == Some(sha1);
    if md5 != "" && exists h :: h in s.blobs && s.blobs[h].md5 == Some(md5) {
      var h :| h in s.blobs && s.blobs[h].md5 == Some(md5);
      assert h in byMd5;
    } else {
      assert byMd5 == {};
      if sha1 != "" && exists h :: h in s.blobs && s.blobs[h].sha1 == Some(sha1) {
        var h :| h in s.blobs && s.blobs[h].sha1 == Some(sha1);
        assert h in bySha1;
      } else {
        assert bySha1 == {};
      }
    }
  }

  function Bound(s: Index, f: FileId, found: Option<Hash>): Index {
    s.(files := s.files[f := if f in s.files then s.files[f].(hash := Coalesce(found, s.files[f].hash))
                             else FileRow(found, false, false)])
  }

  class BlobStore {
    var s: Index

    method RecordDownloadedFile(f: FileId, c: Content, downloadedFull: bool, downloadedThumb: bool) returns (ok: bool)
      modifies this
      ensures ok <==> f in old(s).files
      ensures s == if ok then Downloaded(old(s), f, c, downloadedFull, downloadedThumb) else old(s)
      ensures ok ==>
                var row := old(s).files[f];
                s.files == old(s).files[f := FileRow(Some(c.hash), row.full || downloadedFull,
                                                     row.thumb || downloadedThumb)]
      ensures ok && c.hash !in old(s).blobs ==> s.blobs == old(s).blobs[c.hash := Blob(1, c.md5, c.sha1, None)]
      ensures ok && c.hash in old(s).blobs ==>
                var b := old(s).blobs[c.hash];
                s.blobs == old(s).blobs[c.hash := Blob(
                                          b.refs + if downloadedFull && !old(s).files[f].full then 1 else 0,
                                          if c.md5.Some? then c.md5 else b.md5,
                                          if c.sha1.Some? then c.sha1 else b.sha1,
                                          b.thumbPath)]
    {
      if f !in s.files {
        return false;
      }
      var row := s.files[f];
      var inc := downloadedFull && !row.full;
      var blobs := s.blobs;
      if c.hash in blobs {
        var b := blobs[c.hash];
        var refs := b.refs + if inc then 1 else 0;
        blobs := blobs[c.hash := Blob(refs, Coalesce(c.md5, b.md5), Coalesce(c.sha1, b.sha1), b.thumbPath)];
      } else {
        blobs := blobs[c.hash := Blob(1, c.md5, c.sha1, None)];
      }
      s := Index(blobs, s.files[f := FileRow(Some(c.hash), row.full || downloadedFull, row.thumb || downloadedThumb)]);
      ok := true;
    }

    method RecordThumbDownloaded(f: FileId, path: string) returns (ok: bool)
      modifies this
      ensures ok <==> f in old(s).files
      ensures s == if ok then ThumbStored(old(s), f, path) else old(s)
      ensures ok ==> s.files == old(s).files[f := old(s).files[f].(thumb := true)]
      ensures ok ==>
                var hash := old(s).files[f].hash;
                s.blobs == if hash.Some? && hash.value in old(s).blobs && old(s).blobs[hash.value].thumbPath == None
                           then old(s).blobs[hash.value := old(s).blobs[hash.value].(thumbPath := Some(path))]
                           else old(s).blobs
    {
      if f !in s.files {
        return false;
      }
      var row := s.files[f];
      s := s.(files := s.files[f := row.(thumb := true)]);
      if row.hash.Some? && row.hash.value in s.blobs {
        var b := s.blobs[row.hash.value];
        s := s.(blobs := s.blobs[row.hash.value := b.(thumbPath := Coalesce(b.thumbPath, Some(path)))]);
      }
      ok := true;
    }

    /** Binds the file row to a blob the platform hashes resolve to, or creates it. */
    method UpsertFile(f: FileId, md5: string, sha1: string) returns (ghost found: Option<Hash>)
      modifies this
      ensures Resolves(old(s), md5, sha1, found) && s == Bound(old(s), f, found)
      ensures s.blobs == old(s).blobs && s.files.Keys == old(s).files.Keys + {f}
      ensures forall g :: g in old(s).files && g != f ==> s.files[g] == old(s).files[g]
      ensures f in old(s).files ==> s.files[f].full == old(s).files[f].full && s.files[f].thumb == old(s).files[f].thumb
      ensures f !in old(s).files ==> !s.files[f].full && !s.files[f].thumb
      ensures
        if md5 != "" && exists h :: h in old(s).blobs && old(s).blobs[h].md5 == Some(md5) then
          s.files[f].hash.Some? && s.files[f].hash.value in s.blobs && s.blobs[s.files[f].hash.value].md5 == Some(md5)
        else if sha1 != "" && exists h :: h in old(s).blobs && old(s).blobs[h].sha1 == Some(sha1) then
          s.files[f].hash.Some? && s.files[f].hash.value in s.blobs && s.blobs[s.files[f].hash.value].sha1 == Some(sha1)
        else
          s.files[f].hash == if f in old(s).files then old(s).files[f].hash else None
    {
      var hash: Option<Hash> := None;
      if md5 != "" {
        var matches := set h | h in s.blobs && s.blobs[h].md5 == Some(md5);
        if matches != {} {
          var h := PickAny(matches);
          hash := Some(h);
        }
      }
      if hash == None && sha1 != "" {
        var matches := set h | h in s.blobs && s.blobs[h].sha1 == Some(sha1);
        if matches != {} {
          var h := PickAny(matches);
          hash := Some(h);
        }
      }
      found := hash;
      ResolvedInOrder(s, md5, sha1, found);
      hide Resolves;
      if f in s.files {
        s := s.(files := s.files[f := s.files[f].(hash := Coalesce(hash, s.files[f].hash))]);
      } else {
        s := s.(files := s.files[f := FileRow(hash, false, false)]);
      }
    }
  }

  // ----- Counting references

  predicate Refers(row: FileRow, h: Hash) {
    row.full && row.hash == Some(h)
  }

  function Referrers(files: map<FileId, FileRow>, h: Hash): set<FileId> {
    set f | f in files && Refers(files[f], h)
  }

  /** Every blob counts exactly the fully downloaded rows that point at it, and rows point at blobs that exist. */
  ghost predicate Consistent(s: Index) {
    && (forall h :: h in s.blobs ==> s.blobs[h].refs == |Referrers(s.files, h)|)
    && (forall f :: f in s.files && s.files[f].hash.Some? ==> s.files[f].hash.value in s.blobs)
    && (forall f :: f in s.files && s.files[f].full ==> s.files[f].hash.Some?)
  }

  function One(b: bool): int {
    if b then 1 else 0
  }

  lemma ReferrersUpdate(files: map<FileId, FileRow>, f: FileId, row: FileRow, h: Hash)
    ensures |Referrers(files[f := row], h)|
         == |Referrers(files, h)| - One(f in files && Refers(files[f], h)) + One(Refers(row, h))
  {
    var before, after := Referrers(files, h), Referrers(files[f := row], h);
    var others := before - {f};
    assert before == if f in files && Refers(files[f], h) then others + {f} else others;
    assert after == if Refers(row, h) then others + {f} else others;
  }

  lemma NoReferrers(s: Index, h: Hash)
    requires Consistent(s) && h !in s.blobs
    ensures |Referrers(s.files, h)| == 0
  {
    forall f | f in s.files
      ensures !Refers(s.files[f], h)
    {
    }
    assert Referrers(s.files, h) == {};
  }

  /** What the caller can check beforehand: a first full download, or a repeated one of the same content. */
  predicate SafeDownload(s: Index, f: FileId, c: Content, full: bool)
    requires f in s.files
  {
    if s.files[f].full then s.files[f].hash == Some(c.hash) else full || c.hash in s.blobs
  }

  lemma DownloadKeepsCounts(s: Index, f: FileId, c: Content, full: bool, thumb: bool)
    requires Consistent(s) && f in s.files && SafeDownload(s, f, c, full)
    ensures Consistent(Downloaded(s, f, c, full, thumb))
  {
    var s' := Downloaded(s, f, c, full, thumb);
    forall h | h in s'.blobs
      ensures s'.blobs[h].refs == |Referrers(s'.files, h)|
    {
      ReferrersUpdate(s.files, f, s'.files[f], h);
      if h !in s.blobs {
        NoReferrers(s, h);
      }
    }
  }

  lemma UnsafeDownloadBreaksCounts(s: Index, f: FileId, c: Content, full: bool, thumb: bool)
    requires Consistent(s) && f in s.files && !SafeDownload(s, f, c, full)
    ensures !Consistent(Downloaded(s, f, c, full, thumb))
  {
    var s' := Downloaded(s, f, c, full, thumb);
    if s.files[f].full {
      var previous := s.files[f].hash.value;
      ReferrersUpdate(s.files, f, s'.files[f], previous);
      assert s'.blobs[previous] == s.blobs[previous];
    } else {
      ReferrersUpdate(s.files, f, s'.files[f], c.hash);
      NoReferrers(s, c.hash);
    }
  }

  /** A download keeps the counts exactly when it is safe; the check on the row's flag alone does not ensure that. */
  lemma DownloadKeepsCountsIff(s: Index, f: FileId, c: Content, full: bool, thumb: bool)
    requires Consistent(s) && f in s.files
    ensures Consistent(Downloaded(s, f, c, full, thumb)) <==> SafeDownload(s, f, c, full)
  {
    if SafeDownload(s, f, c, full) {
      DownloadKeepsCounts(s, f, c, full, thumb);
    } else {
      UnsafeDownloadBreaksCounts(s, f, c, full, thumb);
    }
  }

  /** Rebinding by a platform hash keeps the counts exactly when the row is not downloaded yet or stays where it is. */
  lemma BindingKeepsCountsIff(s: Index, f: FileId, found: Option<Hash>)
    requires Consistent(s) && (found.Some? ==> found.value in s.blobs)
    ensures Consistent(Bound(s, f, found)) <==>
              (f in s.files && s.files[f].full && found.Some? ==> found == s.files[f].hash)
  {
    var s' := Bound(s, f, found);
    forall h | h in s.blobs
      ensures |Referrers(s'.files, h)|
           == |Referrers(s.files, h)| - One(f in s.files && Refers(s.files[f], h)) + One(Refers(s'.files[f], h))
    {
      ReferrersUpdate(s.files, f, s'.files[f], h);
    }
    if f in s.files && s.files[f].full && found.Some? && found != s.files[f].hash {
      var previous := s.files[f].hash.value;
      assert s'.blobs[previous].refs != |Referrers(s'.files, previous)|;
    }
  }

  /** A thumbnail is never a reference. */
  lemma ThumbKeepsCounts(s: Index, f: FileId, path: string)
    requires Consistent(s) && f in s.files
    ensures Consistent(ThumbStored(s, f, path))
  {
    var s' := ThumbStored(s, f, path);
    forall h | h in s'.blobs
      ensures s'.blobs[h].refs == |Referrers(s'.files, h)|
    {
      ReferrersUpdate(s.files, f, s'.files[f], h);
    }
  }

  // ----- Runs

  datatype Action =
    | Download(f: FileId, c: Content, full: bool, thumb: bool)
    | Thumb(f: FileId, path: string)
    | Bind(f: FileId, md5: string, sha1: string, found: Option<Hash>)

  predicate Enabled(s: Index, a: Action) {
    match a
    case Download(f, _, _, _) => f in s.files
    case Thumb(f, _) => f in s.files
    case Bind(_, md5, sha1, found) => Resolves(s, md5, sha1, found)
  }

  function Apply(s: Index, a: Action): Index
    requires Enabled(s, a)
  {
    match a
    case Download(f, c, full, thumb) => Downloaded(s, f, c, full, thumb)
    case Thumb(f, path) => ThumbStored(s, f, path)
    case Bind(f, _, _, found) => Bound(s, f, found)
  }

  ghost predicate IsRun(run: seq<Index>, actions: seq<Action>) {
    && |run| == |actions| + 1 && run[0] == Index(map[], map[])
    && forall i :: 0 <= i < |actions| ==> Enabled(run[i], actions[i]) && run[i + 1] == Apply(run[i], actions[i])
  }

  // ----- Which runs keep the counts

  /** What a caller can check of a step beforehand. */
  predicate SafeStep(s: Index, a: Action)
    requires Enabled(s, a)
  {
    match a
    case Download(f, c, full, _) => SafeDownload(s, f, c, full)
    case Thumb(_, _) => true
    case Bind(f, _, _, found) => f in s.files && s.files[f].full && found.Some? ==> found == s.files[f].hash
  }

  lemma StepConsistentIff(s: Index, a: Action)
    requires Consistent(s) && Enabled(s, a)
    ensures Consistent(Apply(s, a)) <==> SafeStep(s, a)
  {
    hide Consistent, Resolves;
    match a
    case Download(f, c, full, thumb) => DownloadKeepsCountsIff(s, f, c, full, thumb);
    case Thumb(f, path) => ThumbKeepsCounts(s, f, path);
    case Bind(f, md5, sha1, found) =>
      if found.Some? {
        ResolvedExists(s, md5, sha1, found);
      }
      BindingKeepsCountsIff(s, f, found);
  }

  /**
    Downloads are full ones, as the downloader's are; each file row always yields the same content, and
    platform hashes only ever resolve to it.
   */
  ghost predicate Faithful(content: FileId -> Hash, actions: seq<Action>) {
    forall i :: 0 <= i < |actions| ==>
      match actions[i]
      case Download(f, c, full, _) => full && c.hash == content(f)
      case Thumb(_, _) => true
      case Bind(f, _, _, found) => found.Some? ==> found.value == content(f)
  }

  ghost predicate HoldsContent(content: FileId -> Hash, s: Index) {
    forall f :: f in s.files && s.files[f].full ==> s.files[f].hash == Some(content(f))
  }

  lemma ResolvedExists(s: Index, md5: string, sha1: string, found: Option<Hash>)
    requires Resolves(s, md5, sha1, found) && found.Some?
    ensures found.value in s.blobs
  {
  }

  lemma FaithfulStep(content: FileId -> Hash, s: Index, a: Action)
    requires Consistent(s) && HoldsContent(content, s) && Enabled(s, a) && Faithful(content, [a])
    ensures Consistent(Apply(s, a)) && HoldsContent(content, Apply(s, a))
  {
    hide Consistent, Resolves;
    assert [a][0] == a;
    StepConsistentIff(s, a);
  }

  /** In every faithful run each blob's count is the number of fully downloaded rows pointing at it. */
  lemma {:induction false} FaithfulRunsAreConsistent(content: FileId -> Hash, run: seq<Index>,
          actions: seq<Action>, i: nat)
    requires IsRun(run, actions) && Faithful(content, actions) && i < |run|
    ensures Consistent(run[i]) && HoldsContent(content, run[i])
  {
    if i > 0 {
      FaithfulRunsAreConsistent(content, run, actions, i - 1);
      assert Faithful(content, [actions[i - 1]]);
      FaithfulStep(content, run[i - 1], actions[i - 1]);
    }
  }

  // ----- Runs that keep the counts and runs that do not

  ghost predicate AlwaysConsistent(run: seq<Index>) {
    forall i :: 0 <= i < |run| ==> Consistent(run[i])
  }

  ghost predicate AlwaysSafe(run: seq<Index>, actions: seq<Action>)
    requires IsRun(run, actions)
  {
    forall i :: 0 <= i < |actions| ==> SafeStep(run[i], actions[i])
  }

  lemma {:induction false} SafeUpTo(run: seq<Index>, actions: seq<Action>, i: nat)
    requires IsRun(run, actions) && AlwaysSafe(run, actions) && i < |run|
    ensures Consistent(run[i])
  {
    if i > 0 {
      SafeUpTo(run, actions, i - 1);
      StepConsistentIff(run[i - 1], actions[i - 1]);
    }
  }

  /** The counts are right throughout a run exactly when each of its steps is safe. */
  lemma RunConsistentIff(run: seq<Index>, actions: seq<Action>)
    requires IsRun(run, actions)
    ensures AlwaysConsistent(run) <==> AlwaysSafe(run, actions)
  {
    if AlwaysSafe(run, actions) {
      forall i | 0 <= i < |run|
        ensures Consistent(run[i])
      {
        SafeUpTo(run, actions, i);
      }
    }
    if AlwaysConsistent(run) {
      forall i | 0 <= i < |actions|
        ensures SafeStep(run[i], actions[i])
      {
        hide SafeStep, Consistent;
        assert Consistent(run[i]) && Consistent(run[i + 1]);
        StepConsistentIff(run[i], actions[i]);
      }
    }
  }

  /**
    A row that is full but lacks its thumbnail is downloaded again. When the address then gives other content,
    the row moves to the new blob and the old one keeps its count.
   */
  lemma ChangedContentBreaksCounts(f: FileId, c1: Content, c2: Content) returns (run: seq<Index>, actions: seq<Action>)
    requires c1.hash != c2.hash
    ensures actions == [Bind(f, "", "", None), Download(f, c1, true, false), Download(f, c2, true, false)]
    ensures IsRun(run, actions) && Consistent(run[2]) && !Consistent(run[3])
  {
    hide Consistent;
    var s0 := Index(map[], map[]);
    actions := [Bind(f, "", "", None), Download(f, c1, true, false), Download(f, c2, true, false)];
    var s1 := Apply(s0, actions[0]);
    var s2 := Apply(s1, actions[1]);
    var s3 := Apply(s2, actions[2]);
    run := [s0, s1, s2, s3];
    EmptyConsistent();
    StepConsistentIff(s0, actions[0]);
    StepConsistentIff(s1, actions[1]);
    StepConsistentIff(s2, actions[2]);
  }

  lemma EmptyConsistent()
    ensures Consistent(Index(map[], map[]))
  {
  }

  /**
    A later poll may report for a downloaded file the md5 of another blob: the row is bound to that one, and
    neither count follows.
   */
  lemma ChangedBindingBreaksCounts(f: FileId, g: FileId, c1: Content, c2: Content, md5: string)
    returns (run: seq<Index>, actions: seq<Action>)
    requires f != g && c1.hash != c2.hash && md5 != "" && c1.md5 != Some(md5) && c2.md5 == Some(md5)
    ensures actions == [Bind(f, "", "", None), Bind(g, "", "", None), Download(f, c1, true, false),
                        Download(g, c2, true, false), Bind(f, md5, "", Some(c2.hash))]
    ensures IsRun(run, actions) && Consistent(run[4]) && !Consistent(run[5])
  {
    hide Consistent;
    var s0 := Index(map[], map[]);
    actions := [Bind(f, "", "", None), Bind(g, "", "", None), Download(f, c1, true, false),
                Download(g, c2, true, false), Bind(f, md5, "", Some(c2.hash))];
    var s1 := Apply(s0, actions[0]);
    var s2 := Apply(s1, actions[1]);
    var s3 := Apply(s2, actions[2]);
    var s4 := Apply(s3, actions[3]);
    assert Enabled(s4, actions[4]);
    var s5 := Apply(s4, actions[4]);
    run := [s0, s1, s2, s3, s4, s5];
    EmptyConsistent();
    StepConsistentIff(s0, actions[0]);
    StepConsistentIff(s1, actions[1]);
    StepConsistentIff(s2, actions[2]);
    StepConsistentIff(s3, actions[3]);
    StepConsistentIff(s4, actions[4]);
  }

  // ----- Without any assumption

  ghost function RefsOf(blobs: map<Hash, Blob>): Hash -> real {
    h => if h in blobs then blobs[h].refs as real else 0.0
  }

  ghost function TotalRefs(s: Index): real {
    Sum(s.blobs.Keys, RefsOf(s.blobs))
  }

  function FullRows(files: map<FileId, FileRow>): set<FileId> {
    set f | f in files && files[f].full
  }

  lemma FullRowsUpdate(files: map<FileId, FileRow>, f: FileId, row: FileRow)
    ensures |FullRows(files[f := row])| == |FullRows(files)| - One(f in files && files[f].full) + One(row.full)
  {
    var others := FullRows(files) - {f};
    assert FullRows(files) == if f in files && files[f].full then others + {f} else others;
    assert FullRows(files[f := row]) == if row.full then others + {f} else others;
  }

  lemma TotalRefsUpdate(s: Index, h: Hash, b: Blob)
    ensures TotalRefs(Index(s.blobs[h := b], s.files))
         == TotalRefs(s) - (if h in s.blobs then s.blobs[h].refs as real else 0.0) + b.refs as real
  {
    var blobs' := s.blobs[h := b];
    var others := s.blobs.Keys - {h};
    SumCongruent(others, RefsOf(s.blobs), RefsOf(blobs'));
    assert blobs'.Keys - {h} == others;
    SumPull(blobs'.Keys, RefsOf(blobs'), h);
    if h in s.blobs {
      SumPull(s.blobs.Keys, RefsOf(s.blobs), h);
    } else {
      assert others == s.blobs.Keys;
    }
  }

  ghost predicate Covered(s: Index) {
    TotalRefs(s) >= |FullRows(s.files)| as real
  }

  lemma TotalOfFiles(s: Index, files: map<FileId, FileRow>)
    ensures TotalRefs(s) == TotalRefs(s.(files := files))
  {
  }

  lemma StepKeepsCovered(s: Index, a: Action)
    requires Covered(s) && Enabled(s, a)
    ensures Covered(Apply(s, a))
  {
    var s' := Apply(s, a);
    FullRowsUpdate(s.files, a.f, s'.files[a.f]);
    match a
    case Download(f, c, _, _) =>
      TotalRefsUpdate(s, c.hash, s'.blobs[c.hash]);
      TotalOfFiles(Index(s'.blobs, s.files), s'.files);
    case Thumb(f, path) =>
      var hash := s.files[f].hash;
      if hash.Some? && hash.value in s.blobs {
        TotalRefsUpdate(s, hash.value, s'.blobs[hash.value]);
        TotalOfFiles(Index(s'.blobs, s.files), s'.files);
      } else {
        TotalOfFiles(s, s'.files);
      }
    case Bind(_, _, _, _) => TotalOfFiles(s, s'.files);
  }

  /**
    In every run, whatever the contents and bindings, the counts together never fall below the fully downloaded
    rows.
   */
  lemma {:induction false} CountsCoverDownloads(run: seq<Index>, actions: seq<Action>, i: nat)
    requires IsRun(run, actions) && i < |run|
    ensures Covered(run[i])
  {
    if i > 0 {
      CountsCoverDownloads(run, actions, i - 1);
      StepKeepsCovered(run[i - 1], actions[i - 1]);
    }
  }
}
