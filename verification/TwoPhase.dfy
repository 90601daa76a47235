/** The staging protocol of the Parquet destination on S3: recovery, promotion, metadata
    commit and the writer's Setup and Close, one store request at a time. A crash and a failed
    request look the same to the store, since every error path returns without another request. */
module TwoPhaseCommit {
  import opened Wrappers
  import opened Listing
  import opened ObjectStore
  import opened StagingSteps

  datatype Fetched = Found(content: Object) | NotFound | Failed

  /** The keys of one table. `trace` records the bucket after every request that could have changed it. */
  class S3 {
    var objects: Bucket
    ghost var trace: seq<Bucket>

    constructor (initial: Bucket)
      ensures objects == initial && trace == []
    {
      objects, trace := initial, [];
    }

    /** A request may fail before or after it took effect. */
    method Put(key: Key, content: Object) returns (ok: bool)
      modifies this
      ensures trace == old(trace) + [objects]
      ensures objects == old(objects) || objects == old(objects)[key := content]
      ensures ok ==> objects == old(objects)[key := content]
    {
      ok := *;
      var late: bool := *;
      if ok || late { objects := objects[key := content]; }
      trace := trace + [objects];
    }

    method Copy(source: Key, target: Key) returns (ok: bool)
      modifies this
      ensures trace == old(trace) + [objects]
      ensures objects == old(objects) || (source in old(objects) && objects == old(objects)[target := old(objects)[source]])
      ensures ok ==> source in old(objects) && objects == old(objects)[target := old(objects)[source]]
    {
      ok := *;
      var late: bool := *;
      if source !in objects {
        ok := false;
      } else if ok || late {
        objects := objects[target := objects[source]];
      }
      trace := trace + [objects];
    }

    method Delete(key: Key) returns (ok: bool)
      modifies this
      ensures trace == old(trace) + [objects]
      ensures objects == old(objects) || objects == old(objects) - {key}
      ensures ok ==> objects == old(objects) - {key}
    {
      ok := *;
      var late: bool := *;
      if ok || late { objects := objects - {key}; }
      trace := trace + [objects];
    }

    method Get(key: Key) returns (r: Fetched)
      ensures r.Found? ==> key in objects && r.content == objects[key]
      ensures r.NotFound? ==> key !in objects
    {
      if * { return Failed; }
      r := if key in objects then Found(objects[key]) else NotFound;
    }

    /** `listS3Keys` below the staging root. */
    method List(prefix: string) returns (ok: bool, keys: seq<string>)
      ensures ok ==> Ascending(keys)
      ensures ok ==> forall r :: r in keys <==> Under(Staging(r), prefix) && Staging(r) in objects
    {
      if * { return false, []; }
      keys := SortKeys(set k | k in objects && Under(k, prefix) :: k.rel);
      ok := true;
    }
  }

  // ----- promoting -----

  lemma PromotingStart(p: string, b: Bucket)
    ensures Promoting(p, b, b)
  {
  }

  lemma PromotingCopy(y: Layout, c: Contents, p: string, b0: Bucket, b: Bucket, k: Key)
    requires ValidPrefix(y, p) && Coherent(y, c, b0) && Promoting(p, b0, b) && k in b && DataUnder(k, p)
    ensures Promoting(p, b0, b[FinalKey(k, p) := b[k]])
  {
    OwnerIffUnder(y, k, p);
    assert k in b0;
    var f := FinalKey(k, p);
    assert f in b0 ==> b0[f] == b0[k];
    CopyStep(p, b0, b, k);
  }

  lemma CopyStep(p: string, b0: Bucket, b: Bucket, k: Key)
    requires Promoting(p, b0, b) && k in b && k in b0 && DataUnder(k, p)
    requires FinalKey(k, p) in b0 ==> b0[FinalKey(k, p)] == b0[k]
    ensures Promoting(p, b0, b[FinalKey(k, p) := b[k]])
  {
    var f := FinalKey(k, p);
    var b' := b[f := b[k]];
    assert Staging(p + f.rel) == k;
    hide DataUnder, Under;
    forall x | x in b' && x !in b0
      ensures x.Visible? && DataUnder(Staging(p + x.rel), p) && Staging(p + x.rel) in b0 && b'[x] == b0[Staging(p + x.rel)]
    {
      if x != f { assert x in b && b'[x] == b[x]; }
    }
  }

  lemma PromotingDelete(p: string, b0: Bucket, b: Bucket, k: Key)
    requires Promoting(p, b0, b) && DataUnder(k, p) && FinalKey(k, p) in b
    ensures Promoting(p, b0, b - {k})
  {
  }

  lemma NoneStaged(p: string, b: Bucket)
    requires forall k :: DataUnder(k, p) ==> k !in b
    ensures StagedData(b, p) == {}
  {
  }

  // ----- deleting -----

  lemma DeletingStart(p: string, b: Bucket)
    ensures Deleting(p, b, b)
  {
  }

  lemma DeletingKey(p: string, b0: Bucket, b: Bucket, k: Key)
    requires Deleting(p, b0, b) && Under(k, p)
    requires k == FinishKey(p) ==> forall x :: x in b && Under(x, p) ==> x == k
    ensures Deleting(p, b0, b - {k})
  {
  }

  // ----- what a method did to the bucket, request by request -----

  /** Every bucket recorded from step `n` on stands for the same logical table as `b0`. */
  ghost predicate KeptSince(y: Layout, c: Contents, b0: Bucket, trace: seq<Bucket>, n: nat) {
    forall i :: n <= i < |trace| ==> SameTable(y, c, b0, trace[i])
  }

  /** Staging outside prefix `p` is untouched. */
  ghost predicate OutsideKept(p: string, b0: Bucket, b: Bucket) {
    forall k: Key :: k.Staging? && !Under(k, p) ==> (k in b <==> k in b0) && (k in b ==> b[k] == b0[k])
  }

  lemma OutsideTransitive(p: string, b0: Bucket, b1: Bucket, b2: Bucket)
    requires OutsideKept(p, b0, b1) && OutsideKept(p, b1, b2)
    ensures OutsideKept(p, b0, b2)
  {
  }

  lemma KeptTransitive(y: Layout, c: Contents, b0: Bucket, b1: Bucket, before: seq<Bucket>, trace: seq<Bucket>, n: nat)
    requires n <= |before| && before <= trace
    requires KeptSince(y, c, b0, before, n) && SameTable(y, c, b0, b1) && KeptSince(y, c, b1, trace, |before|)
    ensures KeptSince(y, c, b0, trace, n)
  {
    hide Sound, View, Pending, Foreign;
    forall i | n <= i < |trace| ensures SameTable(y, c, b0, trace[i]) {
      if i < |before| { assert trace[i] == before[i]; }
    }
  }

  lemma SameTableTransitive(y: Layout, c: Contents, b0: Bucket, b1: Bucket, b2: Bucket)
    requires SameTable(y, c, b0, b1) && SameTable(y, c, b1, b2)
    ensures SameTable(y, c, b0, b2)
  {
    hide Sound, View, Pending, Foreign;
  }

  lemma PromotingKept(y: Layout, c: Contents, p: string, b0: Bucket, trace: seq<Bucket>, n: nat)
    requires ValidPrefix(y, p) && FinishKey(p) in b0 && Sound(y, c, b0)
    requires forall i :: n <= i < |trace| ==> Promoting(p, b0, trace[i])
    ensures KeptSince(y, c, b0, trace, n)
  {
    hide Promoting, Sound, SameTable, ValidPrefix, FinishKey;
    forall i | n <= i < |trace| ensures SameTable(y, c, b0, trace[i]) { PromotingSound(y, c, p, b0, trace[i]); }
  }

  lemma PromotingOutside(p: string, b0: Bucket, b: Bucket)
    requires Promoting(p, b0, b)
    ensures OutsideKept(p, b0, b)
    ensures FinishKey(p) in b0 ==> FinishKey(p) in b && b[FinishKey(p)] == b0[FinishKey(p)]
  {
  }

  /** A prefix that may go: never finished, or fully rolled forward. */
  ghost predicate Disposable(p: string, b: Bucket) {
    FinishKey(p) !in b || (Applied(p, b) && StagedData(b, p) == {})
  }

  lemma DeletingKept(y: Layout, c: Contents, p: string, b0: Bucket, trace: seq<Bucket>, n: nat)
    requires ValidPrefix(y, p) && Disposable(p, b0) && Sound(y, c, b0)
    requires forall i :: n <= i < |trace| ==> Deleting(p, b0, trace[i])
    ensures KeptSince(y, c, b0, trace, n)
  {
    hide Deleting, Sound, SameTable, ValidPrefix, FinishKey, Applied, StagedData;
    forall i | n <= i < |trace| ensures SameTable(y, c, b0, trace[i]) { DeletingSame(y, c, p, b0, trace[i]); }
  }

  lemma DeletingSame(y: Layout, c: Contents, p: string, b0: Bucket, b: Bucket)
    requires ValidPrefix(y, p) && Disposable(p, b0) && Sound(y, c, b0) && Deleting(p, b0, b)
    ensures SameTable(y, c, b0, b)
  {
    hide Deleting, Sound, SameTable, ValidPrefix, FinishKey, Applied, StagedData;
    if FinishKey(p) !in b0 { DiscardingSound(y, c, p, b0, b); } else { CleaningSound(y, c, p, b0, b); }
  }

  lemma DeletingOutside(p: string, b0: Bucket, b: Bucket)
    requires Deleting(p, b0, b)
    ensures OutsideKept(p, b0, b)
  {
  }

  /** No id and no checkpoint field is lost but those the finish marker itself replaces. */
  ghost predicate FieldsKept(current: MetadataState, finish: Object, after: MetadataState) {
    && current.committed <= after.committed
    && forall f :: f in CheckpointFields(current) && LeavesField(finish, f) ==>
         f in CheckpointFields(after) && CheckpointFields(after)[f] == CheckpointFields(current)[f]
  }

  lemma FieldsKeptAfter(current: MetadataState, finish: Object)
    ensures FieldsKept(current, finish, AfterFinish(current, finish)) && FieldsKept(current, finish, current)
  {
    forall f | f in CheckpointFields(current) && LeavesField(finish, f)
      ensures f in CheckpointFields(AfterFinish(current, finish))
              && CheckpointFields(AfterFinish(current, finish))[f] == CheckpointFields(current)[f]
    {
      FieldSurvivesIff(current, finish, f);
    }
  }

  function WithMetadata(b: Bucket, finish: Object): Bucket {
    b[Metadata := MetadataFile(AfterFinish(OrEmpty(RawMeta(b)), finish))]
  }

  lemma CommitKept(y: Layout, c: Contents, b0: Bucket, finish: Object, trace: seq<Bucket>, n: nat)
    requires Sound(y, c, b0) && SameTable(y, c, b0, WithMetadata(b0, finish))
    requires forall i :: n <= i < |trace| ==> trace[i] == b0 || trace[i] == WithMetadata(b0, finish)
    ensures KeptSince(y, c, b0, trace, n)
  {
    hide Sound, View, Pending, Foreign, WithMetadata;
  }

  // ----- recovery loop -----

  /** Entries from `n` on still describe the staging area, entries before `n` are gone. */
  ghost predicate PendingEntries(entries: seq<Entry>, n: nat, b: Bucket) {
    && (forall k :: k in b && Owned(PerChunk, k) ==> Owner(PerChunk, k) in Prefixes(entries))
    && (forall j :: 0 <= j < |entries| ==> IsEntryPrefix(entries[j].prefix))
    && (forall j :: 0 <= j < n && j < |entries| ==> forall k :: k in b ==> !Under(k, entries[j].prefix))
    && (forall j :: n <= j < |entries| ==> (entries[j].finished <==> FinishKey(entries[j].prefix) in b))
  }

  lemma PendingStart(keys: seq<string>, entries: seq<Entry>, b: Bucket)
    requires GroupsKeys(entries, keys)
    requires forall r :: r in keys <==> Staging(r) in b
    ensures PendingEntries(entries, 0, b)
  {
    forall k | k in b && Owned(PerChunk, k) ensures Owner(PerChunk, k) in Prefixes(entries) {
      var i :| 0 <= i < |keys| && keys[i] == k.rel;
      KeyDirectoryListed(keys, i);
    }
  }

  lemma PendingNext(entries: seq<Entry>, n: nat, b: Bucket, b': Bucket)
    requires n < |entries| && DistinctPrefixes(entries) && PendingEntries(entries, n, b)
    requires OutsideKept(entries[n].prefix, b, b')
    requires forall k :: k in b' ==> !Under(k, entries[n].prefix)
    ensures PendingEntries(entries, n + 1, b')
  {
    var p := entries[n].prefix;
    forall j | n < j < |entries| ensures entries[j].finished <==> FinishKey(entries[j].prefix) in b' {
      FinishOwned(PerChunk, entries[j].prefix);
      OwnerIffUnder(PerChunk, FinishKey(entries[j].prefix), p);
    }
  }

  lemma {:induction false} PrefixHasEntry(entries: seq<Entry>, p: string)
    requires p in Prefixes(entries)
    ensures exists j :: 0 <= j < |entries| && entries[j].prefix == p
    decreases |entries|
  {
    if entries[|entries| - 1].prefix != p {
      PrefixHasEntry(entries[..|entries| - 1], p);
      var j :| 0 <= j < |entries| - 1 && entries[..|entries| - 1][j].prefix == p;
      assert entries[j].prefix == p;
    }
  }

  lemma PendingDone(entries: seq<Entry>, b: Bucket)
    requires PendingEntries(entries, |entries|, b)
    ensures NothingStaged(PerChunk, b)
  {
    forall k | k in b && Owned(PerChunk, k) ensures false {
      PrefixHasEntry(entries, Owner(PerChunk, k));
      OwnerIffUnder(PerChunk, k, Owner(PerChunk, k));
    }
  }

  /** Recovery ends in the one bucket its starting point determines. */
  lemma RecoveredIsSettled(y: Layout, c: Contents, b0: Bucket, b: Bucket)
    requires SameTable(y, c, b0, b) && MetadataReadable(b0) && NothingStaged(y, b)
    ensures b == Settled(y, c, b0)
  {
    hide Coherent, FinishesDistinct, NamedIsVisible, View, Pending, Foreign, NothingStaged, TableObjects;
    SettledAtRest(y, c, b);
    SettledBySameTable(y, c, b0, b);
  }

  /** However often recovery is cut short and started again, it ends where one run would have ended:
      `runs` lists the bucket after each attempt, the last of which ran to completion. */
  lemma {:induction false} RecoveryConfluent(y: Layout, c: Contents, runs: seq<Bucket>)
    requires |runs| >= 2 && Sound(y, c, runs[0]) && MetadataReadable(runs[0])
    requires forall i :: 0 <= i < |runs| - 1 ==> SameTable(y, c, runs[i], runs[i + 1])
    requires NothingStaged(y, runs[|runs| - 1])
    ensures runs[|runs| - 1] == Settled(y, c, runs[0])
    decreases |runs|
  {
    hide Sound, View, Pending, Foreign, Settled, NothingStaged;
    if |runs| == 2 {
      RecoveredIsSettled(y, c, runs[0], runs[1]);
    } else {
      SameTableTransitive(y, c, runs[0], runs[1], runs[2]);
      RecoveryConfluent(y, c, [runs[0]] + runs[2..]);
    }
  }

  // ----- closing -----

  /** The bucket stands for the table of `b0` with one more attempt in it. */
  ghost predicate Published(y: Layout, c: Contents, b0: Bucket, files: set<Path>, finish: Object, b: Bucket) {
    && Sound(y, c, b)
    && View(y, b) == Publish(View(y, b0), files, finish)
    && Foreign(y, b) == Foreign(y, b0)
    && (forall e :: e in Pending(y, b) ==> e.0 == finish && e.1 in files)
    && NamedIn(b0) <= NamedIn(b)
    && (y.Shared? && Pending(y, b) != {} ==> RawMeta(b) == View(y, b0).meta)
    && (MetadataReadable(b0) ==> MetadataReadable(b))
  }

  lemma UploadStart(p: string, c: Contents, files: set<Path>, b: Bucket)
    ensures Uploading(p, c, files, b, b)
  {
  }

  lemma UploadStep(p: string, c: Contents, files: set<Path>, b0: Bucket, b: Bucket, r: Path)
    requires Uploading(p, c, files, b0, b) && r in files && r != "" && r != FINISH
    requires Staging(p + r) !in b0
    ensures Uploading(p, c, files, b0, b[Staging(p + r) := DataFile(c(r))])
  {
    assert (p + r)[|p|..] == r;
  }

  lemma UploadKept(y: Layout, c: Contents, p: string, files: set<Path>, b0: Bucket, trace: seq<Bucket>, n: nat)
    requires ValidPrefix(y, p) && FinishKey(p) !in b0 && Sound(y, c, b0)
    requires forall i :: n <= i < |trace| ==> Uploading(p, c, files, b0, trace[i])
    ensures KeptSince(y, c, b0, trace, n)
  {
    hide Uploading, Sound, SameTable, ValidPrefix, FinishKey;
    forall i | n <= i < |trace| ensures SameTable(y, c, b0, trace[i]) { UploadingSound(y, c, p, files, b0, trace[i]); }
  }

  lemma UploadedPaths(y: Layout, p: string, c: Contents, files: set<Path>, b0: Bucket, b: Bucket)
    requires ValidPrefix(y, p) && NothingStaged(y, b0) && Uploading(p, c, files, b0, b)
    requires forall r :: r in files ==> r != "" && r != FINISH && Staging(p + r) in b
    ensures StagedPaths(b, p) == files && FinishKey(p) !in b
    ensures StagedOnlyUnder(y, p, b)
  {
    FinishOwned(y, p);
    forall k | k in b0 ensures !Under(k, p) { OwnerIffUnder(y, k, p); }
    forall r | r in files ensures r in StagedPaths(b, p) {
      assert DataUnder(Staging(p + r), p) && PathUnder(Staging(p + r), p) == r;
    }
  }

  /** At rest the raw metadata is the metadata of the logical table. */
  lemma RestingNames(y: Layout, c: Contents, b0: Bucket, b: Bucket)
    requires SameTable(y, c, b0, b) && NothingStaged(y, b)
    ensures RawMeta(b) == View(y, b0).meta
  {
    hide Sound, Foreign;
    RestingView(y, b);
  }

  lemma PublishedSince(y: Layout, c: Contents, b0: Bucket, b1: Bucket, files: set<Path>, finish: Object, trace: seq<Bucket>, n: nat)
    requires Published(y, c, b0, files, finish, b1) && KeptSince(y, c, b1, trace, n)
    ensures forall i :: n <= i < |trace| ==> Published(y, c, b0, files, finish, trace[i])
  {
    hide Sound, View, Pending, Foreign, Publish;
  }

  lemma PublishesFromSame(y: Layout, c: Contents, b0: Bucket, b1: Bucket, p: string, finish: Object, b: Bucket)
    requires SameTable(y, c, b0, b1) && Sound(y, c, b) && Foreign(y, b) == Foreign(y, b1)
    requires View(y, b) == Publish(View(y, b1), StagedPaths(b1, p), finish) && b == b1[FinishKey(p) := finish]
    requires forall e :: e in Pending(y, b) ==> e.0 == finish && e.1 in StagedPaths(b1, p)
    requires RawMeta(b1) == View(y, b0).meta
    ensures Published(y, c, b0, StagedPaths(b1, p), finish, b)
  {
    hide Sound, View, Pending, Foreign, Publish;
  }

  class Parquet {
    const s3: S3
    const backfill: bool
    const threadID: ThreadID
    const directory: string        // hex digest of the thread id
    ghost const contents: Contents

    constructor (s3: S3, backfill: bool, threadID: ThreadID, directory: string, ghost contents: Contents)
      ensures this.s3 == s3 && this.backfill == backfill && this.threadID == threadID
      ensures this.directory == directory && this.contents == contents
    {
      this.s3, this.backfill, this.threadID, this.directory := s3, backfill, threadID, directory;
      this.contents := contents;
    }

    /** `promoteS3Staging` of a finished prefix. */
    method PromoteStaging(ghost y: Layout, p: string) returns (ok: bool)
      requires ValidPrefix(y, p) && Sound(y, contents, s3.objects) && FinishKey(p) in s3.objects
      modifies s3
      ensures old(s3.trace) <= s3.trace && KeptSince(y, contents, old(s3.objects), s3.trace, |old(s3.trace)|)
      ensures SameTable(y, contents, old(s3.objects), s3.objects) && OutsideKept(p, old(s3.objects), s3.objects)
      ensures FinishKey(p) in s3.objects && s3.objects[FinishKey(p)] == old(s3.objects[FinishKey(p)])
      ensures ok ==> StagedData(s3.objects, p) == {}
    {
      ghost var b0 := s3.objects;
      assert Coherent(y, contents, b0);
      hide Promoting, Coherent, ValidPrefix, StagedData, Sound, SameTable, KeptSince, FinishKey;
      PromotingStart(p, b0);
      ok := true;
      var listed, keys := s3.List(p);
      var n := 0;
      while listed && ok && n < |keys|
        invariant 0 <= n <= |keys|
        invariant old(s3.trace) <= s3.trace
        invariant forall i :: |old(s3.trace)| <= i < |s3.trace| ==> Promoting(p, b0, s3.trace[i])
        invariant Promoting(p, b0, s3.objects)
        invariant listed && ok ==> forall k :: DataUnder(k, p) && k in s3.objects ==> k.rel in keys[n..]
      {
        var key := Staging(keys[n]);
        if key.rel != p && key != FinishKey(p) {
          ok := PromoteKey(y, p, key, b0);
        }
        n := n + 1;
      }
      if listed && ok { NoneStaged(p, s3.objects); }
      ok := listed && ok;
      PromotingKept(y, contents, p, b0, s3.trace, |old(s3.trace)|);
      PromotingSound(y, contents, p, b0, s3.objects);
      PromotingOutside(p, b0, s3.objects);
    }

    /** Copy into the table path, then drop the staged copy. */
    method PromoteKey(ghost y: Layout, p: string, key: Key, ghost b0: Bucket) returns (ok: bool)
      requires ValidPrefix(y, p) && Coherent(y, contents, b0) && Promoting(p, b0, s3.objects)
      requires DataUnder(key, p)
      modifies s3
      ensures old(s3.trace) <= s3.trace
      ensures forall i :: |old(s3.trace)| <= i < |s3.trace| ==> Promoting(p, b0, s3.trace[i])
      ensures Promoting(p, b0, s3.objects)
      ensures forall k :: k in s3.objects && k.Staging? ==> k in old(s3.objects)
      ensures ok ==> key !in s3.objects
    {
      hide Promoting, Coherent, ValidPrefix;
      if key in s3.objects { PromotingCopy(y, contents, p, b0, s3.objects, key); }
      ok := s3.Copy(key, FinalKey(key, p));
      if !ok { return false; }
      PromotingDelete(p, b0, s3.objects, key);
      ok := s3.Delete(key);
    }

    /** `deleteStagingPrefix`: data first, in any order and as far as requests succeed; the finish marker last. */
    method DeleteStagingPrefix(ghost y: Layout, p: string) returns (ok: bool)
      requires ValidPrefix(y, p) && Sound(y, contents, s3.objects) && Disposable(p, s3.objects)
      modifies s3
      ensures old(s3.trace) <= s3.trace && KeptSince(y, contents, old(s3.objects), s3.trace, |old(s3.trace)|)
      ensures SameTable(y, contents, old(s3.objects), s3.objects) && OutsideKept(p, old(s3.objects), s3.objects)
      ensures ok ==> forall k :: k in s3.objects ==> !Under(k, p)
    {
      hide Deleting, Sound, ValidPrefix, Disposable, SameTable, KeptSince;
      ghost var b0 := s3.objects;
      DeletingStart(p, b0);
      var listed, keys := s3.List(p);
      ok := listed;
      if listed {
        ok := DeleteData(p, set r | r in keys && Staging(r) != FinishKey(p) :: Staging(r), b0);
        if ok && FinishKey(p).rel in keys {
          DeletingKey(p, b0, s3.objects, FinishKey(p));
          ok := s3.Delete(FinishKey(p));
        }
      }
      DeletingKept(y, contents, p, b0, s3.trace, |old(s3.trace)|);
      DeletingSame(y, contents, p, b0, s3.objects);
      DeletingOutside(p, b0, s3.objects);
    }

    /** The concurrent deletions: each key is attempted once, whatever becomes of the others. */
    method DeleteData(p: string, keys: set<Key>, ghost b0: Bucket) returns (ok: bool)
      requires Deleting(p, b0, s3.objects)
      requires forall k :: k in keys ==> Under(k, p) && k != FinishKey(p)
      modifies s3
      ensures old(s3.trace) <= s3.trace
      ensures forall i :: |old(s3.trace)| <= i < |s3.trace| ==> Deleting(p, b0, s3.trace[i])
      ensures Deleting(p, b0, s3.objects)
      ensures forall k :: k in s3.objects ==> k in old(s3.objects)
      ensures ok ==> forall k :: k in s3.objects ==> k !in keys
    {
      hide Deleting, Under;
      ok := true;
      var todo := keys;
      while todo != {}
        invariant todo <= keys
        invariant old(s3.trace) <= s3.trace
        invariant forall i :: |old(s3.trace)| <= i < |s3.trace| ==> Deleting(p, b0, s3.trace[i])
        invariant Deleting(p, b0, s3.objects)
        invariant forall k :: k in s3.objects ==> k in old(s3.objects)
        invariant ok ==> forall k :: k in s3.objects && k in keys ==> k in todo
        decreases |todo|
      {
        var k :| k in todo;
        DeletingKey(p, b0, s3.objects, k);
        var deleted := s3.Delete(k);
        ok := ok && deleted;
        todo := todo - {k};
      }
    }

    /** `readMetadata`: a missing object means a fresh table. */
    method ReadMetadata() returns (ok: bool, meta: Option<MetadataState>)
      ensures ok ==> meta == RawMeta(s3.objects) && MetadataReadable(s3.objects)
    {
      var r := s3.Get(Metadata);
      match r {
        case Found(MetadataFile(state)) => return true, Some(state);
        case NotFound => return true, None;
        case _ => return false, None;
      }
    }

    /** `commitBackfillMetadata` and `commitStreamMetadata`: read, roll the finish marker in, write back. */
    method CommitMetadata(ghost y: Layout, ghost p: string, finish: Object) returns (ok: bool)
      requires ValidPrefix(y, p) && Sound(y, contents, s3.objects) && StagedData(s3.objects, p) == {}
      requires FinishKey(p) in s3.objects && s3.objects[FinishKey(p)] == finish && (y.PerChunk? ==> finish.BackfillFinish?)
      modifies s3
      ensures old(s3.trace) <= s3.trace && KeptSince(y, contents, old(s3.objects), s3.trace, |old(s3.trace)|)
      ensures SameTable(y, contents, old(s3.objects), s3.objects)
      ensures s3.objects == old(s3.objects) || s3.objects == WithMetadata(old(s3.objects), finish)
      ensures ok ==> s3.objects == WithMetadata(old(s3.objects), finish) && Disposable(p, s3.objects)
      ensures FieldsKept(OrEmpty(RawMeta(old(s3.objects))), finish, OrEmpty(RawMeta(s3.objects)))
    {
      ghost var b0 := s3.objects;
      CommitMetadataSound(y, contents, p, b0, WithMetadata(b0, finish));
      assert SameTable(y, contents, b0, b0);
      hide Sound, SameTable, ValidPrefix, StagedData, Applied, KeptSince, FieldsKept;
      FieldsKeptAfter(OrEmpty(RawMeta(b0)), finish);
      var read, meta := ReadMetadata();
      ok := read;
      if read {
        ok := s3.Put(Metadata, MetadataFile(AfterFinish(OrEmpty(meta), finish)));
      }
      CommitKept(y, contents, b0, finish, s3.trace, |old(s3.trace)|);
    }

    /** `finalizeBackfillStaging` and `finalizeStreamStaging`: promote, name, clean up. */
    method FinalizeStaging(ghost y: Layout, p: string, finish: Object) returns (ok: bool)
      requires ValidPrefix(y, p) && Sound(y, contents, s3.objects)
      requires FinishKey(p) in s3.objects && s3.objects[FinishKey(p)] == finish && (y.PerChunk? ==> finish.BackfillFinish?)
      modifies s3
      ensures old(s3.trace) <= s3.trace && KeptSince(y, contents, old(s3.objects), s3.trace, |old(s3.trace)|)
      ensures SameTable(y, contents, old(s3.objects), s3.objects) && OutsideKept(p, old(s3.objects), s3.objects)
      ensures ok ==> forall k :: k in s3.objects ==> !Under(k, p)
    {
      hide Sound, View, Pending, Foreign, ValidPrefix, StagedData, Disposable, KeptSince, FinishKey, Under;
      ghost var b0, n0 := s3.objects, |s3.trace|;
      ok := PromoteStaging(y, p);
      if !ok { return false; }

      ghost var b1, t1 := s3.objects, s3.trace;
      ok := CommitMetadata(y, p, finish);
      KeptTransitive(y, contents, b0, b1, t1, s3.trace, n0);
      OutsideTransitive(p, b0, b1, s3.objects);
      if !ok { return false; }

      ghost var b2, t2 := s3.objects, s3.trace;
      ok := DeleteStagingPrefix(y, p);
      KeptTransitive(y, contents, b0, b2, t2, s3.trace, n0);
      OutsideTransitive(p, b0, b2, s3.objects);
    }

    /** `recoverBackfillStaging`: discard unfinished chunks, roll finished ones forward. */
    method RecoverBackfillStaging() returns (ok: bool)
      requires Sound(PerChunk, contents, s3.objects)
      modifies s3
      ensures old(s3.trace) <= s3.trace && KeptSince(PerChunk, contents, old(s3.objects), s3.trace, |old(s3.trace)|)
      ensures SameTable(PerChunk, contents, old(s3.objects), s3.objects)
      ensures ok ==> NothingStaged(PerChunk, s3.objects)
      ensures ok && MetadataReadable(old(s3.objects)) ==> s3.objects == Settled(PerChunk, contents, old(s3.objects))
    {
      ghost var b0, n0 := s3.objects, |s3.trace|;
      assert SameTable(PerChunk, contents, b0, b0);
      hide Sound, View, Pending, Foreign, Settled, KeptSince, NothingStaged, PendingEntries, GroupsKeys;
      var listed, keys := s3.List("");
      if !listed { KeptNothing(PerChunk, contents, b0, s3.trace); return false; }
      var entries := GroupStagingEntries(keys);
      PendingStart(keys, entries, b0);
      KeptNothing(PerChunk, contents, b0, s3.trace);
      for n := 0 to |entries|
        invariant old(s3.trace) <= s3.trace && KeptSince(PerChunk, contents, b0, s3.trace, n0)
        invariant SameTable(PerChunk, contents, b0, s3.objects)
        invariant PendingEntries(entries, n, s3.objects)
      {
        ghost var b, t := s3.objects, s3.trace;
        ok := RecoverEntry(entries, n);
        KeptTransitive(PerChunk, contents, b0, b, t, s3.trace, n0);
        if !ok { return false; }
      }
      PendingDone(entries, s3.objects);
      if MetadataReadable(b0) { RecoveredIsSettled(PerChunk, contents, b0, s3.objects); }
      ok := true;
    }

    /** One entry; a malformed finish marker stops recovery without touching what is staged. */
    method RecoverEntry(entries: seq<Entry>, n: nat) returns (ok: bool)
      requires n < |entries| && Sound(PerChunk, contents, s3.objects)
      requires PendingEntries(entries, n, s3.objects) && DistinctPrefixes(entries)
      modifies s3
      ensures old(s3.trace) <= s3.trace && KeptSince(PerChunk, contents, old(s3.objects), s3.trace, |old(s3.trace)|)
      ensures SameTable(PerChunk, contents, old(s3.objects), s3.objects)
      ensures ok ==> PendingEntries(entries, n + 1, s3.objects)
    {
      ghost var b0 := s3.objects;
      var p := entries[n].prefix;
      assert SameTable(PerChunk, contents, b0, b0);
      assert ValidPrefix(PerChunk, p) && (entries[n].finished <==> FinishKey(p) in b0);
      assert !entries[n].finished ==> Disposable(p, b0);
      hide Sound, View, Pending, Foreign, KeptSince, PendingEntries, DistinctPrefixes, Disposable, ValidPrefix, FinishKey, OutsideKept, Under;
      KeptNothing(PerChunk, contents, b0, s3.trace);
      if !entries[n].finished {
        ok := DeleteStagingPrefix(PerChunk, p);
      } else {
        var r := s3.Get(FinishKey(p));
        match r {
          case Found(BackfillFinish(thread)) =>
            if thread == "" { return false; }
            ok := FinalizeStaging(PerChunk, p, BackfillFinish(thread));
          case _ => return false;
        }
      }
      if ok { PendingNext(entries, n, b0, s3.objects); }
    }

    /** `recoverSharedStaging`: without a finish marker the whole staging root goes. */
    method RecoverSharedStaging() returns (ok: bool)
      requires Sound(Shared, contents, s3.objects)
      modifies s3
      ensures old(s3.trace) <= s3.trace && KeptSince(Shared, contents, old(s3.objects), s3.trace, |old(s3.trace)|)
      ensures SameTable(Shared, contents, old(s3.objects), s3.objects)
      ensures ok ==> NothingStaged(Shared, s3.objects)
      ensures ok && MetadataReadable(old(s3.objects)) ==> s3.objects == Settled(Shared, contents, old(s3.objects))
    {
      ghost var b0 := s3.objects;
      assert SameTable(Shared, contents, b0, b0);
      hide Sound, View, Pending, Foreign, Settled, KeptSince;
      KeptNothing(Shared, contents, b0, s3.trace);
      var listed, keys := s3.List("");
      if !listed { return false; }
      if |keys| != 0 {
        if FinishKey("").rel !in keys {
          ok := DeleteStagingPrefix(Shared, "");
        } else {
          var r := s3.Get(FinishKey(""));
          match r {
            case Found(StreamFinish(state)) =>
              if state == EMPTY_STATE { return false; }
              ok := FinalizeStaging(Shared, "", StreamFinish(state));
            case _ => return false;
          }
        }
        if !ok { return false; }
      }
      ok := true;
      assert NothingStaged(Shared, s3.objects);
      if MetadataReadable(b0) { RecoveredIsSettled(Shared, contents, b0, s3.objects); }
    }

    ghost function Mode(): Layout {
      if backfill then PerChunk else Shared
    }

    /** `currentStagingPrefix` */
    function CurrentPrefix(): string {
      if backfill then directory + "/" else ""
    }

    /** The directory name is a hex digest. */
    ghost predicate Configured() {
      backfill ==> IsEntryPrefix(directory + "/")
    }

    /** `recoverStaging` */
    method RecoverStaging() returns (ok: bool)
      requires Sound(Mode(), contents, s3.objects)
      modifies s3
      ensures old(s3.trace) <= s3.trace && KeptSince(Mode(), contents, old(s3.objects), s3.trace, |old(s3.trace)|)
      ensures SameTable(Mode(), contents, old(s3.objects), s3.objects)
      ensures ok ==> NothingStaged(Mode(), s3.objects)
      ensures ok && MetadataReadable(old(s3.objects)) ==> s3.objects == Settled(Mode(), contents, old(s3.objects))
    {
      hide Sound, View, Pending, Foreign, Settled, KeptSince, NothingStaged;
      if backfill {
        ok := RecoverBackfillStaging();
      } else {
        ok := RecoverSharedStaging();
      }
    }

    /** The store part of `Setup` (`load2PCState`): recover, then read the durable metadata. */
    method Setup() returns (ok: bool, meta: Option<MetadataState>)
      requires Sound(Mode(), contents, s3.objects)
      modifies s3
      ensures old(s3.trace) <= s3.trace && KeptSince(Mode(), contents, old(s3.objects), s3.trace, |old(s3.trace)|)
      ensures SameTable(Mode(), contents, old(s3.objects), s3.objects)
      ensures ok ==> NothingStaged(Mode(), s3.objects) && meta == View(Mode(), old(s3.objects)).meta
    {
      hide Sound, View, Pending, Foreign, Settled, KeptSince, NothingStaged;
      ok := RecoverStaging();
      meta := None;
      if ok {
        RestingNames(Mode(), contents, old(s3.objects), s3.objects);
        ok, meta := ReadMetadata();
      }
    }

    /** `uploadPqFiles`: uploads in any order, each attempted once. */
    method UploadFiles(p: string, files: map<Path, seq<Row>>, ghost b0: Bucket) returns (ok: bool)
      requires forall r :: r in files ==> r != "" && r != FINISH && Staging(p + r) !in b0 && files[r] == contents(r)
      requires s3.objects == b0
      modifies s3
      ensures old(s3.trace) <= s3.trace
      ensures forall i :: |old(s3.trace)| <= i < |s3.trace| ==> Uploading(p, contents, files.Keys, b0, s3.trace[i])
      ensures Uploading(p, contents, files.Keys, b0, s3.objects)
      ensures ok ==> forall r :: r in files ==> Staging(p + r) in s3.objects
    {
      hide Uploading;
      UploadStart(p, contents, files.Keys, b0);
      ok := true;
      var todo := files.Keys;
      while todo != {}
        invariant todo <= files.Keys
        invariant old(s3.trace) <= s3.trace
        invariant forall i :: |old(s3.trace)| <= i < |s3.trace| ==> Uploading(p, contents, files.Keys, b0, s3.trace[i])
        invariant Uploading(p, contents, files.Keys, b0, s3.objects)
        invariant ok ==> forall r :: r in files && r !in todo ==> Staging(p + r) in s3.objects
        decreases |todo|
      {
        var r :| r in todo;
        UploadStep(p, contents, files.Keys, b0, s3.objects, r);
        var put := s3.Put(Staging(p + r), DataFile(files[r]));
        ok := ok && put;
        todo := todo - {r};
      }
    }

    /** The finish marker `Close` writes; a stream without checkpoint cannot be committed. */
    function FinishFor(final: Option<MetadataState>): Option<Object> {
      if backfill then Some(BackfillFinish(threadID))
      else if final.None? || final.value == EMPTY_STATE then None
      else Some(StreamFinish(final.value))
    }

    /** The store part of `Close`. `commitAt` is the request at which the attempt became part of the
        table; up to there nothing changed, from there on the whole attempt is in, failure or not. */
    method Close(cancelled: bool, files: map<Path, seq<Row>>, final: Option<MetadataState>) returns (ok: bool, ghost commitAt: nat)
      requires Configured() && Sound(Mode(), contents, s3.objects)
      requires forall r :: r in files ==> r != "" && r != FINISH && files[r] == contents(r)
      requires backfill && threadID in OrEmpty(View(Mode(), s3.objects).meta).committed ==> files == map[]
      modifies s3
      ensures old(s3.trace) <= s3.trace && |old(s3.trace)| <= commitAt <= |s3.trace|
      ensures KeptSince(Mode(), contents, old(s3.objects), s3.trace[..commitAt], |old(s3.trace)|)
      ensures commitAt < |s3.trace| ==> backfill || (final.Some? && final.value != MetadataState(None, None, {}, None))
      ensures backfill ==> forall i :: commitAt <= i < |s3.trace| ==>
        Published(PerChunk, contents, old(s3.objects), files.Keys, BackfillFinish(threadID), s3.trace[i])
      ensures !backfill && final.Some? ==> forall i :: commitAt <= i < |s3.trace| ==>
        Published(Shared, contents, old(s3.objects), files.Keys, StreamFinish(final.value), s3.trace[i])
      ensures commitAt == |s3.trace| ==> SameTable(Mode(), contents, old(s3.objects), s3.objects)
      ensures commitAt < |s3.trace| && backfill ==>
        && Published(PerChunk, contents, old(s3.objects), files.Keys, BackfillFinish(threadID), s3.objects)
        && AddsThread(View(PerChunk, old(s3.objects)), files.Keys, threadID, View(PerChunk, s3.objects))
      ensures commitAt < |s3.trace| && !backfill && final.Some? ==>
        && Published(Shared, contents, old(s3.objects), files.Keys, StreamFinish(final.value), s3.objects)
        && TakesState(View(Shared, old(s3.objects)), files.Keys, final.value, View(Shared, s3.objects))
      ensures ok && (backfill || files != map[]) ==> commitAt < |s3.trace| && NothingStaged(Mode(), s3.objects)
      ensures !backfill && files == map[] ==> s3.objects == old(s3.objects) && s3.trace == old(s3.trace)
    {
      ghost var y, b0, n0 := Mode(), s3.objects, |s3.trace|;
      assert SameTable(y, contents, b0, b0);
      hide Sound, View, Pending, Foreign, Settled, KeptSince, NothingStaged, Published, Uploading, AddsThread, TakesState;
      KeptNothing(y, contents, b0, s3.trace);
      commitAt := n0;
      assert s3.trace[..commitAt] == s3.trace;
      if !backfill && files == map[] { return !cancelled, commitAt; }
      var finish := FinishFor(final);
      if finish.None? || cancelled { return false, commitAt; }

      ok := RecoverStaging();
      commitAt := |s3.trace|;
      assert s3.trace[..commitAt] == s3.trace;
      if !ok { return; }

      ok := StageFiles(y, CurrentPrefix(), files, b0, n0);
      commitAt := |s3.trace|;
      assert s3.trace[..commitAt] == s3.trace;
      if !ok { return; }
      ok, commitAt := CommitAttempt(y, CurrentPrefix(), files.Keys, finish.value, b0, n0);
      if commitAt < |s3.trace| { PublishedTable(y, contents, b0, files.Keys, finish.value, s3.objects); }
    }

    /** From the finish marker on: publish, then roll forward. */
    method CommitAttempt(ghost y: Layout, p: string, ghost files: set<Path>, finish: Object, ghost b0: Bucket, ghost n0: nat)
      returns (ok: bool, ghost commitAt: nat)
      requires ValidPrefix(y, p) && n0 <= |s3.trace| && KeptSince(y, contents, b0, s3.trace, n0)
      requires SameTable(y, contents, b0, s3.objects) && FinishKey(p) !in s3.objects && StagedPaths(s3.objects, p) == files
      requires StagedOnlyUnder(y, p, s3.objects)
      requires if y.PerChunk? then finish.BackfillFinish? else finish.StreamFinish?
      requires RawMeta(s3.objects) == View(y, b0).meta
      requires y.PerChunk? && Names(OrEmpty(RawMeta(s3.objects)), finish) ==> files == {}
      modifies s3
      ensures old(s3.trace) <= s3.trace && |old(s3.trace)| <= commitAt <= |s3.trace|
      ensures KeptSince(y, contents, b0, s3.trace[..commitAt], n0)
      ensures forall i :: commitAt <= i < |s3.trace| ==> Published(y, contents, b0, files, finish, s3.trace[i])
      ensures commitAt == |s3.trace| ==> SameTable(y, contents, b0, s3.objects)
      ensures commitAt < |s3.trace| ==> Published(y, contents, b0, files, finish, s3.objects)
      ensures ok ==> commitAt < |s3.trace| && NothingStaged(y, s3.objects)
    {
      hide Sound, View, Pending, Foreign, Publish, KeptSince, NothingStaged, Published, Owned, Under, ValidPrefix, StagedPaths;
      ghost var staged, t := s3.objects, s3.trace;
      ok := WriteFinish(y, p, finish);
      commitAt := |t|;
      if FinishKey(p) !in s3.objects {
        KeptAppend(y, contents, b0, t, s3.trace, n0);
        commitAt := |s3.trace|;
        assert s3.trace[..commitAt] == s3.trace;
        return;
      }
      ghost var b3, t3 := s3.objects, s3.trace;
      assert s3.trace[..commitAt] == t;
      PublishesFromSame(y, contents, b0, staged, p, finish, b3);
      if !ok { return; }
      FinishUnder(y, p, staged, finish);
      ok := FinalizeStaging(y, p, finish);
      assert s3.trace[..commitAt] == t;
      PublishedSince(y, contents, b0, b3, files, finish, s3.trace, |t3|);
      PublishedStays(y, contents, b0, b3, files, finish, s3.objects);
      if ok { OnlyPrefixLeft(y, p, b3, s3.objects); }
    }

    /** `uploadPqFiles` into an empty staging area. */
    method StageFiles(ghost y: Layout, p: string, files: map<Path, seq<Row>>, ghost b0: Bucket, ghost n0: nat) returns (ok: bool)
      requires ValidPrefix(y, p) && SameTable(y, contents, b0, s3.objects) && NothingStaged(y, s3.objects)
      requires n0 <= |s3.trace| && KeptSince(y, contents, b0, s3.trace, n0)
      requires forall r :: r in files ==> r != "" && r != FINISH && files[r] == contents(r)
      modifies s3
      ensures old(s3.trace) <= s3.trace && KeptSince(y, contents, b0, s3.trace, n0)
      ensures SameTable(y, contents, b0, s3.objects)
      ensures ok ==> StagedPaths(s3.objects, p) == files.Keys && FinishKey(p) !in s3.objects
      ensures ok ==> RawMeta(s3.objects) == View(y, b0).meta
      ensures ok ==> StagedOnlyUnder(y, p, s3.objects)
    {
      ghost var b1, t1 := s3.objects, s3.trace;
      hide Coherent, NamedIsVisible, FinishesDistinct, View, Pending, Foreign, KeptSince, NothingStaged, Uploading, ValidPrefix, Sound, StagedPaths, Owned, FinishKey;
      StagingFree(y, p, b1);
      RestingNames(y, contents, b0, b1);
      ok := UploadFiles(p, files, b1);
      UploadKept(y, contents, p, files.Keys, b1, s3.trace, |t1|);
      UploadingSound(y, contents, p, files.Keys, b1, s3.objects);
      UploadedKeys(y, p, contents, files.Keys, b1, s3.objects);
      KeptTransitive(y, contents, b0, b1, t1, s3.trace, n0);
      if ok { UploadedPaths(y, p, contents, files.Keys, b1, s3.objects); }
    }

    /** `writeFinish`: the commit point. */
    method WriteFinish(ghost y: Layout, p: string, finish: Object) returns (ok: bool)
      requires ValidPrefix(y, p) && Sound(y, contents, s3.objects) && FinishKey(p) !in s3.objects
      requires StagedOnlyUnder(y, p, s3.objects)
      requires if y.PerChunk? then finish.BackfillFinish? else finish.StreamFinish?
      requires y.PerChunk? && Names(OrEmpty(RawMeta(s3.objects)), finish) ==> StagedPaths(s3.objects, p) == {}
      modifies s3
      ensures s3.trace == old(s3.trace) + [s3.objects]
      ensures ok ==> FinishKey(p) in s3.objects
      ensures FinishKey(p) !in s3.objects ==> s3.objects == old(s3.objects)
      ensures FinishKey(p) in s3.objects ==>
        && s3.objects == old(s3.objects)[FinishKey(p) := finish]
        && Sound(y, contents, s3.objects) && Foreign(y, s3.objects) == Foreign(y, old(s3.objects))
        && View(y, s3.objects) == Publish(View(y, old(s3.objects)), StagedPaths(old(s3.objects), p), finish)
        && (forall e :: e in Pending(y, s3.objects) ==> e.0 == finish && e.1 in StagedPaths(old(s3.objects), p))
    {
      ghost var b := s3.objects;
      if StagedPaths(b, p) == {} { NoStagedPaths(p, b); }
      hide Sound, View, Pending, Foreign, Publish, ValidPrefix, Owned, StagedPaths, StagedData, Under;
      FinishPublishes(y, contents, p, finish, b, b[FinishKey(p) := finish]);
      ok := s3.Put(FinishKey(p), finish);
    }
  }

  lemma NoStagedPaths(p: string, b: Bucket)
    requires StagedPaths(b, p) == {}
    ensures StagedData(b, p) == {}
  {
    assert forall k :: k in b && DataUnder(k, p) ==> PathUnder(k, p) in StagedPaths(b, p);
  }

  lemma StagingFree(y: Layout, p: string, b: Bucket)
    requires ValidPrefix(y, p) && NothingStaged(y, b)
    ensures FinishKey(p) !in b && forall r :: Staging(p + r) !in b
  {
    FinishOwned(y, p);
    forall r ensures Staging(p + r) !in b { OwnerIffUnder(y, Staging(p + r), p); }
  }

  /** What the table of a published attempt shows. */
  lemma PublishedTable(y: Layout, c: Contents, b0: Bucket, files: set<Path>, finish: Object, b: Bucket)
    requires Published(y, c, b0, files, finish, b)
    ensures finish.BackfillFinish? ==> AddsThread(View(y, b0), files, finish.thread, View(y, b))
    ensures finish.StreamFinish? ==> TakesState(View(y, b0), files, finish.state, View(y, b))
  {
    hide Sound, View, Pending, Foreign, Publish, AddsThread, TakesState;
    if finish.BackfillFinish? { PublishedThread(View(y, b0), files, finish.thread); }
    if finish.StreamFinish? { PublishedState(View(y, b0), files, finish.state); }
  }

  lemma PublishedStays(y: Layout, c: Contents, b0: Bucket, b1: Bucket, files: set<Path>, finish: Object, b: Bucket)
    requires Published(y, c, b0, files, finish, b1) && SameTable(y, c, b1, b)
    ensures Published(y, c, b0, files, finish, b)
  {
    hide Sound, View, Pending, Foreign, Publish;
  }

  /** Everything staged in this layout is below `p`. */
  ghost predicate StagedOnlyUnder(y: Layout, p: string, b: Bucket) {
    forall k :: k in b && Owned(y, k) ==> Under(k, p)
  }

  lemma FinishUnder(y: Layout, p: string, b: Bucket, finish: Object)
    requires StagedOnlyUnder(y, p, b)
    ensures StagedOnlyUnder(y, p, b[FinishKey(p) := finish])
  {
  }

  lemma KeptAppend(y: Layout, c: Contents, b0: Bucket, before: seq<Bucket>, trace: seq<Bucket>, n: nat)
    requires KeptSince(y, c, b0, before, n) && |trace| == |before| + 1 && before <= trace
    requires SameTable(y, c, b0, trace[|before|])
    ensures KeptSince(y, c, b0, trace, n)
  {
    hide SameTable;
    forall i | n <= i < |trace| ensures SameTable(y, c, b0, trace[i]) {
      if i < |before| { assert trace[i] == before[i]; }
    }
  }

  lemma OnlyPrefixLeft(y: Layout, p: string, b: Bucket, b': Bucket)
    requires StagedOnlyUnder(y, p, b)
    requires OutsideKept(p, b, b') && forall k :: k in b' ==> !Under(k, p)
    ensures NothingStaged(y, b')
  {
  }

  lemma KeptNothing(y: Layout, c: Contents, b0: Bucket, trace: seq<Bucket>)
    ensures KeptSince(y, c, b0, trace, |trace|)
  {
  }
}
