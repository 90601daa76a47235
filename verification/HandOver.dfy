/** Where the two staging layouts meet: a backfill hands a clean staging area to stream writers, and what
    a backfill's recovery does to a stream attempt it finds there. */
module LayoutHandOver {
  import opened Wrappers
  import opened Listing
  import opened ObjectStore
  import opened StagingSteps
  import opened RowCounting
  import BackfillRuns
  import IncrementalRuns
  import StreamRuns

  /** With nothing staged, what one layout can start from the other can too. */
  lemma CleanForBoth(y: Layout, z: Layout, c: Contents, b: Bucket)
    requires StagingEmpty(b) && Coherent(y, c, b)
    ensures Coherent(z, c, b) && Sound(z, c, b) && View(z, b) == View(y, b)
  {
    RestingView(y, b);
    RestingView(z, b);
    assert ShownPaths(y, b) == ShownPaths(z, b);
  }

  /** A completed backfill leaves a bucket from which stream writers, incremental or not, can start: their
      table is the backfill's. */
  lemma BackfillHandsOver(cfg: BackfillRuns.Config, states: seq<BackfillRuns.Sys>, steps: seq<BackfillRuns.Step>, i: nat)
    requires BackfillRuns.Run(cfg, states, steps) && i < |states| && states[i].left == {}
    ensures StagingEmpty(states[i].bucket) && Coherent(Shared, cfg.contents, states[i].bucket)
    ensures StreamRuns.Init(cfg.contents, StreamRuns.Sys(states[i].bucket, None, [], View(Shared, states[i].bucket).paths))
    ensures View(Shared, states[i].bucket).paths == VisiblePaths(states[i].bucket)
  {
    hide BackfillRuns.Run;
    BackfillRuns.RunInv(cfg, states, steps, i);
    BackfillRuns.ExactlyOnce(cfg, states[i]);
    assert Coherent(PerChunk, cfg.contents, states[i].bucket) by {
      hide BackfillRuns.DoneInv, BackfillRuns.LockInv, BackfillRuns.HeldInv, BackfillRuns.StagedInv, BackfillRuns.NamedInv, BackfillRuns.SectionInv;
    }
    hide BackfillRuns.Inv;
    CleanForBoth(PerChunk, Shared, cfg.contents, states[i].bucket);
    RestingView(Shared, states[i].bucket);
  }

  /** The rows a backfill selects for an incremental stream whose cursor was fetched before it. */
  ghost function Backfilled(inc: IncrementalRuns.Config, source: set<Row>, cursor: IncrementalRuns.Cursor): set<Row> {
    set r | r in source && inc.keep(r) && IncrementalRuns.Threshold(inc, r, cursor)
  }

  ghost function SelectedByNeither(inc: IncrementalRuns.Config, source: set<Row>, cursor: IncrementalRuns.Cursor): set<Row> {
    set r | r in source && inc.keep(r) && !IncrementalRuns.Threshold(inc, r, cursor) && !IncrementalRuns.Past(inc, r, cursor)
  }

  /** The state in which the first incremental sync starts: the cursor fetched before the backfill is saved,
      and what the cursor has passed and the backfill has not read counts as late. */
  ghost function AfterBackfill(inc: IncrementalRuns.Config, b: Bucket, seen: set<Row>, source: set<Row>, cursor: IncrementalRuns.Cursor): IncrementalRuns.Sys {
    var delivered := Backfilled(inc, seen, cursor);
    IncrementalRuns.Sys(b, cursor, source, IncrementalRuns.Idle, b, cursor, delivered,
                        IncrementalRuns.UpTo(inc, source, cursor) - delivered, multiset{}, OlderFiles(VisiblePaths(b)))
  }

  /** A backfill of the rows `seen` that its filter selects, into an empty table, hands over to the incremental
      machine. If no rows came since, the late ones are exactly those neither filter selects. */
  lemma BackfillStartsIncremental(cfg: BackfillRuns.Config, states: seq<BackfillRuns.Sys>, steps: seq<BackfillRuns.Step>, i: nat,
                                  inc: IncrementalRuns.Config, seen: set<Row>, source: set<Row>, cursor: IncrementalRuns.Cursor)
    requires BackfillRuns.Run(cfg, states, steps) && i < |states| && states[i].left == {} && inc.contents == cfg.contents
    requires cfg.base == {} && seen <= source && BackfillRuns.SourceRows(cfg, cfg.chunks - cfg.named) == multiset(Backfilled(inc, seen, cursor))
    requires IncrementalRuns.Unused(inc, RawMeta(states[i].bucket), cursor)
    ensures IncrementalRuns.Init(inc, AfterBackfill(inc, states[i].bucket, seen, source, cursor))
    ensures seen == source ==> AfterBackfill(inc, states[i].bucket, seen, source, cursor).late == SelectedByNeither(inc, source, cursor)
  {
    hide BackfillRuns.Run, RowsIn, VisiblePaths, IncrementalRuns.Unused, BackfillRuns.SourceRows, Coherent, IncrementalRuns.DeliveredInv, Backfilled, SelectedByNeither;
    BackfilledRows(cfg, states, steps, i);
    BackfillHandsOver(cfg, states, steps, i);
    BackfilledIsUpTo(inc, states[i].bucket, seen, source, cursor);
  }

  lemma BackfilledIsUpTo(inc: IncrementalRuns.Config, b: Bucket, seen: set<Row>, source: set<Row>, cursor: IncrementalRuns.Cursor)
    requires seen <= source
    ensures IncrementalRuns.DeliveredInv(inc, AfterBackfill(inc, b, seen, source, cursor))
    ensures seen == source ==> AfterBackfill(inc, b, seen, source, cursor).late == SelectedByNeither(inc, source, cursor)
  {
    forall r ensures !(IncrementalRuns.Threshold(inc, r, cursor) && IncrementalRuns.Past(inc, r, cursor)) { IncrementalRuns.ThresholdSplits(inc, r, cursor); }
    hide IncrementalRuns.Threshold, IncrementalRuns.Past, VisiblePaths;
  }

  lemma BackfilledRows(cfg: BackfillRuns.Config, states: seq<BackfillRuns.Sys>, steps: seq<BackfillRuns.Step>, i: nat)
    requires BackfillRuns.Run(cfg, states, steps) && i < |states| && states[i].left == {} && cfg.base == {}
    ensures RowsIn(cfg.contents, VisiblePaths(states[i].bucket)) == BackfillRuns.SourceRows(cfg, cfg.chunks - cfg.named)
  {
    hide BackfillRuns.Run, BackfillRuns.Inv;
    BackfillRuns.RunInv(cfg, states, steps, i);
    BackfillRuns.ExactlyOnce(cfg, states[i]);
    NoRows(cfg.contents);
  }

  // ----- a stream attempt met by a backfill's recovery -----

  /** What `recoverBackfillStaging` leaves when no directory of the staging root holds finish.json: every
      directory is discarded, keys directly below the root are not looked at. */
  ghost function DirectoriesDiscarded(b: Bucket): Bucket {
    b - (set k | k in b && Owned(PerChunk, k))
  }

  /** That is where the contract of `Parquet.RecoverBackfillStaging` puts the bucket. */
  lemma RecoveryDiscards(c: Contents, b: Bucket)
    requires Coherent(PerChunk, c, b) && MetadataReadable(b) && forall k :: k in b ==> !IsFinish(PerChunk, k)
    ensures Sound(PerChunk, c, b) && Settled(PerChunk, c, b) == DirectoriesDiscarded(b)
  {
    var after := DirectoriesDiscarded(b);
    assert NothingStaged(PerChunk, after) && Coherent(PerChunk, c, after) && MetadataReadable(after);
    SettledAtRest(PerChunk, c, after);
    assert Foreign(PerChunk, after) == Foreign(PerChunk, b);
    assert View(PerChunk, after) == View(PerChunk, b) by { DiscardedView(b); }
  }

  lemma DiscardedView(b: Bucket)
    requires forall k :: k in b ==> !IsFinish(PerChunk, k)
    ensures View(PerChunk, DirectoriesDiscarded(b)) == View(PerChunk, b)
  {
    var after := DirectoriesDiscarded(b);
    assert FinishThreads(b) == {} && FinishThreads(after) == {};
    forall k | k in b && Shows(PerChunk, b, k) ensures k in after && k.Visible? {
      if !k.Visible? { FinishOwned(PerChunk, Owner(PerChunk, k)); }
    }
    forall k | k in b && Shows(PerChunk, b, k) ensures DataPath(PerChunk, k) in ShownPaths(PerChunk, after) { ShownPathIntro(PerChunk, after, k); }
    forall k | k in after && Shows(PerChunk, after, k) ensures DataPath(PerChunk, k) in ShownPaths(PerChunk, b) { ShownPathIntro(PerChunk, b, k); }
  }

  /** A finished stream attempt survives a backfill's recovery if and only if what it staged below
      directories (partitions) has already been promoted. */
  lemma StreamSurvivesBackfillIff(b: Bucket)
    requires FinishKey("") in b
    ensures View(Shared, DirectoriesDiscarded(b)).paths == View(Shared, b).paths <==>
              forall k :: k in b && IsStagedData(Shared, k) && HasSlash(k.rel) ==> Visible(k.rel) in b
  {
    var after := DirectoriesDiscarded(b);
    assert FinishKey("") in after by { assert FinishKey("").rel == FINISH; NoSlashInFinish(); }
    forall k | k in after && Shows(Shared, after, k) ensures DataPath(Shared, k) in ShownPaths(Shared, b) {
      ShownPathIntro(Shared, b, k);
    }
    if forall k :: k in b && IsStagedData(Shared, k) && HasSlash(k.rel) ==> Visible(k.rel) in b {
      forall k | k in b && Shows(Shared, b, k) ensures DataPath(Shared, k) in ShownPaths(Shared, after) {
        if k in after {
          ShownPathIntro(Shared, after, k);
        } else {
          ShownPathIntro(Shared, after, Visible(k.rel));
        }
      }
    } else {
      var k :| k in b && IsStagedData(Shared, k) && HasSlash(k.rel) && Visible(k.rel) !in b;
      ShownPathIntro(Shared, b, k);
      assert k.rel !in ShownPaths(Shared, after) by { OnlyThere(b, k); }
    }
  }

  lemma OnlyThere(b: Bucket, k: Key)
    requires k in b && IsStagedData(Shared, k) && HasSlash(k.rel) && Visible(k.rel) !in b
    ensures k.rel !in ShownPaths(Shared, DirectoriesDiscarded(b))
  {
    forall j | j in DirectoriesDiscarded(b) && Shows(Shared, DirectoriesDiscarded(b), j) ensures DataPath(Shared, j) != k.rel {
      assert !j.Visible? ==> DataPath(Shared, j) == j.rel;
    }
  }

  lemma NoSlashInFinish()
    ensures !HasSlash(FINISH)
  {
    assert forall i :: 0 <= i < |FINISH| ==> FINISH[i] != '/';
  }

  /** The crash that loses data: a finished stream attempt with one file in a partition directory, then a backfill. */
  lemma PartitionedAttemptExample(c: Contents, state: MetadataState)
    ensures var b: Bucket := map[FinishKey("") := StreamFinish(state), Staging("day=1/a") := DataFile(c("day=1/a"))];
            "day=1/a" in View(Shared, b).paths && "day=1/a" !in View(Shared, DirectoriesDiscarded(b)).paths
  {
    var b: Bucket := map[FinishKey("") := StreamFinish(state), Staging("day=1/a") := DataFile(c("day=1/a"))];
    var k := Staging("day=1/a");
    assert k.rel[5] == '/';
    assert HasSlash(k.rel);
    assert FINISH[0] == 'f';
    ShownPathIntro(Shared, b, k);
    OnlyThere(b, k);
  }
}
