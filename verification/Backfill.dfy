/** The backfill of one change-stream or incremental stream: chunk threads, retries, crashes and the chunk list in the state
    file, over the staged commit protocol. Store requests of the thread that holds the stream's
    mutex interleave with every other action; each of them either keeps the logical table or is
    the one put that publishes the thread's attempt (the contracts of `Parquet.Setup` and
    `Parquet.Close` say exactly this of every request they make). */
module BackfillRuns {
  import opened Wrappers
  import opened ObjectStore
  import opened StagingSteps
  import opened TwoPhaseCommit
  import opened RowCounting

  /** One chunk thread between store sections. `files` are the names of its data files. */
  datatype Worker =
    | Idle
    | SettingUp
    | Reading(files: set<Path>)
    | Closing(files: set<Path>, published: bool)
    | Closed

  /** The stream being backfilled: its chunks by thread id, what was in the table before, the rows the
      source holds for each chunk, and the chunks that metadata.json already names from an earlier
      backfill (a thread id depends on the chunk's bounds only). */
  datatype Config = Config(
    contents: Contents,
    chunks: set<ThreadID>,
    base: set<Path>,
    rows: ThreadID -> multiset<Row>,
    named: set<ThreadID>)

  /** The stream's mutex in use: who holds it, and the bucket and commits when it was taken. */
  datatype Section = Section(holder: ThreadID, start: Bucket, before: map<ThreadID, set<Path>>)

  /** `left` is the chunk list of the state file. `done` (the files of the attempt that committed)
      and `creator` (who made a file name; None for files older than this refresh) are bookkeeping
      for the statements below. */
  datatype Sys = Sys(
    bucket: Bucket,
    left: set<ThreadID>,
    lock: Option<Section>,
    workers: map<ThreadID, Worker>,
    done: map<ThreadID, set<Path>>,
    creator: map<Path, Option<ThreadID>>)

  ghost function AllFiles(done: map<ThreadID, set<Path>>): set<Path> {
    set t, r | t in done && r in done[t] :: r
  }

  ghost function CommittedIn(t: Table): set<ThreadID> {
    OrEmpty(t.meta).committed
  }

  datatype Step =
    | BeginSetup(t: ThreadID)
    | Request(b: Bucket)
    | CommitPoint(b: Bucket)
    | EndSetup(t: ThreadID, files: set<Path>)
    | BeginClose(t: ThreadID)
    | EndClose(t: ThreadID)
    | Fail(t: ThreadID)
    | RemoveChunk(t: ThreadID)
    | Crash

  ghost predicate Init(cfg: Config, s: Sys) {
    && Coherent(PerChunk, cfg.contents, s.bucket) && StagingEmpty(s.bucket)
    && (forall r :: Visible(r) in s.bucket <==> r in cfg.base)
    && OrEmpty(RawMeta(s.bucket)).committed * cfg.chunks == cfg.named
    && s.left == cfg.chunks && s.lock == None
    && s.done.Keys == cfg.named && (forall t :: t in cfg.named ==> s.done[t] == {})
    && s.creator.Keys == cfg.base && (forall r :: r in cfg.base ==> s.creator[r] == None)
    && s.workers.Keys == cfg.chunks && (forall t :: t in cfg.chunks ==> s.workers[t] == Idle)
  }

  ghost predicate InSection(w: Worker) {
    w.SettingUp? || w.Closing?
  }

  /** Names a thread has created for an attempt that is not yet in the table. */
  ghost function Held(w: Worker): set<Path> {
    if w.Reading? || (w.Closing? && !w.published) then w.files else {}
  }

  ghost function Lock(s: Sys, t: ThreadID): Option<Section> {
    Some(Section(t, s.bucket, s.done))
  }

  ghost predicate Holds(s: Sys, t: ThreadID) {
    s.lock.Some? && s.lock.value.holder == t
  }

  ghost function WithCommit(done: map<ThreadID, set<Path>>, t: ThreadID, files: set<Path>): map<ThreadID, set<Path>> {
    if t in done then done else done[t := files]
  }

  /** The bucket after one request of the mutex holder, as the contracts of Setup and Close promise it. */
  ghost predicate RequestOutcome(cfg: Config, s: Sys, b: Bucket) {
    && s.lock.Some? && s.lock.value.holder in s.workers
    && var t := s.lock.value.holder;
    && var w := s.workers[t];
    && if w.Closing? && w.published
       then Published(PerChunk, cfg.contents, s.lock.value.start, w.files, BackfillFinish(t), b)
       else SameTable(PerChunk, cfg.contents, s.lock.value.start, b)
  }

  ghost predicate Next(cfg: Config, s: Sys, step: Step, s': Sys) {
    match step
    case BeginSetup(t) =>
      && t in s.left && t in s.workers && s.workers[t].Idle? && s.lock.None?
      && s' == s.(lock := Lock(s, t), workers := s.workers[t := SettingUp])
    case Request(b) =>
      RequestOutcome(cfg, s, b) && s' == s.(bucket := b)
    case CommitPoint(b) =>
      && s.lock.Some? && s.lock.value.holder in s.workers
      && var t := s.lock.value.holder;
      && var w := s.workers[t];
      && w.Closing? && !w.published
      && Published(PerChunk, cfg.contents, s.lock.value.start, w.files, BackfillFinish(t), b)
      && s' == s.(bucket := b, workers := s.workers[t := Closing(w.files, true)], done := WithCommit(s.done, t, w.files))
    case EndSetup(t, files) =>
      && Holds(s, t) && t in s.workers && s.workers[t].SettingUp? && NothingStaged(PerChunk, s.bucket)
      // an attempt already named in metadata.json is not read again; otherwise the thread reads its chunk into new files
      && (if t in OrEmpty(RawMeta(s.bucket)).committed then files == {}
          else files !! s.creator.Keys && RowsIn(cfg.contents, files) == cfg.rows(t))
      && s' == s.(lock := None, workers := s.workers[t := Reading(files)],
                  creator := s.creator + (map r | r in files :: Some(t)))
    case BeginClose(t) =>
      && t in s.workers && s.workers[t].Reading? && s.lock.None?
      && s' == s.(lock := Lock(s, t), workers := s.workers[t := Closing(s.workers[t].files, false)])
    case EndClose(t) =>
      && Holds(s, t) && t in s.workers && s.workers[t].Closing? && s.workers[t].published
      && NothingStaged(PerChunk, s.bucket)
      && s' == s.(lock := None, workers := s.workers[t := Closed])
    case Fail(t) =>
      && t in s.workers
      && s' == s.(lock := if Holds(s, t) then None else s.lock, workers := s.workers[t := Idle])
    case RemoveChunk(t) =>
      && t in s.workers && s.workers[t].Closed?
      && s' == s.(left := s.left - {t}, workers := s.workers[t := Idle])
    case Crash =>
      s' == s.(lock := None, workers := map t | t in s.workers :: Idle)
  }

  // ----- invariant -----

  /** The logical table behind `b` holds exactly the committed attempts. */
  ghost predicate Tables(cfg: Config, b: Bucket, done: map<ThreadID, set<Path>>) {
    && Sound(PerChunk, cfg.contents, b) && Foreign(PerChunk, b) == map[]
    && View(PerChunk, b).paths == cfg.base + AllFiles(done)
    && CommittedIn(View(PerChunk, b)) * cfg.chunks == done.Keys
    && (forall e :: e in Pending(PerChunk, b) ==> e.0.BackfillFinish? && e.0.thread in done && e.1 in done[e.0.thread])
  }

  /** While the mutex is held, the commits so far are those at its start plus the holder's own. */
  ghost predicate SectionInv(cfg: Config, s: Sys) {
    s.lock.Some? && s.lock.value.holder in s.workers ==>
      var sec := s.lock.value;
      var w := s.workers[sec.holder];
      && Tables(cfg, sec.start, sec.before)
      && (w.Closing? && sec.holder in sec.before ==> w.files == {})
      && s.done == if w.Closing? && w.published then WithCommit(sec.before, sec.holder, w.files) else sec.before
  }

  ghost predicate TableInv(cfg: Config, s: Sys) {
    Tables(cfg, s.bucket, s.done) && SectionInv(cfg, s)
  }

  ghost predicate MadeBy(s: Sys, files: set<Path>, t: Option<ThreadID>) {
    forall r :: r in files ==> r in s.creator && s.creator[r] == t
  }

  /** What the attempt of a chunk has to bring: nothing if it is skipped as already committed. */
  ghost function Owed(cfg: Config, t: ThreadID): multiset<Row> {
    if t in cfg.named then multiset{} else cfg.rows(t)
  }

  /** Committed attempts are complete and made of their own thread's files. */
  ghost predicate DoneInv(cfg: Config, s: Sys) {
    && MadeBy(s, cfg.base, None) && s.done.Keys <= cfg.chunks
    && s.left <= cfg.chunks && cfg.chunks - s.left <= s.done.Keys
    && (forall t :: t in s.done ==> MadeBy(s, s.done[t], Some(t)) && RowsIn(cfg.contents, s.done[t]) == Owed(cfg, t))
    && (forall t :: t in cfg.named ==> t in s.done && s.done[t] == {})
  }

  /** The mutex, and which threads may be running. */
  ghost predicate LockInv(cfg: Config, s: Sys) {
    && s.workers.Keys == cfg.chunks
    && (forall t :: t in s.workers && !s.workers[t].Idle? ==> t in s.left)
    && (forall t :: t in s.workers ==> (InSection(s.workers[t]) <==> Holds(s, t)))
    && (s.lock.Some? ==> s.lock.value.holder in s.workers)
  }

  /** What a running thread holds: a complete attempt under its own names, or nothing if it has committed. */
  ghost predicate HeldBy(cfg: Config, s: Sys, t: ThreadID, w: Worker) {
    && MadeBy(s, Held(w), Some(t))
    && (t in s.done ==> Held(w) == {})
    && (t !in s.done && (w.Reading? || w.Closing?) ==> RowsIn(cfg.contents, w.files) == cfg.rows(t))
    && (w.Closed? || (w.Closing? && w.published) ==> t in s.done)
  }

  ghost predicate HeldInv(cfg: Config, s: Sys) {
    forall t :: t in s.workers ==> HeldBy(cfg, s, t, s.workers[t])
  }

  /** Anything left in staging belongs to a chunk that is still to be finished. */
  ghost predicate StagedInv(cfg: Config, s: Sys) {
    NothingStaged(PerChunk, s.bucket) || exists t :: t in s.left && t in s.workers && !s.workers[t].Closed?
  }

  /** The chunk has left the state file, or is about to. */
  ghost predicate Through(s: Sys, t: ThreadID) {
    t !in s.left || (t in s.workers && s.workers[t].Closed?)
  }

  /** A chunk that got through is named in metadata.json itself. */
  ghost predicate NamedInv(cfg: Config, s: Sys) {
    forall t :: t in cfg.chunks && Through(s, t) ==>
      t in NamedIn(s.bucket) && (s.lock.Some? ==> t in NamedIn(s.lock.value.start))
  }

  ghost predicate Inv(cfg: Config, s: Sys) {
    TableInv(cfg, s) && DoneInv(cfg, s) && LockInv(cfg, s) && HeldInv(cfg, s) && StagedInv(cfg, s) && NamedInv(cfg, s)
  }

  // ----- the logical table -----

  lemma AllFilesWithCommit(done: map<ThreadID, set<Path>>, t: ThreadID, files: set<Path>)
    requires t in done ==> files == {}
    ensures AllFiles(WithCommit(done, t, files)) == AllFiles(done) + files
  {
    var done' := WithCommit(done, t, files);
    forall u, r | u in done && r in done[u] ensures r in AllFiles(done') { assert u in done' && r in done'[u]; }
    if t !in done { forall r | r in files ensures r in AllFiles(done') { assert r in done'[t]; } }
  }

  /** Requests that keep the table keep its account of commits. */
  lemma TablesKept(cfg: Config, b0: Bucket, b: Bucket, done: map<ThreadID, set<Path>>)
    requires Tables(cfg, b0, done) && SameTable(PerChunk, cfg.contents, b0, b)
    ensures Tables(cfg, b, done)
  {
    hide Sound, View, Foreign, Pending, AllFiles;
  }

  /** The commit point adds one attempt to the account. */
  lemma TablesPublished(cfg: Config, b0: Bucket, b: Bucket, done: map<ThreadID, set<Path>>, t: ThreadID, files: set<Path>)
    requires Tables(cfg, b0, done) && t in cfg.chunks && (t in done ==> files == {})
    requires Published(PerChunk, cfg.contents, b0, files, BackfillFinish(t), b)
    ensures Tables(cfg, b, WithCommit(done, t, files))
  {
    hide Sound, View, Foreign, Pending, AllFiles;
    AllFilesWithCommit(done, t, files);
    var done' := WithCommit(done, t, files);
    assert CommittedIn(View(PerChunk, b)) == CommittedIn(View(PerChunk, b0)) + {t};
    assert done'.Keys == done.Keys + {t};
  }

  // ----- every step keeps the invariant -----

  lemma InitInv(cfg: Config, s: Sys)
    requires Init(cfg, s)
    ensures Inv(cfg, s)
  {
    assert NothingStaged(PerChunk, s.bucket);
    RestingView(PerChunk, s.bucket);
    assert Pending(PerChunk, s.bucket) == {} && Foreign(PerChunk, s.bucket) == map[];
    assert View(PerChunk, s.bucket).paths == cfg.base;
    assert AllFiles(s.done) == {};
    NoRows(cfg.contents);
  }

  lemma StagedPhase(cfg: Config, s: Sys, s': Sys)
    requires StagedInv(cfg, s) && s'.bucket == s.bucket
    requires forall u :: u in s.left && u in s.workers && !s.workers[u].Closed? ==> u in s'.left && u in s'.workers && !s'.workers[u].Closed?
    ensures StagedInv(cfg, s')
  {
    hide NothingStaged;
    if !NothingStaged(PerChunk, s.bucket) {
      var u :| u in s.left && u in s.workers && !s.workers[u].Closed?;
      assert u in s'.left && u in s'.workers && !s'.workers[u].Closed?;
    }
  }

  lemma NamedPhase(cfg: Config, s: Sys, s': Sys)
    requires NamedInv(cfg, s) && s'.bucket == s.bucket
    requires forall t :: t in cfg.chunks && Through(s', t) ==> Through(s, t)
    requires s'.lock == s.lock || s'.lock.None? || s'.lock.value.start == s.bucket
    ensures NamedInv(cfg, s')
  {
  }

  lemma NamedRequest(cfg: Config, s: Sys, s': Sys)
    requires NamedInv(cfg, s) && s.lock.Some? && s'.lock == s.lock && NamedIn(s.lock.value.start) <= NamedIn(s'.bucket)
    requires forall t :: t in cfg.chunks && Through(s', t) ==> Through(s, t)
    ensures NamedInv(cfg, s')
  {
  }

  lemma NamedClose(cfg: Config, s: Sys, t: ThreadID, s': Sys)
    requires NamedInv(cfg, s) && s'.bucket == s.bucket && s'.lock.None? && t in NamedIn(s.bucket)
    requires s'.left == s.left && s'.workers == s.workers[t := Closed]
    ensures NamedInv(cfg, s')
  {
  }

  lemma StagedWhileHeld(cfg: Config, s: Sys)
    requires LockInv(cfg, s) && s.lock.Some?
    ensures StagedInv(cfg, s) && s.lock.value.holder in cfg.chunks
  {
    var t := s.lock.value.holder;
    assert t in s.left && t in s.workers && !s.workers[t].Closed?;
  }

  lemma StagedAtRest(cfg: Config, s: Sys)
    requires NothingStaged(PerChunk, s.bucket)
    ensures StagedInv(cfg, s)
  {
  }

  lemma TableWithoutLock(cfg: Config, s: Sys, s': Sys)
    requires TableInv(cfg, s) && s'.bucket == s.bucket && s'.done == s.done && s'.lock.None?
    ensures TableInv(cfg, s')
  {
    hide Tables;
  }

  /** One thread changes phase; the others hold what they held. */
  lemma PhaseHeld(cfg: Config, s: Sys, t: ThreadID, w: Worker, s': Sys)
    requires HeldInv(cfg, s) && t in s.workers && s'.workers == s.workers[t := w] && s'.done == s.done && s'.creator == s.creator
    requires w.Idle? || w.SettingUp? || (w.Closed? && t in s.done)
      || (s.workers[t].Reading? && w == Closing(s.workers[t].files, false))
    ensures HeldInv(cfg, s')
  {
    hide RowsIn;
    assert HeldBy(cfg, s, t, s.workers[t]);
  }

  lemma PhaseLock(cfg: Config, s: Sys, t: ThreadID, w: Worker, s': Sys)
    requires LockInv(cfg, s) && t in s.workers && s'.workers == s.workers[t := w]
    requires if InSection(w) then s.lock.None? && Holds(s', t) && t in s.left && s'.left == s.left
             else s'.lock == (if Holds(s, t) then None else s.lock)
    requires !w.Idle? ==> t in s.left
    requires s'.left == s.left || (s'.left == s.left - {t} && w.Idle?)
    ensures LockInv(cfg, s')
  {
  }

  lemma BeginSectionInv(cfg: Config, s: Sys, t: ThreadID, w: Worker, s': Sys)
    requires Inv(cfg, s) && t in s.left && t in s.workers && s.lock.None?
    requires (s.workers[t].Idle? && w == SettingUp) || (s.workers[t].Reading? && w == Closing(s.workers[t].files, false))
    requires s' == s.(lock := Lock(s, t), workers := s.workers[t := w])
    ensures Inv(cfg, s')
  {
    hide NamedInv, Tables, HeldInv, LockInv, StagedInv, RowsIn;
    PhaseHeld(cfg, s, t, w, s');
    PhaseLock(cfg, s, t, w, s');
    StagedWhileHeld(cfg, s');
    NamedPhase(cfg, s, s');
    CommittedHoldNothing(cfg, s, t);
  }

  lemma CommittedHoldNothing(cfg: Config, s: Sys, t: ThreadID)
    requires HeldInv(cfg, s) && t in s.workers
    ensures t in s.done ==> Held(s.workers[t]) == {}
  {
    assert HeldBy(cfg, s, t, s.workers[t]);
  }

  lemma RequestInv(cfg: Config, s: Sys, b: Bucket, s': Sys)
    requires Inv(cfg, s) && RequestOutcome(cfg, s, b) && s' == s.(bucket := b)
    ensures Inv(cfg, s')
  {
    hide NamedInv, Tables, HeldInv, LockInv, StagedInv, SameTable, Published, RowsIn;
    var sec := s.lock.value;
    var w := s.workers[sec.holder];
    assert LockInv(cfg, s') by { LockOfBucket(cfg, s, s'); }
    assert HeldInv(cfg, s') by { HeldOfBucket(cfg, s, s'); }
    StagedWhileHeld(cfg, s');
    assert NamedIn(sec.start) <= NamedIn(b) by { NamedByRequest(cfg, s, b); }
    NamedRequest(cfg, s, s');
    if w.Closing? && w.published {
      TablesPublished(cfg, sec.start, b, sec.before, sec.holder, w.files);
    } else {
      TablesKept(cfg, sec.start, b, sec.before);
    }
  }

  lemma NamedByRequest(cfg: Config, s: Sys, b: Bucket)
    requires RequestOutcome(cfg, s, b)
    ensures NamedIn(s.lock.value.start) <= NamedIn(b)
  {
    hide Sound, View, Foreign, Pending, Publish;
  }

  lemma LockOfBucket(cfg: Config, s: Sys, s': Sys)
    requires LockInv(cfg, s) && s'.workers == s.workers && s'.left == s.left && s'.lock == s.lock
    ensures LockInv(cfg, s')
  {
  }

  lemma HeldOfBucket(cfg: Config, s: Sys, s': Sys)
    requires HeldInv(cfg, s) && s'.workers == s.workers && s'.done == s.done && s'.creator == s.creator
    ensures HeldInv(cfg, s')
  {
    hide RowsIn;
    forall t | t in s'.workers ensures HeldBy(cfg, s', t, s'.workers[t]) { assert HeldBy(cfg, s, t, s.workers[t]); }
  }

  lemma CommitPointInv(cfg: Config, s: Sys, b: Bucket, s': Sys)
    requires Inv(cfg, s) && Next(cfg, s, CommitPoint(b), s')
    ensures Inv(cfg, s')
  {
    hide NamedInv, Tables, HeldInv, LockInv, StagedInv, DoneInv, Published, RowsIn;
    var sec := s.lock.value;
    var t, w := sec.holder, s.workers[sec.holder];
    CommitLock(cfg, s, t, s');
    StagedWhileHeld(cfg, s');
    assert NamedIn(sec.start) <= NamedIn(b) by { NamedByPublish(cfg, sec.start, b, t, w.files); }
    NamedRequest(cfg, s, s');
    CommitDone(cfg, s, t, s');
    CommitHeld(cfg, s, t, s');
    TablesPublished(cfg, sec.start, b, sec.before, t, w.files);
  }

  lemma NamedByPublish(cfg: Config, b0: Bucket, b: Bucket, t: ThreadID, files: set<Path>)
    requires Published(PerChunk, cfg.contents, b0, files, BackfillFinish(t), b)
    ensures NamedIn(b0) <= NamedIn(b)
  {
    hide Sound, View, Foreign, Pending, Publish;
  }

  lemma CommitLock(cfg: Config, s: Sys, t: ThreadID, s': Sys)
    requires LockInv(cfg, s) && t in s.workers && s.workers[t].Closing?
    requires s'.workers == s.workers[t := Closing(s.workers[t].files, true)] && s'.left == s.left && s'.lock == s.lock
    ensures LockInv(cfg, s')
  {
  }

  lemma CommitDone(cfg: Config, s: Sys, t: ThreadID, s': Sys)
    requires DoneInv(cfg, s) && HeldInv(cfg, s) && t in s.workers && t in cfg.chunks
    requires s.workers[t].Closing? && !s.workers[t].published
    requires s'.done == WithCommit(s.done, t, s.workers[t].files) && s'.left == s.left && s'.creator == s.creator
    ensures DoneInv(cfg, s')
  {
    hide RowsIn;
    assert HeldBy(cfg, s, t, s.workers[t]);
    forall u | u in s'.done ensures MadeBy(s', s'.done[u], Some(u)) && RowsIn(cfg.contents, s'.done[u]) == Owed(cfg, u) { }
  }

  lemma CommitHeld(cfg: Config, s: Sys, t: ThreadID, s': Sys)
    requires HeldInv(cfg, s) && t in s.workers && s.workers[t].Closing? && !s.workers[t].published
    requires s'.done == WithCommit(s.done, t, s.workers[t].files) && s'.creator == s.creator
    requires s'.workers == s.workers[t := Closing(s.workers[t].files, true)]
    ensures HeldInv(cfg, s')
  {
    hide RowsIn;
    forall u | u in s'.workers ensures HeldBy(cfg, s', u, s'.workers[u]) { assert HeldBy(cfg, s, u, s.workers[u]); }
  }

  lemma EndSetupInv(cfg: Config, s: Sys, t: ThreadID, files: set<Path>, s': Sys)
    requires Inv(cfg, s) && Next(cfg, s, EndSetup(t, files), s')
    ensures Inv(cfg, s')
  {
    hide NamedInv, TableInv, DoneInv, LockInv, StagedInv, HeldInv, RowsIn, NothingStaged;
    NamedIffDone(cfg, s, t);
    NewAttempt(cfg, s, t, files, s');
    PhaseLock(cfg, s, t, Reading(files), s');
    TableWithoutLock(cfg, s, s');
    NamedPhase(cfg, s, s');
    StagedAtRest(cfg, s');
  }

  /** With nothing staged, metadata.json names a chunk thread exactly when it has committed. */
  lemma NamedIffDone(cfg: Config, s: Sys, t: ThreadID)
    requires TableInv(cfg, s) && LockInv(cfg, s) && NothingStaged(PerChunk, s.bucket) && t in s.workers
    ensures t in s.done <==> t in OrEmpty(RawMeta(s.bucket)).committed
    ensures Holds(s, t) ==> t in s.left
  {
    RestingView(PerChunk, s.bucket);
    assert t in CommittedIn(View(PerChunk, s.bucket)) * cfg.chunks <==> t in s.done;
  }

  lemma NewAttempt(cfg: Config, s: Sys, t: ThreadID, files: set<Path>, s': Sys)
    requires HeldInv(cfg, s) && DoneInv(cfg, s) && t in s.workers && s'.workers == s.workers[t := Reading(files)]
    requires s'.done == s.done && s'.left == s.left && s'.creator == s.creator + (map r | r in files :: Some(t))
    requires files !! s.creator.Keys || files == {}
    requires if t in s.done then files == {} else RowsIn(cfg.contents, files) == cfg.rows(t)
    ensures HeldInv(cfg, s') && DoneInv(cfg, s')
  {
    hide RowsIn, MadeBy;
    MadeByGrows(s, s', t, files);
    forall u | u in s'.workers ensures HeldBy(cfg, s', u, s'.workers[u]) { assert HeldBy(cfg, s, u, s.workers[u]); }
  }

  lemma MadeByGrows(s: Sys, s': Sys, t: ThreadID, files: set<Path>)
    requires s'.creator == s.creator + (map r | r in files :: Some(t))
    requires files !! s.creator.Keys || files == {}
    ensures MadeBy(s', files, Some(t))
    ensures forall made, u :: MadeBy(s, made, u) ==> MadeBy(s', made, u)
  {
    assert forall r :: r in s.creator ==> r in s'.creator && s'.creator[r] == s.creator[r];
  }

  lemma EndCloseInv(cfg: Config, s: Sys, t: ThreadID, s': Sys)
    requires Inv(cfg, s) && Next(cfg, s, EndClose(t), s')
    ensures Inv(cfg, s')
  {
    hide NamedInv, TableInv, LockInv, StagedInv, HeldInv, NothingStaged, RowsIn;
    ClosedIsDone(cfg, s, t);
    PhaseHeld(cfg, s, t, Closed, s');
    RunningIsLeft(cfg, s, t);
    PhaseLock(cfg, s, t, Closed, s');
    TableWithoutLock(cfg, s, s');
    NamedIffDone(cfg, s, t);
    NamedClose(cfg, s, t, s');
    StagedAtRest(cfg, s');
  }

  lemma ClosedIsDone(cfg: Config, s: Sys, t: ThreadID)
    requires HeldInv(cfg, s) && t in s.workers
    requires s.workers[t].Closed? || (s.workers[t].Closing? && s.workers[t].published)
    ensures t in s.done
  {
    assert HeldBy(cfg, s, t, s.workers[t]);
  }

  lemma FailInv(cfg: Config, s: Sys, t: ThreadID, s': Sys)
    requires Inv(cfg, s) && Next(cfg, s, Fail(t), s')
    ensures Inv(cfg, s')
  {
    hide NamedInv, LockInv, StagedInv, HeldInv, NothingStaged, RowsIn, Tables;
    PhaseHeld(cfg, s, t, Idle, s');
    PhaseLock(cfg, s, t, Idle, s');
    StagedPhase(cfg, s, s');
    NamedPhase(cfg, s, s');
  }

  lemma RemoveChunkInv(cfg: Config, s: Sys, t: ThreadID, s': Sys)
    requires Inv(cfg, s) && Next(cfg, s, RemoveChunk(t), s')
    ensures Inv(cfg, s')
  {
    hide NamedInv, LockInv, StagedInv, HeldInv, NothingStaged, RowsIn, Tables;
    ClosedIsDone(cfg, s, t);
    ClosedHoldsNoLock(cfg, s, t);
    PhaseHeld(cfg, s, t, Idle, s');
    PhaseLock(cfg, s, t, Idle, s');
    StagedPhase(cfg, s, s');
    NamedPhase(cfg, s, s');
  }

  lemma ClosedHoldsNoLock(cfg: Config, s: Sys, t: ThreadID)
    requires LockInv(cfg, s) && t in s.workers && !InSection(s.workers[t])
    ensures !Holds(s, t)
  {
  }

  lemma CrashInv(cfg: Config, s: Sys, s': Sys)
    requires Inv(cfg, s) && Next(cfg, s, Crash, s')
    ensures Inv(cfg, s')
  {
    hide NamedInv, LockInv, StagedInv, HeldInv, NothingStaged, RowsIn, TableInv;
    IdleAfterCrash(cfg, s, s');
    TableWithoutLock(cfg, s, s');
    StagedPhase(cfg, s, s');
    NamedPhase(cfg, s, s');
  }

  lemma IdleAfterCrash(cfg: Config, s: Sys, s': Sys)
    requires LockInv(cfg, s) && s' == s.(lock := None, workers := map t | t in s.workers :: Idle)
    ensures LockInv(cfg, s') && HeldInv(cfg, s')
  {
  }

  lemma NextInv(cfg: Config, s: Sys, step: Step, s': Sys)
    requires Inv(cfg, s) && Next(cfg, s, step, s')
    ensures Inv(cfg, s')
  {
    hide NamedInv, TableInv, LockInv, StagedInv, HeldInv, DoneInv, NothingStaged, RowsIn;
    match step
    case BeginSetup(t) => BeginSectionInv(cfg, s, t, SettingUp, s');
    case Request(b) => RequestInv(cfg, s, b, s');
    case CommitPoint(b) => CommitPointInv(cfg, s, b, s');
    case EndSetup(t, files) => EndSetupInv(cfg, s, t, files, s');
    case BeginClose(t) => RunningIsLeft(cfg, s, t); BeginSectionInv(cfg, s, t, Closing(s.workers[t].files, false), s');
    case EndClose(t) => EndCloseInv(cfg, s, t, s');
    case Fail(t) => FailInv(cfg, s, t, s');
    case RemoveChunk(t) => RemoveChunkInv(cfg, s, t, s');
    case Crash => CrashInv(cfg, s, s');
  }

  lemma RunningIsLeft(cfg: Config, s: Sys, t: ThreadID)
    requires LockInv(cfg, s) && t in s.workers && !s.workers[t].Idle?
    ensures t in s.left
  {
  }

  // ----- runs -----

  ghost predicate Run(cfg: Config, states: seq<Sys>, steps: seq<Step>) {
    && |states| == |steps| + 1 && Init(cfg, states[0])
    && forall i :: 0 <= i < |steps| ==> Next(cfg, states[i], steps[i], states[i + 1])
  }

  /** Every state of every run satisfies the invariant. */
  lemma {:induction false} RunInv(cfg: Config, states: seq<Sys>, steps: seq<Step>, i: nat)
    requires Run(cfg, states, steps) && i < |states|
    ensures Inv(cfg, states[i])
    decreases i
  {
    hide Inv, Next, Init;
    if i == 0 {
      InitInv(cfg, states[0]);
    } else {
      RunInv(cfg, states, steps, i - 1);
      NextInv(cfg, states[i - 1], steps[i - 1], states[i]);
    }
  }

  // ----- what the invariant means for the bucket itself -----

  /** A visible object is older than this refresh or belongs to a committed attempt. */
  lemma VisibleIsCommitted(cfg: Config, s: Sys, r: Path)
    requires Inv(cfg, s) && Visible(r) in s.bucket
    ensures r in cfg.base || exists t :: t in s.done && r in s.done[t]
  {
    hide Sound, Foreign, Pending, DoneInv, LockInv, HeldInv, StagedInv, NamedInv, SectionInv;
    ShownPathIntro(PerChunk, s.bucket, Visible(r));
    assert r in cfg.base + AllFiles(s.done);
  }

  /** Once metadata.json names a thread, every file of its committed attempt is visible. */
  lemma NamedIsComplete(cfg: Config, s: Sys, t: ThreadID, r: Path)
    requires Inv(cfg, s) && t in s.done && t in NamedIn(s.bucket) && r in s.done[t]
    ensures Visible(r) in s.bucket && s.bucket[Visible(r)] == DataFile(cfg.contents(r))
  {
    hide LockInv, HeldInv, StagedInv, NamedInv, SectionInv, RowsIn;
    var b := s.bucket;
    assert r in AllFiles(s.done);
    assert r in ShownPaths(PerChunk, b);
    var k :| k in b && Shows(PerChunk, b, k) && DataPath(PerChunk, k) == r;
    if !k.Visible? {
      StagedIsUnnamed(cfg, s, k);
    }
  }

  /** Data still waiting for promotion belongs to a committed thread that metadata.json does not name yet. */
  lemma StagedIsUnnamed(cfg: Config, s: Sys, k: Key)
    requires Tables(cfg, s.bucket, s.done) && DoneInv(cfg, s)
    requires k in s.bucket && IsStagedData(PerChunk, k) && FinishKey(Owner(PerChunk, k)) in s.bucket
    ensures var f := s.bucket[FinishKey(Owner(PerChunk, k))];
      f.BackfillFinish? && f.thread in s.done && DataPath(PerChunk, k) in s.done[f.thread] && f.thread !in NamedIn(s.bucket)
  {
    hide RowsIn, View, Foreign, Coherent, FinishesDistinct;
    var p := Owner(PerChunk, k);
    var f := s.bucket[FinishKey(p)];
    assert (f, DataPath(PerChunk, k)) in Pending(PerChunk, s.bucket);
    FinishOwned(PerChunk, p);
    assert k in StagedData(s.bucket, p);
  }

  /** A file belongs to at most one committed thread. */
  lemma FilesOfOneThread(cfg: Config, s: Sys, t: ThreadID, u: ThreadID)
    requires DoneInv(cfg, s) && t in s.done && u in s.done && t != u
    ensures s.done[t] !! s.done[u]
  {
    hide RowsIn;
    assert MadeBy(s, s.done[t], Some(t)) && MadeBy(s, s.done[u], Some(u));
  }

  /** A chunk removed from the state file is committed: named in metadata.json, and wholly visible. */
  lemma RemovedIsCommitted(cfg: Config, s: Sys, t: ThreadID)
    requires Inv(cfg, s) && t in cfg.chunks && t !in s.left
    ensures t in s.done && t in NamedIn(s.bucket) && RowsIn(cfg.contents, s.done[t]) == Owed(cfg, t)
    ensures forall r :: r in s.done[t] ==> Visible(r) in s.bucket
  {
    assert t in s.done && RowsIn(cfg.contents, s.done[t]) == Owed(cfg, t) && t in NamedIn(s.bucket) by {
      hide TableInv, LockInv, HeldInv, StagedInv, RowsIn;
    }
    hide TableInv, DoneInv, LockInv, HeldInv, StagedInv, NamedInv, RowsIn;
    forall r | r in s.done[t] ensures Visible(r) in s.bucket { NamedIsComplete(cfg, s, t, r); }
  }

  /** In every state of every run: visible data is old or committed, and a chunk gone from the state
      file is named in metadata.json with all of its attempt's files visible. */
  lemma RunIsSafe(cfg: Config, states: seq<Sys>, steps: seq<Step>, i: nat, r: Path, t: ThreadID)
    requires Run(cfg, states, steps) && i < |states|
    ensures var s := states[i];
            && (Visible(r) in s.bucket ==> r in cfg.base || exists u :: u in s.done && r in s.done[u])
            && (t in cfg.chunks && t !in s.left ==>
                 t in s.done && t in NamedIn(s.bucket) && forall q :: q in s.done[t] ==> Visible(q) in s.bucket)
  {
    hide Inv, Run, NamedIn;
    RunInv(cfg, states, steps, i);
    if Visible(r) in states[i].bucket { VisibleIsCommitted(cfg, states[i], r); }
    if t in cfg.chunks && t !in states[i].left { RemovedIsCommitted(cfg, states[i], t); }
  }

  // ----- counting rows -----

  /** All rows the source holds for these chunks. */
  ghost function SourceRows(cfg: Config, chunks: set<ThreadID>): multiset<Row> {
    if chunks == {} then multiset{}
    else var t :| t in chunks; cfg.rows(t) + SourceRows(cfg, chunks - {t})
  }

  ghost function FilesOf(done: map<ThreadID, set<Path>>, chunks: set<ThreadID>): set<Path>
    requires chunks <= done.Keys
  {
    set t, r | t in chunks && r in done[t] :: r
  }

  lemma {:induction false} CommittedRows(cfg: Config, s: Sys, chunks: set<ThreadID>)
    requires DoneInv(cfg, s) && chunks <= s.done.Keys && chunks !! cfg.named
    ensures RowsIn(cfg.contents, FilesOf(s.done, chunks)) == SourceRows(cfg, chunks)
    decreases |chunks|
  {
    hide RowsIn;
    if chunks == {} {
      assert FilesOf(s.done, chunks) == {};
      assert RowsIn(cfg.contents, {}) == multiset{} by { NoRows(cfg.contents); }
    } else {
      var t :| t in chunks && SourceRows(cfg, chunks) == cfg.rows(t) + SourceRows(cfg, chunks - {t});
      var rest := FilesOf(s.done, chunks - {t});
      CommittedRows(cfg, s, chunks - {t});
      assert FilesOf(s.done, chunks) == rest + s.done[t];
      assert rest !! s.done[t] by {
        forall u | u in chunks && u != t ensures s.done[u] !! s.done[t] { FilesOfOneThread(cfg, s, u, t); }
      }
      RowsInUnion(cfg.contents, rest, s.done[t]);
    }
  }

  /** When the last chunk leaves the state file, whatever crashes, retries and interleavings came before,
      staging is empty and the visible table holds the rows it had before plus, once each, the rows of
      every chunk that was not already named when the backfill began. */
  lemma ExactlyOnce(cfg: Config, s: Sys)
    requires Inv(cfg, s) && s.left == {}
    ensures StagingEmpty(s.bucket)
    ensures VisiblePaths(s.bucket) == cfg.base + FilesOf(s.done, s.done.Keys) && s.done.Keys == cfg.chunks
    ensures RowsIn(cfg.contents, VisiblePaths(s.bucket)) == RowsIn(cfg.contents, cfg.base) + SourceRows(cfg, cfg.chunks - cfg.named)
  {
    assert s.done.Keys == cfg.chunks;
    var files := FilesOf(s.done, s.done.Keys);
    assert files == AllFiles(s.done);
    assert NothingStaged(PerChunk, s.bucket) && Foreign(PerChunk, s.bucket) == map[];
    assert forall k :: k in s.bucket && k.Staging? ==> k in Foreign(PerChunk, s.bucket);
    RestingView(PerChunk, s.bucket);
    assert VisiblePaths(s.bucket) == cfg.base + files;
    assert files == FilesOf(s.done, cfg.chunks - cfg.named) by { SkippedBringNothing(cfg, s); }
    CommittedRows(cfg, s, cfg.chunks - cfg.named);
    assert cfg.base !! files by { BaseIsOlder(cfg, s); }
    RowsInUnion(cfg.contents, cfg.base, files);
  }

  lemma SkippedBringNothing(cfg: Config, s: Sys)
    requires DoneInv(cfg, s) && s.done.Keys == cfg.chunks
    ensures FilesOf(s.done, s.done.Keys) == FilesOf(s.done, cfg.chunks - cfg.named)
  {
    hide RowsIn, MadeBy;
  }

  lemma {:induction false} SourceTake(cfg: Config, chunks: set<ThreadID>, t: ThreadID)
    requires t in chunks
    ensures SourceRows(cfg, chunks) == cfg.rows(t) + SourceRows(cfg, chunks - {t})
    decreases |chunks|
  {
    var u :| u in chunks && SourceRows(cfg, chunks) == cfg.rows(u) + SourceRows(cfg, chunks - {u});
    if u != t {
      SourceTake(cfg, chunks - {u}, t);
      SourceTake(cfg, chunks - {t}, u);
      assert chunks - {u} - {t} == chunks - {t} - {u};
    }
  }

  lemma {:induction false} SourceSplit(cfg: Config, chunks: set<ThreadID>, part: set<ThreadID>)
    requires part <= chunks
    ensures SourceRows(cfg, chunks) == SourceRows(cfg, chunks - part) + SourceRows(cfg, part)
    ensures SourceRows(cfg, part) == multiset{} <==> forall t :: t in part ==> cfg.rows(t) == multiset{}
    decreases |part|
  {
    if part == {} {
      assert chunks - part == chunks;
    } else {
      var t :| t in part;
      SourceTake(cfg, part, t);
      SourceTake(cfg, chunks, t);
      SourceSplit(cfg, chunks - {t}, part - {t});
      assert chunks - {t} - (part - {t}) == chunks - part;
      NothingAdds(cfg.rows(t), SourceRows(cfg, part - {t}));
    }
  }

  lemma NothingAdds(a: multiset<Row>, b: multiset<Row>)
    ensures a + b == multiset{} <==> a == multiset{} && b == multiset{}
  {
    assert |a + b| == |a| + |b|;
  }

  /** Exactly once if and only if every chunk that was already named is empty: the skip test knows a chunk
      by its bounds, not by its rows. */
  lemma ExactlyOnceIff(cfg: Config, s: Sys)
    requires Inv(cfg, s) && s.left == {} && cfg.named <= cfg.chunks
    ensures RowsIn(cfg.contents, VisiblePaths(s.bucket)) == RowsIn(cfg.contents, cfg.base) + SourceRows(cfg, cfg.chunks)
            <==> forall t :: t in cfg.named ==> cfg.rows(t) == multiset{}
  {
    hide Inv, RowsIn, VisiblePaths, SourceRows;
    ExactlyOnce(cfg, s);
    SourceSplit(cfg, cfg.chunks, cfg.named);
    var delivered, skipped := RowsIn(cfg.contents, cfg.base) + SourceRows(cfg, cfg.chunks - cfg.named), SourceRows(cfg, cfg.named);
    assert delivered + skipped == delivered <==> skipped == multiset{} by {
      assert |delivered + skipped| == |delivered| + |skipped|;
    }
  }

  /** A table without data whose metadata names the chunk, and the same with the finish marker of a new attempt. */
  ghost function NamedBefore(t: ThreadID): Bucket {
    map[Metadata := MetadataFile(MetadataState(None, None, {t}, Some(true)))]
  }

  ghost function FinishedAgain(t: ThreadID): Bucket {
    NamedBefore(t)[FinishKey("d/") := BackfillFinish(t)]
  }

  /** A second backfill of a chunk whose range has gained a row: the chunk is skipped, removed from the
      list, and the row is not there. */
  lemma RenamedChunkExample(cfg: Config, t: ThreadID, r: Row) returns (states: seq<Sys>, steps: seq<Step>)
    requires cfg.chunks == cfg.named == {t} && cfg.base == {} && cfg.rows(t) == multiset{r}
    ensures Run(cfg, states, steps) && states[0].bucket == NamedBefore(t)
    ensures steps == [BeginSetup(t), EndSetup(t, {}), BeginClose(t), CommitPoint(FinishedAgain(t)), Request(NamedBefore(t)), EndClose(t), RemoveChunk(t)]
    ensures states[7].left == {} && RowsIn(cfg.contents, VisiblePaths(states[7].bucket)) == multiset{}
  {
    var b, done := NamedBefore(t), map[t := {}];
    var s0 := Sys(b, {t}, None, map[t := Idle], done, map[]);
    var s1 := s0.(lock := Some(Section(t, b, done)), workers := map[t := SettingUp]);
    var s2 := s0.(workers := map[t := Reading({})]);
    var s3 := s1.(workers := map[t := Closing({}, false)]);
    var s4 := s1.(bucket := FinishedAgain(t), workers := map[t := Closing({}, true)]);
    var s5 := s4.(bucket := b);
    var s6 := s0.(workers := map[t := Closed]);
    states := [s0, s1, s2, s3, s4, s5, s6, s0.(left := {})];
    steps := [BeginSetup(t), EndSetup(t, {}), BeginClose(t), CommitPoint(FinishedAgain(t)), Request(b), EndClose(t), RemoveChunk(t)];
    SkippedStart(cfg, t, s0);
    SkippedPublishes(cfg.contents, t);
    SkippedSteps(cfg, t, s0);
    hide Init, Next;
    assert Run(cfg, states, steps);
    assert VisiblePaths(b) == {};
    NoRows(cfg.contents);
  }

  lemma SkippedStart(cfg: Config, t: ThreadID, s: Sys)
    requires cfg.chunks == cfg.named == {t} && cfg.base == {}
    requires s == Sys(NamedBefore(t), {t}, None, map[t := Idle], map[t := {}], map[])
    ensures Init(cfg, s)
  {
  }

  lemma SkippedPublishes(c: Contents, t: ThreadID)
    ensures Published(PerChunk, c, NamedBefore(t), {}, BackfillFinish(t), FinishedAgain(t))
    ensures Published(PerChunk, c, NamedBefore(t), {}, BackfillFinish(t), NamedBefore(t))
    ensures NothingStaged(PerChunk, NamedBefore(t))
  {
    var b, finish := NamedBefore(t), BackfillFinish(t);
    assert Sound(PerChunk, c, b) && NothingStaged(PerChunk, b) && StagedPaths(b, "d/") == {};
    assert ValidPrefix(PerChunk, "d/");
    RestingView(PerChunk, b);
    FinishPublishes(PerChunk, c, "d/", finish, b, FinishedAgain(t));
    PublishesFromSame(PerChunk, c, b, b, "d/", finish, FinishedAgain(t));
    assert Pending(PerChunk, b) == {} && View(PerChunk, b).paths + {} == View(PerChunk, b).paths;
    assert AddCommitted(RawMeta(b).value, {t}) == RawMeta(b).value;
  }

  lemma AddsNone(creator: map<Path, Option<ThreadID>>, t: ThreadID, files: set<Path>)
    requires files == {}
    ensures creator + (map r | r in files :: Some(t)) == creator
  {
  }

  lemma SkippedSteps(cfg: Config, t: ThreadID, s0: Sys)
    requires s0 == Sys(NamedBefore(t), {t}, None, map[t := Idle], map[t := {}], map[]) && NothingStaged(PerChunk, s0.bucket)
    requires Published(PerChunk, cfg.contents, NamedBefore(t), {}, BackfillFinish(t), FinishedAgain(t))
    requires Published(PerChunk, cfg.contents, NamedBefore(t), {}, BackfillFinish(t), NamedBefore(t))
    ensures var b := NamedBefore(t);
      var s1 := s0.(lock := Some(Section(t, b, s0.done)), workers := map[t := SettingUp]);
      var s2, s3 := s0.(workers := map[t := Reading({})]), s1.(workers := map[t := Closing({}, false)]);
      var s4 := s1.(bucket := FinishedAgain(t), workers := map[t := Closing({}, true)]);
      var s6 := s0.(workers := map[t := Closed]);
      && Next(cfg, s0, BeginSetup(t), s1) && Next(cfg, s1, EndSetup(t, {}), s2) && Next(cfg, s2, BeginClose(t), s3)
      && Next(cfg, s3, CommitPoint(FinishedAgain(t)), s4) && Next(cfg, s4, Request(b), s4.(bucket := b))
      && Next(cfg, s4.(bucket := b), EndClose(t), s6) && Next(cfg, s6, RemoveChunk(t), s0.(left := {}))
  {
    hide Published, NothingStaged, FinishedAgain;
    AddsNone(s0.creator, t, {});
  }

  lemma BaseIsOlder(cfg: Config, s: Sys)
    requires DoneInv(cfg, s)
    ensures cfg.base !! FilesOf(s.done, s.done.Keys)
  {
    hide RowsIn;
    forall t | t in s.done ensures s.done[t] !! cfg.base { assert MadeBy(s, s.done[t], Some(t)); }
  }

  // ----- the code's sections are runs of this machine -----

  /** The state after the first `i - n` requests of a Close that published at request `at`. */
  ghost function DuringClose(s: Sys, trace: seq<Bucket>, n: nat, at: nat, i: nat): Sys
    requires n <= i <= |trace| && s.lock.Some? && s.lock.value.holder in s.workers && s.workers[s.lock.value.holder].Closing?
  {
    var t := s.lock.value.holder;
    var files := s.workers[t].files;
    var b := if i == n then s.bucket else trace[i - 1];
    if i <= at then s.(bucket := b)
    else s.(bucket := b, workers := s.workers[t := Closing(files, true)], done := WithCommit(s.done, t, files))
  }

  /** What `Parquet.Close` ensures about its trace makes each of its requests a step of the machine. */
  lemma CloseIsARun(cfg: Config, s: Sys, trace: seq<Bucket>, n: nat, at: nat, i: nat)
    requires s.lock.Some? && s.lock.value.holder in s.workers && s.workers[s.lock.value.holder].Closing?
    requires !s.workers[s.lock.value.holder].published && s.bucket == s.lock.value.start
    requires n <= at <= |trace| && KeptSince(PerChunk, cfg.contents, s.bucket, trace[..at], n)
    requires forall j :: at <= j < |trace| ==>
      Published(PerChunk, cfg.contents, s.bucket, s.workers[s.lock.value.holder].files, BackfillFinish(s.lock.value.holder), trace[j])
    requires n <= i < |trace|
    ensures Next(cfg, DuringClose(s, trace, n, at, i), if i == at then CommitPoint(trace[i]) else Request(trace[i]),
                 DuringClose(s, trace, n, at, i + 1))
  {
    hide Published, SameTable;
    if i < at { assert trace[..at][i] == trace[i]; }
  }

  /** Likewise for `Parquet.Setup`, which never publishes. */
  lemma SetupIsARun(cfg: Config, s: Sys, trace: seq<Bucket>, n: nat, i: nat)
    requires s.lock.Some? && s.lock.value.holder in s.workers && s.workers[s.lock.value.holder].SettingUp?
    requires s.bucket == s.lock.value.start && KeptSince(PerChunk, cfg.contents, s.bucket, trace, n)
    requires n <= i < |trace|
    ensures Next(cfg, s.(bucket := if i == n then s.bucket else trace[i - 1]), Request(trace[i]), s.(bucket := trace[i]))
  {
    hide SameTable;
  }

  /** Whenever a thread enters Close, what `Parquet.Close` asks of its caller holds. */
  lemma CloseIsCallable(cfg: Config, s: Sys, t: ThreadID)
    requires Inv(cfg, s) && t in s.workers && s.workers[t].Reading?
    ensures Sound(PerChunk, cfg.contents, s.bucket)
    ensures t in OrEmpty(View(PerChunk, s.bucket).meta).committed ==> s.workers[t].files == {}
  {
    assert t in cfg.chunks by { hide TableInv, DoneInv, HeldInv, StagedInv, NamedInv; }
    assert t in s.done <==> t in CommittedIn(View(PerChunk, s.bucket)) by {
      hide DoneInv, HeldInv, StagedInv, NamedInv, Sound, View, Pending, Foreign;
      assert t in CommittedIn(View(PerChunk, s.bucket)) * cfg.chunks <==> t in s.done;
    }
    hide TableInv, DoneInv, LockInv, StagedInv, NamedInv, View;
    CommittedHoldNothing(cfg, s, t);
  }
}
