/** Any number of stream writers that share one staging area, one after the other under the stream's
    mutex: change-stream commits, which all carry the same id, and writers of different checkpoint
    fields. Crashes may fall anywhere. */
module StreamRuns {
  import opened Wrappers
  import opened ObjectStore
  import opened StagingSteps
  import opened TwoPhaseCommit
  import opened RowCounting

  datatype Attempt = Attempt(files: set<Path>, state: MetadataState)

  /** The mutex in use: the bucket when it was taken and, inside Close, the attempt and whether it is in. */
  datatype Section = Section(start: Bucket, attempt: Option<Attempt>, published: bool)

  /** `commits` (attempts in the order of their finish markers) and `made` (file names ever used) are
      bookkeeping for the statements below. */
  datatype Sys = Sys(bucket: Bucket, lock: Option<Section>, commits: seq<Attempt>, made: set<Path>)

  datatype Step =
    | BeginSetup
    | BeginClose(attempt: Attempt)
    | Request(b: Bucket)
    | CommitPoint(b: Bucket)
    | EndSection
    | Crash

  /** The table after these commits. */
  ghost function Replay(t: Table, commits: seq<Attempt>): Table {
    if commits == [] then t
    else
      var last := commits[|commits| - 1];
      Publish(Replay(t, commits[..|commits| - 1]), last.files, StreamFinish(last.state))
  }

  ghost predicate Init(c: Contents, s: Sys) {
    Sound(Shared, c, s.bucket) && s.lock.None? && s.commits == [] && s.made == View(Shared, s.bucket).paths
  }

  ghost predicate Outcome(c: Contents, lock: Section, b: Bucket) {
    if lock.published && lock.attempt.Some?
    then Published(Shared, c, lock.start, lock.attempt.value.files, StreamFinish(lock.attempt.value.state), b)
    else SameTable(Shared, c, lock.start, b)
  }

  ghost predicate Next(c: Contents, s: Sys, step: Step, s': Sys) {
    match step
    case BeginSetup =>
      s.lock.None? && s' == s.(lock := Some(Section(s.bucket, None, false)))
    case BeginClose(a) =>
      // data file names are new
      && s.lock.None? && a.files !! s.made
      && s' == s.(lock := Some(Section(s.bucket, Some(a), false)), made := s.made + a.files)
    case Request(b) =>
      s.lock.Some? && Outcome(c, s.lock.value, b) && s' == s.(bucket := b)
    case CommitPoint(b) =>
      && s.lock.Some? && s.lock.value.attempt.Some? && !s.lock.value.published
      && Outcome(c, s.lock.value.(published := true), b)
      && s' == s.(bucket := b, lock := Some(s.lock.value.(published := true)), commits := s.commits + [s.lock.value.attempt.value])
    case EndSection =>
      s.lock.Some? && s' == s.(lock := None)
    case Crash =>
      s' == s.(lock := None)
  }

  // ----- invariant -----

  ghost predicate Stands(c: Contents, t: Table, b: Bucket, commits: seq<Attempt>) {
    Sound(Shared, c, b) && View(Shared, b) == Replay(t, commits)
  }

  ghost predicate LockInv(c: Contents, t: Table, s: Sys) {
    s.lock.Some? ==>
      var l := s.lock.value;
      if l.published
      then l.attempt.Some? && s.commits != [] && s.commits[|s.commits| - 1] == l.attempt.value && Stands(c, t, l.start, s.commits[..|s.commits| - 1])
      else Stands(c, t, l.start, s.commits)
  }

  ghost predicate Inv(c: Contents, t: Table, s: Sys) {
    Stands(c, t, s.bucket, s.commits) && LockInv(c, t, s)
  }

  lemma PublishedStands(c: Contents, t: Table, b0: Bucket, commits: seq<Attempt>, a: Attempt, b: Bucket)
    requires Stands(c, t, b0, commits) && Published(Shared, c, b0, a.files, StreamFinish(a.state), b)
    ensures Stands(c, t, b, commits + [a])
  {
    hide Sound, View, Publish;
    assert (commits + [a])[..|commits|] == commits;
  }

  lemma NextInv(c: Contents, t: Table, s: Sys, step: Step, s': Sys)
    requires Inv(c, t, s) && Next(c, s, step, s')
    ensures Inv(c, t, s')
  {
    hide Sound, View, Publish, Replay, Pending, Foreign;
    match step
    case Request(b) =>
      var l := s.lock.value;
      if l.published {
        hide Published;
        PublishedStands(c, t, l.start, s.commits[..|s.commits| - 1], l.attempt.value, b);
        assert s.commits[..|s.commits| - 1] + [l.attempt.value] == s.commits;
      }
    case CommitPoint(b) =>
      hide Published;
      PublishedStands(c, t, s.lock.value.start, s.commits, s.lock.value.attempt.value, b);
      assert s'.commits[..|s.commits|] == s.commits;
    case _ =>
  }

  ghost predicate Run(c: Contents, states: seq<Sys>, steps: seq<Step>) {
    && |states| == |steps| + 1 && Init(c, states[0])
    && forall i :: 0 <= i < |steps| ==> Next(c, states[i], steps[i], states[i + 1])
  }

  /** In every state of every run the logical table is the first one with every commit so far, in commit
      order: none lost, none twice, whatever ids they carry. */
  lemma {:induction false} CommitsInOrder(c: Contents, states: seq<Sys>, steps: seq<Step>, i: nat)
    requires Run(c, states, steps) && i < |states|
    ensures Inv(c, View(Shared, states[0].bucket), states[i])
    ensures View(Shared, states[i].bucket) == Replay(View(Shared, states[0].bucket), states[i].commits)
    decreases i
  {
    hide Next, Sound, View;
    if i > 0 {
      CommitsInOrder(c, states, steps, i - 1);
      NextInv(c, View(Shared, states[0].bucket), states[i - 1], steps[i - 1], states[i]);
    }
  }

  // ----- rows -----

  ghost function FilesOf(commits: seq<Attempt>): set<Path> {
    if commits == [] then {} else FilesOf(commits[..|commits| - 1]) + commits[|commits| - 1].files
  }

  ghost function RowsOf(c: Contents, commits: seq<Attempt>): multiset<Row> {
    if commits == [] then multiset{} else RowsOf(c, commits[..|commits| - 1]) + RowsIn(c, commits[|commits| - 1].files)
  }

  lemma {:induction false} ReplayPaths(t: Table, commits: seq<Attempt>)
    ensures Replay(t, commits).paths == t.paths + FilesOf(commits)
    decreases |commits|
  {
    if commits != [] { ReplayPaths(t, commits[..|commits| - 1]); }
  }

  /** Files of committed attempts are apart from the first table and from each other. */
  ghost predicate Apart(t: Table, commits: seq<Attempt>) {
    commits != [] ==>
      && Apart(t, commits[..|commits| - 1])
      && commits[|commits| - 1].files !! t.paths + FilesOf(commits[..|commits| - 1])
  }

  lemma {:induction false} RowsAddUp(c: Contents, t: Table, commits: seq<Attempt>)
    requires Apart(t, commits)
    ensures RowsIn(c, Replay(t, commits).paths) == RowsIn(c, t.paths) + RowsOf(c, commits)
    decreases |commits|
  {
    hide RowsIn;
    if commits != [] {
      var front, last := commits[..|commits| - 1], commits[|commits| - 1];
      RowsAddUp(c, t, front);
      ReplayPaths(t, front);
      RowsInUnion(c, Replay(t, front).paths, last.files);
    }
  }

  /** Names used so far cover the table, the commits and the attempt under way, which is apart from them. */
  ghost predicate NamesInv(t: Table, s: Sys) {
    && Apart(t, s.commits) && t.paths + FilesOf(s.commits) <= s.made
    && (s.lock.Some? && s.lock.value.attempt.Some? && !s.lock.value.published ==>
          s.lock.value.attempt.value.files <= s.made && s.lock.value.attempt.value.files !! t.paths + FilesOf(s.commits))
  }

  lemma NamesNext(c: Contents, t: Table, s: Sys, step: Step, s': Sys)
    requires NamesInv(t, s) && Next(c, s, step, s')
    ensures NamesInv(t, s')
  {
    hide Outcome, Apart, FilesOf;
    if step.CommitPoint? { OneMoreCommit(t, s.commits, s.lock.value.attempt.value); }
  }

  lemma OneMoreCommit(t: Table, commits: seq<Attempt>, a: Attempt)
    ensures FilesOf(commits + [a]) == FilesOf(commits) + a.files
    ensures Apart(t, commits + [a]) <==> Apart(t, commits) && a.files !! t.paths + FilesOf(commits)
  {
    assert (commits + [a])[..|commits|] == commits;
  }

  lemma {:induction false} RunNames(c: Contents, states: seq<Sys>, steps: seq<Step>, i: nat)
    requires Run(c, states, steps) && i < |states|
    ensures NamesInv(View(Shared, states[0].bucket), states[i])
    decreases i
  {
    hide Next, Sound, View, NamesInv;
    if i > 0 {
      RunNames(c, states, steps, i - 1);
      NamesNext(c, View(Shared, states[0].bucket), states[i - 1], steps[i - 1], states[i]);
    } else {
      StartNames(View(Shared, states[0].bucket), states[0]);
    }
  }

  lemma StartNames(t: Table, s: Sys)
    requires s.lock.None? && s.commits == [] && s.made == t.paths
    ensures NamesInv(t, s)
  {
  }

  /** In every state of every run the table holds the rows it started with plus each commit's rows once;
      with nothing staged, these are the visible rows. */
  lemma CommittedRowsOnce(c: Contents, states: seq<Sys>, steps: seq<Step>, i: nat)
    requires Run(c, states, steps) && i < |states|
    ensures RowsIn(c, View(Shared, states[i].bucket).paths)
            == RowsIn(c, View(Shared, states[0].bucket).paths) + RowsOf(c, states[i].commits)
    ensures NothingStaged(Shared, states[i].bucket) ==> View(Shared, states[i].bucket).paths == VisiblePaths(states[i].bucket)
  {
    hide Run, RowsIn, RowsOf, Inv;
    CommitsInOrder(c, states, steps, i);
    RunNames(c, states, steps, i);
    RowsAddUp(c, View(Shared, states[0].bucket), states[i].commits);
    if NothingStaged(Shared, states[i].bucket) { RestingView(Shared, states[i].bucket); }
  }

  // ----- checkpoints -----

  /** Every later commit leaves this field to its writer. */
  ghost predicate LeftAlone(commits: seq<Attempt>, n: nat, f: string) {
    forall k :: n <= k < |commits| ==> LeavesField(StreamFinish(commits[k].state), f)
  }

  /** A writer's committed checkpoint field survives every commit of the others, over any history. */
  lemma {:induction false} FieldNotLost(t: Table, commits: seq<Attempt>, n: nat, f: string)
    requires n <= |commits| && LeftAlone(commits, n, f)
    requires f in CheckpointFields(OrEmpty(Replay(t, commits[..n]).meta))
    ensures var before, after := CheckpointFields(OrEmpty(Replay(t, commits[..n]).meta)), CheckpointFields(OrEmpty(Replay(t, commits).meta));
            f in after && after[f] == before[f]
    decreases |commits|
  {
    if n == |commits| {
      assert commits[..n] == commits;
    } else {
      var front := commits[..|commits| - 1];
      assert front[..n] == commits[..n];
      assert forall k :: n <= k < |front| ==> front[k] == commits[k];
      FieldNotLost(t, front, n, f);
      FieldSurvivesIff(OrEmpty(Replay(t, front).meta), StreamFinish(commits[|commits| - 1].state), f);
    }
  }

  /** The ids of completed backfill chunks stay. */
  lemma {:induction false} ChunkIdsNotLost(t: Table, commits: seq<Attempt>)
    ensures OrEmpty(t.meta).committed <= OrEmpty(Replay(t, commits).meta).committed
    decreases |commits|
  {
    if commits != [] { ChunkIdsNotLost(t, commits[..|commits| - 1]); }
  }

  // ----- the code's sections are runs of this machine -----

  ghost function DuringClose(s: Sys, trace: seq<Bucket>, n: nat, at: nat, i: nat): Sys
    requires n <= i <= |trace| && s.lock.Some? && s.lock.value.attempt.Some?
  {
    var b := if i == n then s.bucket else trace[i - 1];
    if i <= at then s.(bucket := b)
    else s.(bucket := b, lock := Some(s.lock.value.(published := true)), commits := s.commits + [s.lock.value.attempt.value])
  }

  /** What `Parquet.Close` ensures about its trace makes each of its requests a step of the machine. */
  lemma CloseIsARun(c: Contents, s: Sys, trace: seq<Bucket>, n: nat, at: nat, i: nat)
    requires s.lock.Some? && s.lock.value.attempt.Some? && !s.lock.value.published && s.bucket == s.lock.value.start
    requires n <= at <= |trace| && KeptSince(Shared, c, s.bucket, trace[..at], n)
    requires forall j :: at <= j < |trace| ==>
               Published(Shared, c, s.bucket, s.lock.value.attempt.value.files, StreamFinish(s.lock.value.attempt.value.state), trace[j])
    requires n <= i < |trace|
    ensures Next(c, DuringClose(s, trace, n, at, i), if i == at then CommitPoint(trace[i]) else Request(trace[i]),
                 DuringClose(s, trace, n, at, i + 1))
  {
    hide Published, SameTable;
    if i < at { assert trace[..at][i] == trace[i]; }
  }
}
