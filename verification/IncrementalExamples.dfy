/** Histories of the incremental machine, built step by step: a whole sync, a row that comes too late,
    and the crash between the two writes of the state file that has a row delivered twice. */
module IncrementalExamples {
  import opened Wrappers
  import opened Listing
  import opened ObjectStore
  import opened StagingSteps
  import opened TwoPhaseCommit
  import opened RowCounting
  import opened IncrementalRuns

  // ----- the buckets of one attempt with one file -----

  ghost function Uploaded(c: Contents, b: Bucket, file: Path): Bucket {
    b[Staging(file) := DataFile(c(file))]
  }

  ghost function Finished(c: Contents, b: Bucket, file: Path, finish: Object): Bucket {
    Uploaded(c, b, file)[FinishKey("") := finish]
  }

  ghost function Promoted(c: Contents, b: Bucket, file: Path, finish: Object): Bucket {
    b[Visible(file) := DataFile(c(file))][FinishKey("") := finish]
  }

  ghost function Named(c: Contents, b: Bucket, file: Path, finish: Object): Bucket {
    Promoted(c, b, file, finish)[Metadata := MetadataFile(AfterFinish(OrEmpty(RawMeta(b)), finish))]
  }

  ghost function Cleaned(c: Contents, b: Bucket, file: Path, finish: Object): Bucket {
    b[Visible(file) := DataFile(c(file))][Metadata := MetadataFile(AfterFinish(OrEmpty(RawMeta(b)), finish))]
  }

  lemma UploadKeeps(c: Contents, b: Bucket, file: Path)
    requires Sound(Shared, c, b) && StagingEmpty(b) && file != "" && file != FINISH
    ensures SameTable(Shared, c, b, Uploaded(c, b, file))
    ensures StagedPaths(Uploaded(c, b, file), "") == {file} && StagedOnlyUnder(Shared, "", Uploaded(c, b, file))
    ensures FinishKey("") !in Uploaded(c, b, file) && RawMeta(Uploaded(c, b, file)) == RawMeta(b)
  {
    var b1 := Uploaded(c, b, file);
    assert "" + file == file && file[0..] == file && "" + FINISH == FINISH;
    assert Uploading("", c, {file}, b, b1);
    UploadingSound(Shared, c, "", {file}, b, b1);
    UploadedPaths(Shared, "", c, {file}, b, b1);
  }

  lemma FinishCommits(c: Contents, b: Bucket, file: Path, finish: Object)
    requires Sound(Shared, c, b) && StagingEmpty(b) && file != "" && file != FINISH && finish.StreamFinish?
    ensures Published(Shared, c, b, {file}, finish, Finished(c, b, file, finish))
    ensures Sound(Shared, c, Finished(c, b, file, finish))
  {
    var b1, b2 := Uploaded(c, b, file), Finished(c, b, file, finish);
    UploadKeeps(c, b, file);
    RestingView(Shared, b);
    hide Sound, Foreign, Pending, View, StagedPaths, Uploaded;
    FinishPublishes(Shared, c, "", finish, b1, b2);
    PublishesFromSame(Shared, c, b, b1, "", finish, b2);
  }

  lemma PromotionKeeps(c: Contents, b: Bucket, file: Path, finish: Object)
    requires Sound(Shared, c, Finished(c, b, file, finish)) && StagingEmpty(b) && file != "" && file != FINISH && Visible(file) !in b
    ensures SameTable(Shared, c, Finished(c, b, file, finish), Promoted(c, b, file, finish))
    ensures StagedData(Promoted(c, b, file, finish), "") == {}
  {
    var b2, b3 := Finished(c, b, file, finish), Promoted(c, b, file, finish);
    assert "" + file == file && file[0..] == file && "" + FINISH == FINISH;
    assert FinishKey("") == Staging(FINISH);
    assert FinalKey(Staging(file), "") == Visible(file) && Staging("" + file) in b2;
    assert Promoting("", b2, b3);
    PromotingSound(Shared, c, "", b2, b3);
  }

  lemma NamingKeeps(c: Contents, b: Bucket, file: Path, finish: Object)
    requires Sound(Shared, c, Promoted(c, b, file, finish)) && StagedData(Promoted(c, b, file, finish), "") == {} && StagingEmpty(b)
    ensures SameTable(Shared, c, Promoted(c, b, file, finish), Named(c, b, file, finish))
    ensures SameTable(Shared, c, Named(c, b, file, finish), Cleaned(c, b, file, finish))
    ensures NothingStaged(Shared, Cleaned(c, b, file, finish))
  {
    var b3, b4, b5 := Promoted(c, b, file, finish), Named(c, b, file, finish), Cleaned(c, b, file, finish);
    assert RawMeta(b3) == RawMeta(b);
    CommitMetadataSound(Shared, c, "", b3, b4);
    assert Deleting("", b4, b5);
    CleaningSound(Shared, c, "", b4, b5);
  }

  /** Every request of the attempt leaves a bucket the commit protocol promises. */
  lemma AttemptBuckets(c: Contents, b: Bucket, file: Path, finish: Object)
    requires Sound(Shared, c, b) && StagingEmpty(b) && file != "" && file != FINISH && finish.StreamFinish? && Visible(file) !in b
    ensures SameTable(Shared, c, b, Uploaded(c, b, file))
    ensures Published(Shared, c, b, {file}, finish, Finished(c, b, file, finish))
    ensures Published(Shared, c, b, {file}, finish, Promoted(c, b, file, finish))
    ensures Published(Shared, c, b, {file}, finish, Named(c, b, file, finish))
    ensures Published(Shared, c, b, {file}, finish, Cleaned(c, b, file, finish))
    ensures NothingStaged(Shared, Cleaned(c, b, file, finish))
  {
    UploadKeeps(c, b, file);
    FinishCommits(c, b, file, finish);
    PromotionKeeps(c, b, file, finish);
    assert Sound(Shared, c, Promoted(c, b, file, finish));
    NamingKeeps(c, b, file, finish);
    hide Published, SameTable, Sound, NothingStaged, Uploaded, Finished, Promoted, Named, Cleaned, StagingEmpty;
    PublishedStays(Shared, c, b, Finished(c, b, file, finish), {file}, finish, Promoted(c, b, file, finish));
    PublishedStays(Shared, c, b, Promoted(c, b, file, finish), {file}, finish, Named(c, b, file, finish));
    PublishedStays(Shared, c, b, Named(c, b, file, finish), {file}, finish, Cleaned(c, b, file, finish));
  }

  // ----- a sync without failures -----

  /** Nothing is staged, and the state file is where the destination is. */
  ghost predicate Ready(cfg: Config, s: Sys) {
    s.phase.Idle? && StagingEmpty(s.bucket) && s.cursor == s.dest
  }

  /** The file holds what a sync starting here has to write. */
  ghost predicate Holds(cfg: Config, s: Sys, file: Path, records: seq<Row>) {
    && file != "" && file != FINISH && file !in s.owner
    && multiset(records) == multiset(set r | r in s.source && Past(cfg, r, s.cursor))
    && multiset(cfg.contents(file)) == multiset(Fresh(cfg, s)) && Fresh(cfg, s) != {}
  }

  ghost function Fresh(cfg: Config, s: Sys): set<Row> {
    set r | r in s.source && cfg.keep(r) && Past(cfg, r, s.cursor)
  }

  /** The states of a sync with one file, from the start of the read to its end. */
  ghost function AtRead(cfg: Config, s: Sys, file: Path, records: seq<Row>): Sys {
    s.(phase := Reading({file}, Fresh(cfg, s), AdvanceAll(cfg, s.cursor, records)), start := s.bucket,
       owner := s.owner + map[file := Some(cfg.threadOf(s.cursor))])
  }

  ghost function AtClose(cfg: Config, s: Sys, file: Path, records: seq<Row>): Sys {
    AtRead(cfg, s, file, records).(phase := Closing({file}, Fresh(cfg, s), AdvanceAll(cfg, s.cursor, records), false))
  }

  ghost function AtCommit(cfg: Config, s: Sys, file: Path, records: seq<Row>): Sys {
    var next := AdvanceAll(cfg, s.cursor, records);
    AtRead(cfg, s, file, records).(phase := Closing({file}, Fresh(cfg, s), next, true), dest := next, delivered := s.delivered + Fresh(cfg, s))
  }

  ghost function OwnedBy(files: set<Path>, t: ThreadID): map<Path, Option<ThreadID>> {
    map r | r in files :: Some(t)
  }

  lemma ReadStep(cfg: Config, s: Sys, file: Path, records: seq<Row>)
    requires Holds(cfg, s, file, records) && NothingStaged(Shared, s.bucket)
    requires CheckReplay(cfg, s.cursor, RawMeta(s.bucket)).NotMine? && RowsIn(cfg.contents, {file}) == multiset(Fresh(cfg, s))
    ensures Next(cfg, s.(phase := SettingUp, start := s.bucket), EndSetup({file}, records), AtRead(cfg, s, file, records))
  {
    hide NothingStaged, RowsIn, CheckReplay, AdvanceAll, Past;
    assert OwnedBy({file}, cfg.threadOf(s.cursor)) == map[file := Some(cfg.threadOf(s.cursor))];
  }

  lemma ReadyToRead(cfg: Config, s: Sys, file: Path, records: seq<Row>)
    requires Inv(cfg, s) && Ready(cfg, s) && Holds(cfg, s, file, records)
    ensures NothingStaged(Shared, s.bucket) && CheckReplay(cfg, s.cursor, RawMeta(s.bucket)).NotMine?
    ensures RowsIn(cfg.contents, {file}) == multiset(Fresh(cfg, s))
  {
    assert NothingStaged(Shared, s.bucket) && RawMeta(s.bucket) == View(Shared, s.bucket).meta by { hide Inv; RestingView(Shared, s.bucket); }
    assert Recognised(cfg, RawMeta(s.bucket), s.cursor, s.dest) by { hide Sound, View, RowsIn, DeliveredInv, PendingUnnamed, Recognised; }
    hide Inv, View, Recognised;
    ReplayOutcome(cfg, s.cursor, s.dest, RawMeta(s.bucket));
    RowsInTake(cfg.contents, {file}, file);
    assert {file} - {file} == {};
  }

  lemma NothingMissed(cfg: Config, s: Sys, file: Path, records: seq<Row>, b: Bucket)
    ensures Missed(cfg, AtClose(cfg, s, file, records).(bucket := b)) == {}
  {
  }

  lemma CommitStep(cfg: Config, s: Sys, file: Path, records: seq<Row>)
    requires var s3 := AtClose(cfg, s, file, records);
      Published(Shared, cfg.contents, s.bucket, {file}, FinishOf(cfg, s3), Finished(cfg.contents, s.bucket, file, FinishOf(cfg, s3)))
    ensures var s3, s5 := AtClose(cfg, s, file, records), AtCommit(cfg, s, file, records);
      var b1, b2 := Uploaded(cfg.contents, s.bucket, file), Finished(cfg.contents, s.bucket, file, FinishOf(cfg, s3));
      Next(cfg, s3.(bucket := b1), CommitPoint(b2), s5.(bucket := b2))
  {
    NothingMissed(cfg, s, file, records, Uploaded(cfg.contents, s.bucket, file));
    assert s.late + {} == s.late;
    hide Published, Missed, Uploaded, Finished, AdvanceAll, Fresh, FinishState;
  }

  lemma LaterRequest(cfg: Config, s: Sys, file: Path, records: seq<Row>, b: Bucket, b': Bucket)
    requires Published(Shared, cfg.contents, s.bucket, {file}, FinishOf(cfg, AtClose(cfg, s, file, records)), b')
    ensures var s5 := AtCommit(cfg, s, file, records);
      Next(cfg, s5.(bucket := b), Request(b'), s5.(bucket := b'))
  {
    hide Published, AdvanceAll, Fresh, FinishState;
  }

  lemma PhaseSteps(cfg: Config, s: Sys, file: Path, records: seq<Row>, b: Bucket)
    requires s.phase.Idle?
    ensures Next(cfg, s, BeginSetup, s.(phase := SettingUp, start := s.bucket))
    ensures Next(cfg, AtRead(cfg, s, file, records), BeginClose, AtClose(cfg, s, file, records))
    ensures SameTable(Shared, cfg.contents, s.bucket, b) ==>
              Next(cfg, AtClose(cfg, s, file, records), Request(b), AtClose(cfg, s, file, records).(bucket := b))
    ensures NothingStaged(Shared, b) ==>
              Next(cfg, AtCommit(cfg, s, file, records).(bucket := b), EndClose,
                   AtCommit(cfg, s, file, records).(bucket := b, phase := Saving(AdvanceAll(cfg, s.cursor, records), true)))
  {
    hide SameTable, NothingStaged, AdvanceAll, Fresh, FinishState;
  }

  /** The history goes on with these steps. */
  ghost predicate Continues(cfg: Config, states: seq<Sys>, steps: seq<Step>) {
    |states| == |steps| + 1 && forall i :: 0 <= i < |steps| ==> Next(cfg, states[i], steps[i], states[i + 1])
  }

  lemma Join(cfg: Config, states: seq<Sys>, steps: seq<Step>, more: seq<Sys>, moreSteps: seq<Step>)
    requires Run(cfg, states, steps) && Continues(cfg, more, moreSteps) && more[0] == states[|steps|]
    ensures Run(cfg, states + more[1..], steps + moreSteps)
  {
    hide Next, Init;
    var all, allSteps := states + more[1..], steps + moreSteps;
    forall i | 0 <= i < |allSteps| ensures Next(cfg, all[i], allSteps[i], all[i + 1]) {
      if i >= |steps| { assert all[i] == more[i - |steps|] && all[i + 1] == more[i + 1 - |steps|]; }
    }
  }

  /** The states and steps of a sync up to its commit, and on to the saving of its cursor. */
  ghost function SyncStates(cfg: Config, s: Sys, file: Path, records: seq<Row>): seq<Sys> {
    var c, s3, s5 := cfg.contents, AtClose(cfg, s, file, records), AtCommit(cfg, s, file, records);
    var finish := FinishOf(cfg, s3);
    [s, s.(phase := SettingUp, start := s.bucket), AtRead(cfg, s, file, records), s3,
     s3.(bucket := Uploaded(c, s.bucket, file)), s5.(bucket := Finished(c, s.bucket, file, finish)),
     s5.(bucket := Promoted(c, s.bucket, file, finish)), s5.(bucket := Named(c, s.bucket, file, finish)),
     s5.(bucket := Cleaned(c, s.bucket, file, finish)),
     s5.(bucket := Cleaned(c, s.bucket, file, finish), phase := Saving(AdvanceAll(cfg, s.cursor, records), true))]
  }

  ghost function SyncSteps(cfg: Config, s: Sys, file: Path, records: seq<Row>): seq<Step> {
    var c, finish := cfg.contents, FinishOf(cfg, AtClose(cfg, s, file, records));
    [BeginSetup, EndSetup({file}, records), BeginClose,
     Request(Uploaded(c, s.bucket, file)), CommitPoint(Finished(c, s.bucket, file, finish)),
     Request(Promoted(c, s.bucket, file, finish)), Request(Named(c, s.bucket, file, finish)),
     Request(Cleaned(c, s.bucket, file, finish)), EndClose]
  }

  /** A sync that meets no failure goes through, request by request. */
  lemma SyncContinues(cfg: Config, s: Sys, file: Path, records: seq<Row>)
    requires Inv(cfg, s) && Ready(cfg, s) && Holds(cfg, s, file, records)
    ensures Continues(cfg, SyncStates(cfg, s, file, records), SyncSteps(cfg, s, file, records))
  {
    hide Next, Inv, Holds, AtRead, AtCommit, Finished, Uploaded, Promoted, Named, Cleaned, FinishOf, Published, SameTable, NothingStaged, AdvanceAll,
         StagingEmpty, CheckReplay, RowsIn, Fresh, RawMeta;
    var c, finish := cfg.contents, FinishOf(cfg, AtClose(cfg, s, file, records));
    ReadyBuckets(cfg, s, file, records);
    ReadyToRead(cfg, s, file, records);
    PhaseSteps(cfg, s, file, records, Uploaded(c, s.bucket, file));
    PhaseSteps(cfg, s, file, records, Cleaned(c, s.bucket, file, finish));
    ReadStep(cfg, s, file, records);
    CommitStep(cfg, s, file, records);
    LaterRequest(cfg, s, file, records, Finished(c, s.bucket, file, finish), Promoted(c, s.bucket, file, finish));
    LaterRequest(cfg, s, file, records, Promoted(c, s.bucket, file, finish), Named(c, s.bucket, file, finish));
    LaterRequest(cfg, s, file, records, Named(c, s.bucket, file, finish), Cleaned(c, s.bucket, file, finish));
  }

  lemma ReadyBuckets(cfg: Config, s: Sys, file: Path, records: seq<Row>)
    requires Inv(cfg, s) && Ready(cfg, s) && Holds(cfg, s, file, records)
    ensures var c, finish := cfg.contents, FinishOf(cfg, AtClose(cfg, s, file, records));
      && SameTable(Shared, c, s.bucket, Uploaded(c, s.bucket, file))
      && Published(Shared, c, s.bucket, {file}, finish, Finished(c, s.bucket, file, finish))
      && Published(Shared, c, s.bucket, {file}, finish, Promoted(c, s.bucket, file, finish))
      && Published(Shared, c, s.bucket, {file}, finish, Named(c, s.bucket, file, finish))
      && Published(Shared, c, s.bucket, {file}, finish, Cleaned(c, s.bucket, file, finish))
      && NothingStaged(Shared, Cleaned(c, s.bucket, file, finish))
  {
    assert Visible(file) !in s.bucket by {
      RestingView(Shared, s.bucket);
      hide Sound, RowsIn, Recognised, PendingUnnamed, DeliveredInv;
    }
    assert Sound(Shared, cfg.contents, s.bucket) by { hide View, RowsIn, Recognised, PendingUnnamed, DeliveredInv, Sound; }
    hide Inv;
    AttemptBuckets(cfg.contents, s.bucket, file, FinishOf(cfg, AtClose(cfg, s, file, records)));
  }

  // ----- a row that comes too late -----

  /** An empty destination whose cursor is saved. */
  ghost function Start(cursor: Cursor, source: set<Row>): Sys {
    Sys(map[], cursor, source, Idle, map[], cursor, {}, {}, multiset{}, map[])
  }

  lemma StartIsInit(cfg: Config, cursor: Cursor, source: set<Row>)
    requires forall r :: r in source ==> Past(cfg, r, cursor)
    ensures Init(cfg, Start(cursor, source))
  {
    var s := Start(cursor, source);
    assert VisiblePaths(s.bucket) == {};
    NoRows(cfg.contents);
    assert UpTo(cfg, source, cursor) == {};
    hide Past;
  }

  /** With the cursor at 5, a row that appears with cursor value 3 is not delivered by the next sync. */
  lemma LateRowExample(cfg: Config) returns (states: seq<Sys>, steps: seq<Step>)
    requires ValidConfig(cfg) && !cfg.hasSecondary && cfg.keep(Row(1, Some(3), None))
    ensures Run(cfg, states, steps) && states[0].cursor == Cursor(5, 0)
    ensures steps == [Grow({Row(1, Some(3), None)}), BeginSetup, EndSetup({}, []), BeginClose, SavePrimary, SaveSecondary]
    ensures Row(1, Some(3), None) in states[6].source && Copies(cfg, states[6], Row(1, Some(3), None)) == 0
  {
    hide Run, Copies;
    states, steps := LateRun(cfg, Row(1, Some(3), None), Cursor(5, 0));
  }

  lemma LateRun(cfg: Config, r: Row, c: Cursor) returns (states: seq<Sys>, steps: seq<Step>)
    requires ValidConfig(cfg) && cfg.keep(r) && !Past(cfg, r, c)
    ensures Run(cfg, states, steps) && |states| == 7 && states[0].cursor == c && r in states[6].source
    ensures steps == [Grow({r}), BeginSetup, EndSetup({}, []), BeginClose, SavePrimary, SaveSecondary]
    ensures Copies(cfg, states[6], r) == 0
  {
    hide Next, Init, Past, Copies, Recovers, ValidConfig;
    var s0 := Start(c, {});
    var s1 := s0.(source := {r}, late := {r});
    var s2, s3 := s1.(phase := SettingUp), s1.(phase := Reading({}, {}, c));
    var s4, s5 := s1.(phase := Saving(c, false)), s1.(phase := HalfSaved(c, c, false));
    states := [s0, s1, s2, s3, s4, s5, s1];
    steps := [Grow({r}), BeginSetup, EndSetup({}, []), BeginClose, SavePrimary, SaveSecondary];
    StartIsInit(cfg, c, {});
    ArrivesLate(cfg, s0, s1, r);
    EmptyRead(cfg, s2, s3);
    EmptyClose(cfg, s1, s3, s4);
    OtherSteps(cfg, s1);
    assert Run(cfg, states, steps);
    forall m | 0 < m < 6 ensures !Recovers(cfg, states[m], steps[m], r) { NotAFailure(cfg, states[m], steps[m], r); }
    LateRowLost(cfg, states, steps, 0, 6, r);
  }

  lemma OtherSteps(cfg: Config, s: Sys)
    requires s.phase.Idle?
    ensures Next(cfg, s, BeginSetup, s.(phase := SettingUp, start := s.bucket))
    ensures var s5 := s.(phase := HalfSaved(s.cursor, s.cursor, false));
      Next(cfg, s.(phase := Saving(s.cursor, false)), SavePrimary, s5) && Next(cfg, s5, SaveSecondary, s)
  {
  }

  lemma NotAFailure(cfg: Config, s: Sys, step: Step, r: Row)
    requires !step.Fail?
    ensures !Recovers(cfg, s, step, r)
  {
  }

  lemma ArrivesLate(cfg: Config, s: Sys, s': Sys, r: Row)
    requires !Past(cfg, r, s.dest) && cfg.keep(r) && s.source == {} && s.late == {} && s' == s.(source := {r}, late := {r})
    ensures Next(cfg, s, Grow({r}), s')
  {
    hide Past;
    assert UpTo(cfg, {r}, s.dest) == {r};
  }

  lemma EmptyClose(cfg: Config, s: Sys, s3: Sys, s4: Sys)
    requires s.cursor == s.dest && s3 == s.(phase := Reading({}, {}, s.cursor)) && s4 == s.(phase := Saving(s.cursor, false))
    ensures Next(cfg, s3, BeginClose, s4)
  {
    hide Past;
    assert Missed(cfg, s3) == {};
    assert s.late + {} == s.late;
  }

  lemma EmptyRead(cfg: Config, s: Sys, s': Sys)
    requires s.phase.SettingUp? && s.bucket == map[] && s' == s.(phase := Reading({}, {}, s.cursor))
    requires forall r :: r in s.source ==> !Past(cfg, r, s.cursor)
    ensures Next(cfg, s, EndSetup({}, []), s')
  {
    NoRows(cfg.contents);
    hide Past;
    assert (set r | r in s.source && Past(cfg, r, s.cursor)) == {};
    assert (set r | r in s.source && cfg.keep(r) && Past(cfg, r, s.cursor)) == {};
    assert s.owner + OwnedBy({}, cfg.threadOf(s.cursor)) == s.owner;
  }

  // ----- the crash between the two writes of the state file -----

  const WITH_PRIMARY := Row(0, Some(5), None)
  const WITHOUT_PRIMARY := Row(1, None, Some(7))

  ghost predicate ExampleConfig(cfg: Config) {
    && ValidConfig(cfg) && cfg.hasSecondary && cfg.keep(WITH_PRIMARY) && cfg.keep(WITHOUT_PRIMARY)
    && cfg.contents("a") == [WITH_PRIMARY, WITHOUT_PRIMARY] && cfg.contents("b") == [WITHOUT_PRIMARY]
  }

  /** The cursor is saved as (0, 0). A sync delivers a row with primary value 5 and one without primary value
      and with secondary value 7, and the process ends when (5, 0) is in the state file. The next sync
      does not recognise the commit and delivers the second row again. */
  lemma HalfSavedExample(cfg: Config) returns (states: seq<Sys>, steps: seq<Step>)
    requires ExampleConfig(cfg)
    ensures Run(cfg, states, steps) && |steps| == 20 && steps[9] == SavePrimary && steps[10] == Fail && steps[19] == EndClose
    ensures states[0].cursor == Cursor(0, 0) && states[0].source == {WITH_PRIMARY, WITHOUT_PRIMARY}
    ensures states[11].cursor == Cursor(5, 0)
    ensures Copies(cfg, states[20], WITHOUT_PRIMARY) == 2
  {
    hide Run, Holds, Ready, Copies, Due, SyncStates, ExampleConfig;
    states, steps := UpToCrash(cfg);
    var s3 := states[11];
    var before, beforeSteps := states, steps;
    states, steps := WholeSync(cfg, states, steps, "b", [WITHOUT_PRIMARY]);
    assert states[0] == before[0] && states[11] == before[11] && steps[9] == beforeSteps[9] && steps[10] == beforeSteps[10];
    RunDeliversOnce(cfg, states, steps, 20, WITHOUT_PRIMARY);
    SecondDue(cfg, s3, states[20]);
  }

  lemma UpToCrash(cfg: Config) returns (states: seq<Sys>, steps: seq<Step>)
    requires ExampleConfig(cfg)
    ensures Run(cfg, states, steps) && |steps| == 11 && |states| == 12 && steps[9] == SavePrimary && steps[10] == Fail
    ensures states[0] == Start(Cursor(0, 0), {WITH_PRIMARY, WITHOUT_PRIMARY})
    ensures Ready(cfg, states[11]) && Holds(cfg, states[11], "b", [WITHOUT_PRIMARY]) && states[11].extra[WITHOUT_PRIMARY] == 1
    ensures states[11].late == {} && states[11].cursor == Cursor(5, 0) && WITHOUT_PRIMARY in states[11].source
  {
    states, steps := UpToHalf(cfg);
    hide Run, Next, Inv, Holds, Ready, ExampleConfig, AfterFailure, StagingEmpty;
    RunInv(cfg, states, steps, 10);
    CrashHere(cfg, states[10]);
    FailIsStep(cfg, states[10]);
    states, steps := Then(cfg, states, steps, Fail, AfterFailure(cfg, states[10]));
  }

  lemma UpToHalf(cfg: Config) returns (states: seq<Sys>, steps: seq<Step>)
    requires ExampleConfig(cfg)
    ensures Run(cfg, states, steps) && |steps| == 10 && |states| == 11 && steps[9] == SavePrimary
    ensures states[0] == Start(Cursor(0, 0), {WITH_PRIMARY, WITHOUT_PRIMARY}) && JustSaved(states[10])
  {
    var s0 := Start(Cursor(0, 0), {WITH_PRIMARY, WITHOUT_PRIMARY});
    hide Run, Next, Init, Inv, Holds, Ready, SyncStates, ExampleConfig, JustSaved, Start;
    FirstState(cfg, s0);
    FirstSync(cfg, s0);
    states, steps := WholeSync(cfg, [s0], [], "a", [WITH_PRIMARY, WITHOUT_PRIMARY]);
    assert states[0] == [s0][0];
    var s1 := states[9];
    var s2 := s1.(cursor := Cursor(5, 0), phase := HalfSaved(Cursor(5, 7), Cursor(0, 0), true));
    HalfSave(cfg, s0, s1, s2);
    states, steps := Then(cfg, states, steps, SavePrimary, s2);
  }

  lemma Then(cfg: Config, states: seq<Sys>, steps: seq<Step>, step: Step, s': Sys) returns (states': seq<Sys>, steps': seq<Step>)
    requires Run(cfg, states, steps) && |states| == |steps| + 1 && Next(cfg, states[|steps|], step, s')
    ensures Run(cfg, states', steps') && states' == states + [s'] && steps' == steps + [step]
  {
    hide Next, Init;
    states', steps' := states + [s'], steps + [step];
  }

  lemma WholeSync(cfg: Config, states: seq<Sys>, steps: seq<Step>, file: Path, records: seq<Row>) returns (states': seq<Sys>, steps': seq<Step>)
    requires Run(cfg, states, steps) && |states| == |steps| + 1 && Ready(cfg, states[|steps|]) && Holds(cfg, states[|steps|], file, records)
    ensures Run(cfg, states', steps') && |states'| == |steps'| + 1 && states <= states' && steps <= steps' && |steps'| == |steps| + 9 && steps'[|steps'| - 1] == EndClose
    ensures states'[|steps'|] == SyncStates(cfg, states[|steps|], file, records)[9]
  {
    hide Next, Init, Inv, Holds, Ready;
    var s := states[|steps|];
    RunInv(cfg, states, steps, |steps|);
    SyncContinues(cfg, s, file, records);
    Join(cfg, states, steps, SyncStates(cfg, s, file, records), SyncSteps(cfg, s, file, records));
    states', steps' := states + SyncStates(cfg, s, file, records)[1..], steps + SyncSteps(cfg, s, file, records);
  }

  lemma FirstState(cfg: Config, s: Sys)
    requires ExampleConfig(cfg) && s == Start(Cursor(0, 0), {WITH_PRIMARY, WITHOUT_PRIMARY})
    ensures Run(cfg, [s], [])
  {
    hide Next, Init;
    StartIsInit(cfg, Cursor(0, 0), s.source);
  }

  lemma FirstSync(cfg: Config, s: Sys)
    requires ExampleConfig(cfg) && s == Start(Cursor(0, 0), {WITH_PRIMARY, WITHOUT_PRIMARY})
    ensures Ready(cfg, s) && Holds(cfg, s, "a", [WITH_PRIMARY, WITHOUT_PRIMARY])
  {
    assert (set r | r in s.source && Past(cfg, r, s.cursor)) == s.source == Fresh(cfg, s);
    assert multiset([WITH_PRIMARY, WITHOUT_PRIMARY]) == multiset(s.source);
    assert "a" != FINISH by { assert |"a"| != |FINISH|; }
  }

  lemma AdvancedBoth(cfg: Config)
    requires cfg.hasSecondary
    ensures AdvanceAll(cfg, Cursor(0, 0), [WITH_PRIMARY, WITHOUT_PRIMARY]) == Cursor(5, 7)
    ensures AdvanceAll(cfg, Cursor(5, 0), [WITHOUT_PRIMARY]) == Cursor(5, 7)
  {
    var both := [WITH_PRIMARY, WITHOUT_PRIMARY];
    assert both[..1] == [WITH_PRIMARY] && [WITH_PRIMARY][..0] == [] && [WITHOUT_PRIMARY][..0] == [];
    assert AdvanceAll(cfg, Cursor(0, 0), [WITH_PRIMARY]) == Cursor(5, 0);
  }

  /** What the first write leaves. */
  ghost predicate JustSaved(s: Sys) {
    && s.source == {WITH_PRIMARY, WITHOUT_PRIMARY} && s.cursor == Cursor(5, 0) && s.phase == HalfSaved(Cursor(5, 7), Cursor(0, 0), true)
    && StagingEmpty(s.bucket) && s.late == {} && s.extra == multiset{} && s.owner.Keys == {"a"} && WITHOUT_PRIMARY in s.delivered
  }

  lemma HalfSave(cfg: Config, s0: Sys, s1: Sys, s2: Sys)
    requires ExampleConfig(cfg) && s0 == Start(Cursor(0, 0), {WITH_PRIMARY, WITHOUT_PRIMARY})
    requires s1 == SyncStates(cfg, s0, "a", [WITH_PRIMARY, WITHOUT_PRIMARY])[9]
    requires s2 == s1.(cursor := Cursor(5, 0), phase := HalfSaved(Cursor(5, 7), Cursor(0, 0), true))
    ensures Next(cfg, s1, SavePrimary, s2)
    ensures JustSaved(s2)
  {
    AdvancedBoth(cfg);
    assert WITHOUT_PRIMARY in Fresh(cfg, s0);
    hide Fresh, AdvanceAll, FinishOf;
  }

  lemma FailIsStep(cfg: Config, s: Sys)
    ensures Next(cfg, s, Fail, AfterFailure(cfg, s))
  {
    hide AfterFailure;
  }

  /** What the crash leaves: a state in which the row is to be read again. */
  lemma CrashHere(cfg: Config, s2: Sys)
    requires ExampleConfig(cfg) && Inv(cfg, s2) && JustSaved(s2)
    ensures var s3 := AfterFailure(cfg, s2);
      Ready(cfg, s3) && Holds(cfg, s3, "b", [WITHOUT_PRIMARY]) && s3.extra[WITHOUT_PRIMARY] == 1 && s3.late == {} && s3.cursor == Cursor(5, 0)
      && s3.source == s2.source
  {
    var s3 := AfterFailure(cfg, s2);
    Resumed(cfg, s2);
    hide Inv, View, ResumeAt, Rewound, Recognised, ValidConfig, Holds, Past;
    SecondHolds(cfg, s3);
  }

  lemma SecondHolds(cfg: Config, s: Sys)
    requires ExampleConfig(cfg) && s.source == {WITH_PRIMARY, WITHOUT_PRIMARY} && s.cursor == Cursor(5, 0) && s.owner.Keys == {"a"}
    ensures Holds(cfg, s, "b", [WITHOUT_PRIMARY])
  {
    hide ValidConfig;
    assert (set r | r in s.source && Past(cfg, r, s.cursor)) == {WITHOUT_PRIMARY};
    assert Fresh(cfg, s) == {WITHOUT_PRIMARY};
    assert multiset([WITHOUT_PRIMARY]) == multiset({WITHOUT_PRIMARY});
    assert "b" != FINISH by { assert |"b"| != |FINISH|; }
  }

  lemma Resumed(cfg: Config, s2: Sys)
    requires ExampleConfig(cfg) && Inv(cfg, s2) && JustSaved(s2)
    ensures AfterFailure(cfg, s2).dest == Cursor(5, 0) && AfterFailure(cfg, s2).extra[WITHOUT_PRIMARY] == 1
  {
    hide Inv, View, ResumeAt, Rewound, Recognised, ValidConfig, StagingEmpty;
    FailResumes(cfg, s2);
    FailExtra(cfg, s2);
    assert WITHOUT_PRIMARY in ReadAgain(cfg, s2);
  }

  lemma SecondDue(cfg: Config, s3: Sys, s: Sys)
    requires ExampleConfig(cfg) && s3.cursor == Cursor(5, 0) && WITHOUT_PRIMARY in s3.source && s3.late == {}
    requires s == SyncStates(cfg, s3, "b", [WITHOUT_PRIMARY])[9]
    ensures Due(cfg, s, WITHOUT_PRIMARY) == 1 && s.extra == s3.extra
  {
    AdvancedBoth(cfg);
    hide Fresh, AdvanceAll, FinishOf;
  }
}
