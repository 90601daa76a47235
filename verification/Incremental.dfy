/** Incremental sync of one stream over the shared staging area: cursor, replay check by thread id,
    destination commit, and the state file written after it, one cursor column at a time. Crashes may
    fall anywhere, also between those two writes. */
module IncrementalRuns {
  import opened Wrappers
  import opened ObjectStore
  import opened StagingSteps
  import opened TwoPhaseCommit
  import opened RowCounting

  /** Both values are set whenever a sync runs without repeating the backfill. */
  datatype Cursor = Cursor(primary: int, secondary: int)

  /** `threadOf` is generateThreadID on the cursor values; different cursors give different ids. `keep` is
      the stream's filter, applied to rows after they are read. */
  datatype Config = Config(
    contents: Contents,
    keep: Row -> bool,
    hasSecondary: bool,
    primaryField: string,
    secondaryField: string,
    threadOf: Cursor -> ThreadID)

  ghost predicate ValidConfig(cfg: Config) {
    && cfg.primaryField != cfg.secondaryField
    && forall c, d :: cfg.threadOf(c) == cfg.threadOf(d) ==> c == d
  }

  // ----- cursors -----

  /** The WHERE clause of BuildIncrementalQuery; comparisons with NULL select nothing. */
  predicate Past(cfg: Config, r: Row, c: Cursor) {
    || (r.primary.Some? && r.primary.value > c.primary)
    || (cfg.hasSecondary && r.primary.None? && r.secondary.Some? && r.secondary.value > c.secondary)
  }

  /** `getMaxIncrementCursorFromData` */
  function Advance(cfg: Config, c: Cursor, r: Row): Cursor {
    Cursor(
      if r.primary.Some? && r.primary.value > c.primary then r.primary.value else c.primary,
      if cfg.hasSecondary && r.secondary.Some? && r.secondary.value > c.secondary then r.secondary.value else c.secondary)
  }

  /** The cursor after the reader has delivered these records, in this order. */
  function AdvanceAll(cfg: Config, c: Cursor, records: seq<Row>): Cursor {
    if records == [] then c
    else Advance(cfg, AdvanceAll(cfg, c, records[..|records| - 1]), records[|records| - 1])
  }

  predicate Leq(c: Cursor, d: Cursor) {
    c.primary <= d.primary && c.secondary <= d.secondary
  }

  lemma PastAntitone(cfg: Config, r: Row, c: Cursor, d: Cursor)
    requires Leq(c, d) && Past(cfg, r, d)
    ensures Past(cfg, r, c)
  {
  }

  /** Every delivered record is at or below the new cursor, whatever the order of delivery. */
  lemma {:induction false} AdvanceCovers(cfg: Config, c: Cursor, records: seq<Row>)
    ensures Leq(c, AdvanceAll(cfg, c, records))
    ensures forall r :: r in records ==> !Past(cfg, r, AdvanceAll(cfg, c, records))
    ensures (exists r :: r in records && Past(cfg, r, c)) ==> AdvanceAll(cfg, c, records) != c
    decreases |records|
  {
    if records != [] {
      var front, last := records[..|records| - 1], records[|records| - 1];
      AdvanceCovers(cfg, c, front);
      assert records == front + [last];
    }
  }

  /** Each cursor column moves to the largest value met in it, and stays where nothing larger was met. */
  lemma {:induction false} AdvanceIsMax(cfg: Config, c: Cursor, records: seq<Row>)
    ensures var d := AdvanceAll(cfg, c, records);
            && c.primary <= d.primary && c.secondary <= d.secondary
            && (forall r :: r in records && r.primary.Some? ==> r.primary.value <= d.primary)
            && (d.primary == c.primary || exists r :: r in records && r.primary == Some(d.primary))
            && (forall r :: r in records && cfg.hasSecondary && r.secondary.Some? ==> r.secondary.value <= d.secondary)
            && (d.secondary == c.secondary || (cfg.hasSecondary && exists r :: r in records && r.secondary == Some(d.secondary)))
    decreases |records|
  {
    if records != [] {
      var front, last := records[..|records| - 1], records[|records| - 1];
      AdvanceIsMax(cfg, c, front);
      assert records == front + [last];
    }
  }

  /** The cursor never runs ahead of a bound that no record is past. */
  lemma {:induction false} AdvanceBounded(cfg: Config, c: Cursor, records: seq<Row>, high: Cursor)
    requires Leq(c, high) && forall r :: r in records ==> Within(cfg, r, high)
    ensures Leq(AdvanceAll(cfg, c, records), high)
    decreases |records|
  {
    if records != [] {
      AdvanceBounded(cfg, c, records[..|records| - 1], high);
      assert records[|records| - 1] in records;
    }
  }

  /** Neither cursor column of the row exceeds the bound. */
  predicate Within(cfg: Config, r: Row, high: Cursor) {
    && (r.primary.Some? ==> r.primary.value <= high.primary)
    && (cfg.hasSecondary && r.secondary.Some? ==> r.secondary.value <= high.secondary)
  }

  /** `ThresholdFilter`, which a backfill adds to every chunk query of an incremental stream. */
  predicate Threshold(cfg: Config, r: Row, c: Cursor) {
    && (r.primary.None? || r.primary.value <= c.primary)
    && (cfg.hasSecondary ==> r.secondary.None? || r.secondary.value <= c.secondary)
  }

  /** A row is selected by exactly one of the backfill's filter and the incremental condition, unless its
      primary value is at or below the cursor and its secondary value above it: then by neither. */
  lemma ThresholdSplits(cfg: Config, r: Row, c: Cursor)
    ensures !(Threshold(cfg, r, c) && Past(cfg, r, c))
    ensures !Threshold(cfg, r, c) && !Past(cfg, r, c) <==>
      && cfg.hasSecondary && r.primary.Some? && r.primary.value <= c.primary
      && r.secondary.Some? && r.secondary.value > c.secondary
  {
  }

  // ----- checkpoints -----

  /** The state committed with an attempt that started at `c` and read up to `next`. */
  function FinishState(cfg: Config, c: Cursor, next: Cursor): MetadataState {
    var fields := map[cfg.primaryField := Some(next.primary)];
    var all := if cfg.hasSecondary then fields[cfg.secondaryField := Some(next.secondary)] else fields;
    MetadataState(Some(cfg.threadOf(c)), Some(Fields(all)), {}, None)
  }

  function Lookup(fields: map<string, Option<int>>, name: string): Option<int> {
    if name in fields then fields[name] else None
  }

  datatype Replay = NotMine | Adopt(next: Cursor) | Invalid

  /** The replay check: metadata committed under this cursor's own thread id means the state file is behind. */
  function CheckReplay(cfg: Config, c: Cursor, meta: Option<MetadataState>): Replay {
    var m := OrEmpty(meta);
    if m.id != Some(cfg.threadOf(c)) || m.state.None? then NotMine
    else match m.state.value
      case Opaque(_) => Invalid
      case Fields(fields) =>
        var p, q := Lookup(fields, cfg.primaryField), Lookup(fields, cfg.secondaryField);
        if p.None? || (cfg.hasSecondary && q.None?) then Invalid
        else Adopt(Cursor(p.value, if cfg.hasSecondary then q.value else c.secondary))
  }

  lemma ReplayAfterCommit(cfg: Config, c: Cursor, next: Cursor, meta: Option<MetadataState>)
    requires ValidConfig(cfg) && (!cfg.hasSecondary ==> next.secondary == c.secondary)
    ensures CheckReplay(cfg, c, Some(MergeState(OrEmpty(meta), FinishState(cfg, c, next)))) == Adopt(next)
  {
  }

  /** A sync adopts a cursor if and only if the metadata carries the thread id of the cursor it starts from
      and a value for every cursor column; with the id but without them it stops. */
  lemma AdoptIff(cfg: Config, c: Cursor, meta: Option<MetadataState>, next: Cursor)
    ensures CheckReplay(cfg, c, meta) == Adopt(next) <==> (
      && meta.Some? && meta.value.id == Some(cfg.threadOf(c)) && meta.value.state.Some? && meta.value.state.value.Fields?
      && (var fields := meta.value.state.value.fields;
          && cfg.primaryField in fields && fields[cfg.primaryField] == Some(next.primary)
          && if cfg.hasSecondary then cfg.secondaryField in fields && fields[cfg.secondaryField] == Some(next.secondary)
             else next.secondary == c.secondary))
    ensures CheckReplay(cfg, c, meta) == NotMine <==> meta.None? || meta.value.id != Some(cfg.threadOf(c)) || meta.value.state.None?
  {
  }

  /** An attempt commits the thread id of the cursor it started from and the cursor it reached. */
  lemma FinishCarries(cfg: Config, c: Cursor, next: Cursor)
    requires cfg.primaryField != cfg.secondaryField
    ensures var m := FinishState(cfg, c, next);
            && m.id == Some(cfg.threadOf(c)) && m.committed == {} && m.dedupInserts.None? && m.state.Some? && m.state.value.Fields?
            && (var fields := m.state.value.fields;
                && (forall f :: f in fields <==> f == cfg.primaryField || (cfg.hasSecondary && f == cfg.secondaryField))
                && fields[cfg.primaryField] == Some(next.primary)
                && (cfg.hasSecondary ==> fields[cfg.secondaryField] == Some(next.secondary)))
  {
  }

  /** Where a sync that starts from this state file and this metadata resumes. */
  function ResumeAt(cfg: Config, c: Cursor, meta: Option<MetadataState>): Cursor {
    match CheckReplay(cfg, c, meta)
    case Adopt(next) => next
    case _ => c
  }

  // ----- the machine -----

  /** `committed` says whether the attempt had files to commit. `HalfSaved` is the moment between the two
      writes of the state file, `from` the cursor it held before. */
  datatype Phase =
    | Idle
    | SettingUp
    | Reading(files: set<Path>, rows: set<Row>, next: Cursor)
    | Closing(files: set<Path>, rows: set<Row>, next: Cursor, published: bool)
    | Saving(next: Cursor, committed: bool)
    | HalfSaved(next: Cursor, from: Cursor, committed: bool)

  /** `cursor` is the state file. The rest is bookkeeping for the statements below: `dest` is the cursor
      that syncs have reached, `delivered` the rows it has passed that were committed, `late` those that
      were not, `extra` copies of rows that are to be read once more although the table holds them,
      `start` the bucket when the mutex was taken, `owner` who made a file name (None for files older than
      this history). */
  datatype Sys = Sys(
    bucket: Bucket,
    cursor: Cursor,
    source: set<Row>,
    phase: Phase,
    start: Bucket,
    dest: Cursor,
    delivered: set<Row>,
    late: set<Row>,
    extra: multiset<Row>,
    owner: map<Path, Option<ThreadID>>)

  /** Source rows a destination at cursor `c` should hold. */
  ghost function UpTo(cfg: Config, source: set<Row>, c: Cursor): set<Row> {
    set r | r in source && cfg.keep(r) && !Past(cfg, r, c)
  }

  /** Source rows past `c` that a cursor at `next` has passed. */
  ghost function Between(cfg: Config, source: set<Row>, c: Cursor, next: Cursor): set<Row> {
    set r | r in source && cfg.keep(r) && Past(cfg, r, c) && !Past(cfg, r, next)
  }

  datatype Step =
    | Grow(rows: set<Row>)
    | BeginSetup
    | Request(b: Bucket)
    | CommitPoint(b: Bucket)
    | EndSetup(files: set<Path>, records: seq<Row>)
    | BeginClose
    | EndClose
    | SavePrimary
    | SaveSecondary
    | Fail

  ghost function FinishOf(cfg: Config, s: Sys): Object
    requires s.phase.Closing?
  {
    StreamFinish(FinishState(cfg, s.cursor, s.phase.next))
  }

  /** The metadata is not of the thread of this cursor or of a later one. */
  ghost predicate Unused(cfg: Config, meta: Option<MetadataState>, cursor: Cursor) {
    forall c :: Leq(cursor, c) ==> OrEmpty(meta).id != Some(cfg.threadOf(c))
  }

  /** Metadata that a sync starting at `cursor` reads as: the destination has reached `dest`. */
  ghost predicate Recognised(cfg: Config, meta: Option<MetadataState>, cursor: Cursor, dest: Cursor) {
    if cursor == dest then Unused(cfg, meta, cursor) else CheckReplay(cfg, cursor, meta) == Adopt(dest)
  }

  ghost predicate Init(cfg: Config, s: Sys) {
    && Coherent(Shared, cfg.contents, s.bucket) && StagingEmpty(s.bucket) && s.phase.Idle?
    && RowsIn(cfg.contents, VisiblePaths(s.bucket)) == multiset(s.delivered) && s.extra == multiset{}
    && Recognised(cfg, RawMeta(s.bucket), s.cursor, s.dest) && CursorInv(cfg, s) && DeliveredInv(cfg, s)
    && s.owner.Keys == VisiblePaths(s.bucket) && (forall r :: r in s.owner ==> s.owner[r] == None)
  }

  /** The rows an attempt's cursor passes without having read them: they came after it had read. */
  ghost function Missed(cfg: Config, s: Sys): set<Row>
    requires s.phase.Reading? || s.phase.Closing?
  {
    Between(cfg, s.source, s.cursor, s.phase.next) - s.phase.rows
  }

  /** The rows a sync will meet again if the process ends here. */
  ghost function Rewound(cfg: Config, s: Sys): set<Row> {
    Between(cfg, s.source, ResumeAt(cfg, s.cursor, View(Shared, s.bucket).meta), s.dest)
  }

  /** After an error or the end of the process: what is durable says where the next sync resumes. */
  ghost function AfterFailure(cfg: Config, s: Sys): Sys {
    var window := Rewound(cfg, s);
    s.(phase := Idle, dest := ResumeAt(cfg, s.cursor, View(Shared, s.bucket).meta),
       delivered := s.delivered - window, late := s.late - window, extra := s.extra + multiset(s.delivered * window))
  }

  ghost predicate Next(cfg: Config, s: Sys, step: Step, s': Sys) {
    match step
    case Grow(rows) =>
      // rows may arrive at any time and with any cursor values
      && rows !! s.source
      && s' == s.(source := s.source + rows, late := s.late + UpTo(cfg, rows, s.dest))
    case BeginSetup =>
      s.phase.Idle? && s' == s.(phase := SettingUp, start := s.bucket)
    case Request(b) =>
      && (s.phase.SettingUp? || s.phase.Closing?)
      && (if s.phase.Closing? && s.phase.published
          then Published(Shared, cfg.contents, s.start, s.phase.files, FinishOf(cfg, s), b)
          else SameTable(Shared, cfg.contents, s.start, b))
      && s' == s.(bucket := b)
    case CommitPoint(b) =>
      && s.phase.Closing? && !s.phase.published
      && Published(Shared, cfg.contents, s.start, s.phase.files, FinishOf(cfg, s), b)
      && s' == s.(bucket := b, phase := s.phase.(published := true), dest := s.phase.next,
                  delivered := s.delivered + s.phase.rows, late := s.late + Missed(cfg, s))
    case EndSetup(files, records) =>
      && s.phase.SettingUp? && NothingStaged(Shared, s.bucket)
      && (match CheckReplay(cfg, s.cursor, RawMeta(s.bucket))
          case Adopt(next) => s' == s.(phase := Saving(next, true))
          case Invalid => s' == s.(phase := Idle)
          case NotMine =>
            // every row past the cursor is read and moves the cursor, those that pass the filter are written
            var rows := set r | r in s.source && cfg.keep(r) && Past(cfg, r, s.cursor);
            && multiset(records) == multiset(set r | r in s.source && Past(cfg, r, s.cursor))
            && RowsIn(cfg.contents, files) == multiset(rows)
            && files !! s.owner.Keys && (files == {} <==> rows == {})
            && s' == s.(phase := Reading(files, rows, AdvanceAll(cfg, s.cursor, records)),
                        owner := s.owner + (map r | r in files :: Some(cfg.threadOf(s.cursor)))))
    case BeginClose =>
      && s.phase.Reading?
      // a stream writer without files commits nothing, and the cursor is saved all the same
      && s' == if s.phase.files == {}
               then s.(phase := Saving(s.phase.next, false), dest := s.phase.next, late := s.late + Missed(cfg, s))
               else s.(phase := Closing(s.phase.files, s.phase.rows, s.phase.next, false), start := s.bucket)
    case EndClose =>
      && s.phase.Closing? && s.phase.published && NothingStaged(Shared, s.bucket)
      && s' == s.(phase := Saving(s.phase.next, true))
    case SavePrimary =>
      && s.phase.Saving?
      && s' == s.(cursor := Cursor(s.phase.next.primary, s.cursor.secondary),
                  phase := HalfSaved(s.phase.next, s.cursor, s.phase.committed))
    case SaveSecondary =>
      s.phase.HalfSaved? && s' == s.(cursor := s.phase.next, phase := Idle)
    case Fail => s' == AfterFailure(cfg, s)
  }

  // ----- invariant -----

  /** What still has to be promoted was made under the id of its finish marker, which metadata.json does not carry yet. */
  ghost predicate PendingUnnamed(b: Bucket, owner: map<Path, Option<ThreadID>>) {
    forall e :: e in Pending(Shared, b) ==>
      e.0.StreamFinish? && e.0.state.id.Some? && e.1 in owner && owner[e.1] == e.0.state.id && OrEmpty(RawMeta(b)).id != e.0.state.id
  }

  /** A bucket whose logical table holds `rows` and has reached cursor `dest`, for a state file at `cursor`. */
  ghost predicate Reached(cfg: Config, b: Bucket, rows: multiset<Row>, cursor: Cursor, dest: Cursor, owner: map<Path, Option<ThreadID>>) {
    && Sound(Shared, cfg.contents, b)
    && View(Shared, b).paths <= owner.Keys
    && RowsIn(cfg.contents, View(Shared, b).paths) == rows
    && Recognised(cfg, View(Shared, b).meta, cursor, dest)
    && PendingUnnamed(b, owner)
  }

  /** The cursor of the state file before the writes under way. */
  function Base(s: Sys): Cursor {
    if s.phase.HalfSaved? then s.phase.from else s.cursor
  }

  /** The cursor that the destination's metadata vouches for. */
  function Vouched(s: Sys): Cursor {
    if (s.phase.Saving? || s.phase.HalfSaved?) && !s.phase.committed then Base(s) else s.dest
  }

  ghost predicate CursorInv(cfg: Config, s: Sys) {
    Leq(Base(s), s.dest) && (!cfg.hasSecondary ==> Base(s).secondary == s.dest.secondary)
  }

  /** Of the rows the cursor reached has passed, exactly the late ones are missing. */
  ghost predicate DeliveredInv(cfg: Config, s: Sys) {
    s.delivered == UpTo(cfg, s.source, s.dest) - s.late && s.late <= UpTo(cfg, s.source, s.dest)
  }

  ghost function InTable(s: Sys): multiset<Row> {
    multiset(s.delivered) + s.extra
  }

  /** An attempt reads rows between the state file's cursor and its own, under its own names. */
  ghost predicate Attempt(cfg: Config, s: Sys, files: set<Path>, rows: set<Row>, next: Cursor) {
    && Leq(s.cursor, next) && (rows != {} ==> next != s.cursor)
    && rows <= Between(cfg, s.source, s.cursor, next)
    && RowsIn(cfg.contents, files) == multiset(rows) && (files == {} <==> rows == {})
    && (forall r :: r in files ==> r in s.owner && s.owner[r] == Some(cfg.threadOf(s.cursor)))
    && (!cfg.hasSecondary ==> next.secondary == s.cursor.secondary)
  }

  /** Without a commit, nothing past the old cursor is in the table on that account. */
  ghost predicate NoneAhead(cfg: Config, s: Sys)
    requires s.phase.Saving? || s.phase.HalfSaved?
  {
    !s.phase.committed ==> forall r :: r in s.delivered ==> !Past(cfg, r, Base(s))
  }

  ghost predicate PhaseInv(cfg: Config, s: Sys) {
    match s.phase
    case Idle => true
    case SettingUp => Reached(cfg, s.start, InTable(s), s.cursor, s.dest, s.owner)
    case Reading(files, rows, next) =>
      && Attempt(cfg, s, files, rows, next) && s.dest == s.cursor && files !! View(Shared, s.bucket).paths
      && NothingStaged(Shared, s.bucket)
    case Closing(files, rows, next, published) =>
      && Attempt(cfg, s, files, rows, next) && files != {} && files !! View(Shared, s.start).paths
      && Reached(cfg, s.start, multiset(if published then s.delivered - rows else s.delivered) + s.extra, s.cursor, s.cursor, s.owner)
      && s.dest == (if published then next else s.cursor) && (published ==> rows <= s.delivered)
    case Saving(next, _) => next == s.dest && NothingStaged(Shared, s.bucket) && NoneAhead(cfg, s)
    case HalfSaved(next, from, _) =>
      && next == s.dest && NothingStaged(Shared, s.bucket) && NoneAhead(cfg, s)
      && s.cursor == Cursor(next.primary, from.secondary)
  }

  ghost predicate Inv(cfg: Config, s: Sys) {
    && ValidConfig(cfg)
    && Reached(cfg, s.bucket, InTable(s), Base(s), Vouched(s), s.owner)
    && CursorInv(cfg, s) && DeliveredInv(cfg, s) && PhaseInv(cfg, s)
    && forall r :: r in s.extra ==> r in s.source
  }

  // ----- every step keeps it -----

  lemma InitInv(cfg: Config, s: Sys)
    requires ValidConfig(cfg) && Init(cfg, s)
    ensures Inv(cfg, s)
  {
    RestingView(Shared, s.bucket);
    assert View(Shared, s.bucket).paths == VisiblePaths(s.bucket) && Pending(Shared, s.bucket) == {};
    assert InTable(s) == multiset(s.delivered);
  }

  /** New rows are delivered or to come, unless the cursor reached has already gone by. */
  lemma GrowInv(cfg: Config, s: Sys, rows: set<Row>, s': Sys)
    requires Inv(cfg, s) && Next(cfg, s, Grow(rows), s')
    ensures Inv(cfg, s')
  {
    assert DeliveredInv(cfg, s') by {
      hide Reached, PhaseInv;
      assert UpTo(cfg, s'.source, s.dest) == UpTo(cfg, s.source, s.dest) + UpTo(cfg, rows, s.dest);
    }
    hide Reached, DeliveredInv, View, NothingStaged, Attempt;
    AttemptOf(cfg, s, s');
  }

  lemma SameReached(cfg: Config, b0: Bucket, b: Bucket, s: Sys, rows: multiset<Row>, dest: Cursor)
    requires Reached(cfg, b0, rows, s.cursor, dest, s.owner) && SameTable(Shared, cfg.contents, b0, b)
    ensures Reached(cfg, b, rows, s.cursor, dest, s.owner)
  {
    hide Sound, View, Pending, RowsIn, Foreign, Recognised;
  }

  /** The commit point carries the destination from the state file's cursor to the attempt's. */
  lemma PublishReaches(cfg: Config, b: Bucket, s: Sys, before: multiset<Row>)
    requires ValidConfig(cfg) && s.phase.Closing? && s.phase.files != {} && s.phase.files !! View(Shared, s.start).paths
    requires Reached(cfg, s.start, before, s.cursor, s.cursor, s.owner)
    requires Attempt(cfg, s, s.phase.files, s.phase.rows, s.phase.next)
    requires Published(Shared, cfg.contents, s.start, s.phase.files, FinishOf(cfg, s), b)
    ensures Reached(cfg, b, before + multiset(s.phase.rows), s.cursor, s.phase.next, s.owner)
  {
    hide Sound, View, Pending, RowsIn, Foreign, CheckReplay, Between;
    var files, rows, next := s.phase.files, s.phase.rows, s.phase.next;
    RowsInUnion(cfg.contents, View(Shared, s.start).paths, files);
    ReplayAfterCommit(cfg, s.cursor, next, View(Shared, s.start).meta);
    assert Leq(s.cursor, s.cursor);
  }

  lemma RequestInv(cfg: Config, s: Sys, b: Bucket, s': Sys)
    requires Inv(cfg, s) && Next(cfg, s, Request(b), s')
    ensures Inv(cfg, s')
  {
    hide Reached, Attempt, CursorInv, DeliveredInv, SameTable, Published, View;
    if s.phase.SettingUp? {
      SameReached(cfg, s.start, b, s, InTable(s), s.dest);
    } else if s.phase.published {
      PublishReaches(cfg, b, s, multiset(s.delivered - s.phase.rows) + s.extra);
      assert multiset(s.delivered - s.phase.rows) + s.extra + multiset(s.phase.rows) == InTable(s);
    } else {
      SameReached(cfg, s.start, b, s, InTable(s), s.cursor);
    }
    AttemptOf(cfg, s, s');
  }

  lemma AttemptOf(cfg: Config, s: Sys, s': Sys)
    requires s'.cursor == s.cursor && s.source <= s'.source && s'.owner == s.owner
    ensures forall files, rows, next :: Attempt(cfg, s, files, rows, next) ==> Attempt(cfg, s', files, rows, next)
    ensures s'.dest == s.dest && Base(s') == Base(s) && CursorInv(cfg, s) ==> CursorInv(cfg, s')
    ensures s'.dest == s.dest && s'.delivered == s.delivered && s'.late == s.late && s'.source == s.source && DeliveredInv(cfg, s) ==>
              DeliveredInv(cfg, s')
  {
    hide RowsIn;
  }

  lemma UpToSplit(cfg: Config, source: set<Row>, c: Cursor, next: Cursor)
    requires Leq(c, next)
    ensures UpTo(cfg, source, next) == UpTo(cfg, source, c) + Between(cfg, source, c, next)
    ensures UpTo(cfg, source, c) !! Between(cfg, source, c, next)
  {
    forall r | r in source && !Past(cfg, r, c) ensures !Past(cfg, r, next) {
      if Past(cfg, r, next) { PastAntitone(cfg, r, c, next); }
    }
  }

  /** What moving the cursor adds, and what it leaves behind. */
  lemma CommitDelivers(cfg: Config, s: Sys, s': Sys, rows: set<Row>, next: Cursor)
    requires DeliveredInv(cfg, s) && s.dest == s.cursor && Leq(s.cursor, next) && rows <= Between(cfg, s.source, s.cursor, next)
    requires s'.source == s.source && s'.dest == next && s'.delivered == s.delivered + rows
    requires s'.late == s.late + (Between(cfg, s.source, s.cursor, next) - rows)
    ensures DeliveredInv(cfg, s') && s.delivered !! rows
  {
    UpToSplit(cfg, s.source, s.cursor, next);
    hide UpTo, Between;
  }

  lemma CommitPointInv(cfg: Config, s: Sys, b: Bucket, s': Sys)
    requires Inv(cfg, s) && Next(cfg, s, CommitPoint(b), s')
    ensures Inv(cfg, s')
  {
    assert CursorInv(cfg, s') by { hide Reached, Published, View, RowsIn, DeliveredInv, Between; }
    assert DeliveredInv(cfg, s') && s.delivered !! s.phase.rows by {
      hide Reached, Published, View, RowsIn, DeliveredInv, Between;
      CommitDelivers(cfg, s, s', s.phase.rows, s.phase.next);
    }
    hide Reached, Attempt, CursorInv, DeliveredInv, Published, View, Between;
    PublishReaches(cfg, b, s, InTable(s));
    AttemptOf(cfg, s, s');
    assert s'.delivered - s.phase.rows == s.delivered;
    assert InTable(s) + multiset(s.phase.rows) == InTable(s');
  }

  lemma EndSetupInv(cfg: Config, s: Sys, files: set<Path>, records: seq<Row>, s': Sys)
    requires Inv(cfg, s) && Next(cfg, s, EndSetup(files, records), s')
    ensures Inv(cfg, s')
    ensures !CheckReplay(cfg, s.cursor, RawMeta(s.bucket)).Invalid?
  {
    assert RawMeta(s.bucket) == View(Shared, s.bucket).meta by { RestingView(Shared, s.bucket); }
    ReplayOutcome(cfg, s.cursor, s.dest, RawMeta(s.bucket));
    if CheckReplay(cfg, s.cursor, RawMeta(s.bucket)).NotMine? {
      EndSetupReads(cfg, s, files, records, s');
    } else {
      hide Reached, View, RowsIn, NothingStaged, UpTo, CheckReplay;
    }
  }

  /** What the replay check makes of recognised metadata. */
  lemma ReplayOutcome(cfg: Config, cursor: Cursor, dest: Cursor, meta: Option<MetadataState>)
    requires Recognised(cfg, meta, cursor, dest)
    ensures CheckReplay(cfg, cursor, meta) == if cursor == dest then NotMine else Adopt(dest)
    ensures ResumeAt(cfg, cursor, meta) == dest
  {
    assert Leq(cursor, cursor);
  }

  lemma EndSetupReads(cfg: Config, s: Sys, files: set<Path>, records: seq<Row>, s': Sys)
    requires Inv(cfg, s) && Next(cfg, s, EndSetup(files, records), s') && s.dest == s.cursor
    requires CheckReplay(cfg, s.cursor, RawMeta(s.bucket)).NotMine?
    ensures Inv(cfg, s')
  {
    hide Sound, View, Pending, RowsIn, NothingStaged, UpTo, Recognised, CheckReplay;
    ReadRows(cfg, s, files, records, s');
    OwnerGrows(cfg, s.bucket, InTable(s), s.cursor, s.dest, s.owner, s'.owner);
  }

  lemma OwnerGrows(cfg: Config, b: Bucket, rows: multiset<Row>, cursor: Cursor, dest: Cursor, owner: map<Path, Option<ThreadID>>, more: map<Path, Option<ThreadID>>)
    requires Reached(cfg, b, rows, cursor, dest, owner)
    requires forall r :: r in owner ==> r in more && more[r] == owner[r]
    ensures Reached(cfg, b, rows, cursor, dest, more)
  {
    hide Sound, View, Pending, RowsIn, Recognised;
  }

  lemma ReadRows(cfg: Config, s: Sys, files: set<Path>, records: seq<Row>, s': Sys)
    requires s.dest == s.cursor && files !! s.owner.Keys
    requires multiset(records) == multiset(set r | r in s.source && Past(cfg, r, s.cursor))
    requires var rows := set r | r in s.source && cfg.keep(r) && Past(cfg, r, s.cursor);
      && RowsIn(cfg.contents, files) == multiset(rows) && (files == {} <==> rows == {})
      && s'.phase == Reading(files, rows, AdvanceAll(cfg, s.cursor, records))
    requires s'.owner == s.owner + (map r | r in files :: Some(cfg.threadOf(s.cursor))) && s'.cursor == s.cursor && s'.source == s.source
    ensures Attempt(cfg, s', s'.phase.files, s'.phase.rows, s'.phase.next)
    ensures forall r :: r in s.owner ==> r in s'.owner && s'.owner[r] == s.owner[r]
  {
    hide RowsIn;
    var all := set r | r in s.source && Past(cfg, r, s.cursor);
    assert forall r :: r in records <==> r in multiset(records);
    assert forall r :: r in records <==> r in all;
    AdvanceCovers(cfg, s.cursor, records);
    AdvanceSecondary(cfg, s.cursor, records);
    if s'.phase.rows != {} { var r :| r in s'.phase.rows; assert r in records && Past(cfg, r, s.cursor); }
  }

  lemma {:induction false} AdvanceSecondary(cfg: Config, c: Cursor, records: seq<Row>)
    ensures !cfg.hasSecondary ==> AdvanceAll(cfg, c, records).secondary == c.secondary
    decreases |records|
  {
    if records != [] { AdvanceSecondary(cfg, c, records[..|records| - 1]); }
  }

  /** An attempt that had nothing to commit still moves the cursor. */
  lemma EmptyCloseInv(cfg: Config, s: Sys, s': Sys)
    requires Inv(cfg, s) && Next(cfg, s, BeginClose, s') && s.phase.Reading? && s.phase.files == {}
    ensures Inv(cfg, s')
  {
    assert DeliveredInv(cfg, s') by {
      hide Reached, View, RowsIn, DeliveredInv, Between, NothingStaged;
      assert s.delivered + s.phase.rows == s.delivered;
      CommitDelivers(cfg, s, s', s.phase.rows, s.phase.next);
    }
    assert NoneAhead(cfg, s') by { hide Reached, View, RowsIn, Attempt, NothingStaged; }
    hide Reached, View, Pending, RowsIn, UpTo, Between, DeliveredInv, NothingStaged;
  }

  /** Saving moves the state file to where the destination already is. */
  lemma SaveInv(cfg: Config, s: Sys, step: Step, s': Sys)
    requires Inv(cfg, s) && Next(cfg, s, step, s') && (step.SavePrimary? || step.SaveSecondary?)
    ensures Inv(cfg, s')
  {
    hide Sound, View, Pending, RowsIn, UpTo, NothingStaged, CheckReplay;
    if step.SaveSecondary? {
      BehindIsUnused(cfg, View(Shared, s.bucket).meta, s.phase.from, Vouched(s), s.dest);
    }
  }

  /** Metadata recognised at a cursor is not of a thread of any later cursor. */
  lemma BehindIsUnused(cfg: Config, meta: Option<MetadataState>, cursor: Cursor, dest: Cursor, later: Cursor)
    requires ValidConfig(cfg) && Recognised(cfg, meta, cursor, dest) && Leq(cursor, later) && (dest != cursor ==> later != cursor)
    ensures Unused(cfg, meta, later)
  {
    forall c | Leq(later, c) ensures OrEmpty(meta).id != Some(cfg.threadOf(c)) {
      if cursor == dest { assert Leq(cursor, c); }
    }
  }

  /** Where the next sync resumes after a failure: at the cursor reached, at the old cursor when there was
      nothing to commit, or at the half-saved cursor. */
  lemma FailResumes(cfg: Config, s: Sys)
    requires Inv(cfg, s)
    ensures var meta := View(Shared, s.bucket).meta;
            var d := ResumeAt(cfg, s.cursor, meta);
      && Recognised(cfg, meta, s.cursor, d) && Leq(s.cursor, d) && Leq(d, s.dest) && (!cfg.hasSecondary ==> d.secondary == s.cursor.secondary)
      && d == if !s.phase.HalfSaved? || s.phase.from.primary == s.phase.next.primary then Vouched(s) else s.cursor
  {
    hide Sound, View, Pending, RowsIn, UpTo, NothingStaged, Attempt, DeliveredInv, CheckReplay, NoneAhead;
    var meta := View(Shared, s.bucket).meta;
    if s.phase.HalfSaved? && s.phase.from.primary != s.phase.next.primary {
      BehindIsUnused(cfg, meta, s.phase.from, Vouched(s), s.cursor);
      ReplayOutcome(cfg, s.cursor, s.cursor, meta);
    } else {
      ReplayOutcome(cfg, s.cursor, Vouched(s), meta);
    }
  }

  lemma FailInv(cfg: Config, s: Sys)
    requires Inv(cfg, s)
    ensures Inv(cfg, AfterFailure(cfg, s))
  {
    var s' := AfterFailure(cfg, s);
    FailResumes(cfg, s);
    hide View, Reached, Recognised, PhaseInv, ResumeAt, DeliveredInv, Rewound, InTable, ValidConfig;
    FailDelivered(cfg, s, s');
    FailTable(cfg, s);
    assert CursorInv(cfg, s') && PhaseInv(cfg, s') by { IdleInv(cfg, s'); }
  }

  lemma FailTable(cfg: Config, s: Sys)
    requires Reached(cfg, s.bucket, InTable(s), Base(s), Vouched(s), s.owner)
    requires Recognised(cfg, View(Shared, s.bucket).meta, s.cursor, AfterFailure(cfg, s).dest)
    ensures Reached(cfg, s.bucket, InTable(AfterFailure(cfg, s)), s.cursor, AfterFailure(cfg, s).dest, s.owner)
  {
    hide View, Reached, Recognised, ResumeAt, Rewound, InTable;
    SplitCopies(s, AfterFailure(cfg, s), Rewound(cfg, s));
    ReachedFrom(cfg, s.bucket, InTable(s), Base(s), Vouched(s), s.cursor, AfterFailure(cfg, s).dest, s.owner);
  }

  lemma SplitCopies(s: Sys, s': Sys, window: set<Row>)
    requires s'.delivered == s.delivered - window && s'.extra == s.extra + multiset(s.delivered * window)
    ensures InTable(s') == InTable(s)
  {
    assert multiset(s.delivered) == multiset(s'.delivered) + multiset(s.delivered * window);
  }

  lemma ReachedFrom(cfg: Config, b: Bucket, rows: multiset<Row>, cursor: Cursor, dest: Cursor, cursor': Cursor, dest': Cursor, owner: map<Path, Option<ThreadID>>)
    requires Reached(cfg, b, rows, cursor, dest, owner) && Recognised(cfg, View(Shared, b).meta, cursor', dest')
    ensures Reached(cfg, b, rows, cursor', dest', owner)
  {
    hide View, Sound, RowsIn, PendingUnnamed, Recognised;
  }

  lemma IdleInv(cfg: Config, s: Sys)
    requires s.phase.Idle?
    ensures PhaseInv(cfg, s)
  {
  }

  lemma FailDelivered(cfg: Config, s: Sys, s': Sys)
    requires DeliveredInv(cfg, s) && s' == AfterFailure(cfg, s) && Leq(s'.dest, s.dest)
    ensures DeliveredInv(cfg, s')
    ensures (forall r :: r in s.extra ==> r in s.source) ==> forall r :: r in s'.extra ==> r in s.source
  {
    hide View, ResumeAt, Past;
    UpToSplit(cfg, s.source, s'.dest, s.dest);
  }

  lemma PhaseOnlyInv(cfg: Config, s: Sys, step: Step, s': Sys)
    requires Inv(cfg, s) && Next(cfg, s, step, s')
    requires step.BeginSetup? || (step.BeginClose? && s.phase.Reading? && s.phase.files != {}) || step.EndClose?
    ensures Inv(cfg, s')
  {
    hide Reached, View, Pending, RowsIn, UpTo, Between, CheckReplay, NothingStaged, Missed;
    AttemptOf(cfg, s, s');
  }

  lemma BeginCloseInv(cfg: Config, s: Sys, s': Sys)
    requires Inv(cfg, s) && Next(cfg, s, BeginClose, s')
    ensures Inv(cfg, s')
  {
    hide Inv;
    if s.phase.files == {} { EmptyCloseInv(cfg, s, s'); } else { PhaseOnlyInv(cfg, s, BeginClose, s'); }
  }

  lemma CursorStep(cfg: Config, s: Sys, step: Step, s': Sys)
    requires Inv(cfg, s) && Next(cfg, s, step, s')
    ensures Leq(s.cursor, s'.cursor) && s.source <= s'.source
  {
    hide Reached, Attempt, SameTable, Published, View, NothingStaged, DeliveredInv, RowsIn, Missed, Rewound, UpTo, NoneAhead, Past, CheckReplay;
  }

  lemma NextInv(cfg: Config, s: Sys, step: Step, s': Sys)
    requires Inv(cfg, s) && Next(cfg, s, step, s')
    ensures Inv(cfg, s') && Leq(s.cursor, s'.cursor) && s.source <= s'.source
  {
    CursorStep(cfg, s, step, s');
    hide Inv, Next, AfterFailure;
    match step
    case Grow(rows) => GrowInv(cfg, s, rows, s');
    case Request(b) => RequestInv(cfg, s, b, s');
    case CommitPoint(b) => CommitPointInv(cfg, s, b, s');
    case EndSetup(files, records) => EndSetupInv(cfg, s, files, records, s');
    case BeginClose => BeginCloseInv(cfg, s, s');
    case SavePrimary => SaveInv(cfg, s, step, s');
    case SaveSecondary => SaveInv(cfg, s, step, s');
    case Fail =>
      FailInv(cfg, s);
      FailStep(cfg, s, s');
    case _ => PhaseOnlyInv(cfg, s, step, s');
  }

  // ----- runs -----

  ghost predicate Run(cfg: Config, states: seq<Sys>, steps: seq<Step>) {
    && ValidConfig(cfg) && |states| == |steps| + 1 && Init(cfg, states[0])
    && forall i :: 0 <= i < |steps| ==> Next(cfg, states[i], steps[i], states[i + 1])
  }

  lemma {:induction false} RunInv(cfg: Config, states: seq<Sys>, steps: seq<Step>, i: nat)
    requires Run(cfg, states, steps) && i < |states|
    ensures Inv(cfg, states[i])
    decreases i
  {
    hide Inv, Next, Init;
    if i == 0 {
      InitInv(cfg, states[0]);
    } else {
      RunInv(cfg, states, steps, i - 1);
      NextInv(cfg, states[i - 1], steps[i - 1], states[i]);
    }
  }

  /** The state file's cursor never moves back, over whole histories of syncs and crashes. */
  lemma {:induction false} CursorNeverBack(cfg: Config, states: seq<Sys>, steps: seq<Step>, i: nat, j: nat)
    requires Run(cfg, states, steps) && i <= j < |states|
    ensures Leq(states[i].cursor, states[j].cursor)
    decreases j
  {
    hide Inv, Next, Init;
    if i < j {
      CursorNeverBack(cfg, states, steps, i, j - 1);
      RunInv(cfg, states, steps, j - 1);
      NextInv(cfg, states[j - 1], steps[j - 1], states[j]);
    }
  }

  // ----- how often a row is delivered -----

  /** How often the logical table holds a row. */
  ghost function Copies(cfg: Config, s: Sys, r: Row): nat {
    RowsIn(cfg.contents, View(Shared, s.bucket).paths)[r]
  }

  /** How often it should. */
  ghost function Due(cfg: Config, s: Sys, r: Row): nat {
    if r in s.source && cfg.keep(r) && !Past(cfg, r, s.dest) && r !in s.late then 1 else 0
  }

  /** In every state the logical table holds each row as often as it should, and its extra copies. What the
      state file has passed, the table has, but for late rows. */
  lemma DeliveredOnce(cfg: Config, s: Sys, r: Row)
    requires Inv(cfg, s)
    ensures Copies(cfg, s, r) == Due(cfg, s, r) + s.extra[r]
    ensures r in s.source && cfg.keep(r) && !Past(cfg, r, s.cursor) ==> (Due(cfg, s, r) == 1 <==> r !in s.late)
  {
    hide Sound, View, Pending, RowsIn, Recognised;
    if r in s.source && Past(cfg, r, s.dest) { PastAntitone(cfg, r, s.cursor, s.dest); }
  }

  /** The row lies between the two secondary values and is known to the query by these alone. */
  predicate ReadBySecondary(cfg: Config, r: Row, from: Cursor, next: Cursor) {
    && cfg.hasSecondary && r.primary.None? && r.secondary.Some?
    && from.secondary < r.secondary.value <= next.secondary
  }

  /** The rows in the table that a crash at this moment makes the next sync read again: there are some only
      between the two writes of the state file, when the first of them has moved the primary value. */
  ghost function ReadAgain(cfg: Config, s: Sys): set<Row> {
    if s.phase.HalfSaved? && s.phase.from.primary != s.phase.next.primary
    then set r | r in s.delivered && ReadBySecondary(cfg, r, s.phase.from, s.phase.next)
    else {}
  }

  /** A failure adds exactly these to the extra copies. */
  lemma FailExtra(cfg: Config, s: Sys)
    requires Inv(cfg, s)
    ensures AfterFailure(cfg, s).extra == s.extra + multiset(ReadAgain(cfg, s))
  {
    FailResumes(cfg, s);
    hide Reached, View, Recognised, ResumeAt, PhaseInv, DeliveredInv, Rewound, ReadAgain;
    forall r | r in s.delivered ensures r in Rewound(cfg, s) <==> r in ReadAgain(cfg, s) { RewoundDelivered(cfg, s, r); }
    assert ReadAgain(cfg, s) <= s.delivered by { AgainIsDelivered(cfg, s); }
    assert s.delivered * Rewound(cfg, s) == ReadAgain(cfg, s);
  }

  lemma AgainIsDelivered(cfg: Config, s: Sys)
    ensures ReadAgain(cfg, s) <= s.delivered
  {
  }

  lemma RewoundDelivered(cfg: Config, s: Sys, r: Row)
    requires CursorInv(cfg, s) && DeliveredInv(cfg, s) && PhaseInv(cfg, s) && r in s.delivered
    requires ResumeAt(cfg, s.cursor, View(Shared, s.bucket).meta) ==
               if !s.phase.HalfSaved? || s.phase.from.primary == s.phase.next.primary then Vouched(s) else s.cursor
    ensures r in Rewound(cfg, s) <==> r in ReadAgain(cfg, s)
  {
    hide Reached, View, Attempt, NothingStaged, ResumeAt, RowsIn;
  }

  lemma FailStep(cfg: Config, s: Sys, s': Sys)
    requires Next(cfg, s, Fail, s')
    ensures s' == AfterFailure(cfg, s)
  {
    hide AfterFailure;
  }

  lemma OtherStepsExtra(cfg: Config, s: Sys, step: Step, s': Sys)
    requires Next(cfg, s, step, s') && !step.Fail?
    ensures s'.extra == s.extra
  {
    hide RowsIn, View, Published, SameTable, NothingStaged, CheckReplay;
  }

  /** A crash in that moment with such a row delivered. */
  ghost predicate Rereads(cfg: Config, s: Sys, step: Step) {
    step.Fail? && ReadAgain(cfg, s) != {}
  }

  lemma ExtraStep(cfg: Config, s: Sys, step: Step, s': Sys)
    requires Inv(cfg, s) && Next(cfg, s, step, s')
    ensures s'.extra == multiset{} <==> s.extra == multiset{} && !Rereads(cfg, s, step)
  {
    hide Inv, Next, ReadAgain, AfterFailure;
    if step.Fail? {
      FailExtra(cfg, s);
      FailStep(cfg, s, s');
      NoneOrSome(s.extra, ReadAgain(cfg, s));
    } else {
      OtherStepsExtra(cfg, s, step, s');
    }
  }

  lemma NoneOrSome(a: multiset<Row>, b: set<Row>)
    ensures a + multiset(b) == multiset{} <==> a == multiset{} && b == {}
  {
    assert |a + multiset(b)| == |a| + |multiset(b)|;
  }

  lemma {:induction false} ExtraIff(cfg: Config, states: seq<Sys>, steps: seq<Step>, i: nat)
    requires Run(cfg, states, steps) && i < |states|
    ensures states[i].extra == multiset{} <==> forall k :: 0 <= k < i ==> !Rereads(cfg, states[k], steps[k])
    decreases i
  {
    hide Inv, Next, Init, Rereads;
    if i > 0 {
      ExtraIff(cfg, states, steps, i - 1);
      RunInv(cfg, states, steps, i - 1);
      ExtraStep(cfg, states[i - 1], steps[i - 1], states[i]);
    } else {
      InitExtra(cfg, states, steps);
    }
  }

  lemma RunStep(cfg: Config, states: seq<Sys>, steps: seq<Step>, i: nat)
    requires Run(cfg, states, steps) && i < |steps|
    ensures Next(cfg, states[i], steps[i], states[i + 1])
  {
    hide Next, Init;
  }

  lemma InitExtra(cfg: Config, states: seq<Sys>, steps: seq<Step>)
    requires Run(cfg, states, steps)
    ensures states[0].extra == multiset{}
  {
    hide Next;
  }

  /** In every state of every run of syncs and crashes, whatever rows arrive when: every row is there as
      often as it should be, plus once more for each crash between the two state writes that had it read again. */
  lemma RunDeliversOnce(cfg: Config, states: seq<Sys>, steps: seq<Step>, i: nat, r: Row)
    requires Run(cfg, states, steps) && i < |states|
    ensures Copies(cfg, states[i], r) == Due(cfg, states[i], r) + states[i].extra[r]
    ensures r in states[i].source && cfg.keep(r) && !Past(cfg, r, states[i].cursor) ==> (Due(cfg, states[i], r) == 1 <==> r !in states[i].late)
  {
    hide Inv, Run, Copies, Past, Due;
    RunInv(cfg, states, steps, i);
    DeliveredOnce(cfg, states[i], r);
  }

  /** Exactly once if and only if no crash fell between the two writes of the state file with the primary
      value moved and a row without primary value delivered between the two secondary values. With one
      cursor column it holds outright. */
  lemma ExactlyOnceIff(cfg: Config, states: seq<Sys>, steps: seq<Step>, i: nat)
    requires Run(cfg, states, steps) && i < |states|
    ensures (forall r :: Copies(cfg, states[i], r) == Due(cfg, states[i], r)) <==> forall k :: 0 <= k < i ==> !Rereads(cfg, states[k], steps[k])
    ensures !cfg.hasSecondary ==> forall r :: Copies(cfg, states[i], r) == Due(cfg, states[i], r)
  {
    ExtraIff(cfg, states, steps, i);
    if !cfg.hasSecondary {
      forall k | 0 <= k < i ensures !Rereads(cfg, states[k], steps[k]) {
        hide Run;
        assert ReadAgain(cfg, states[k]) == {};
      }
    }
    hide Run, Copies, Due, Rereads;
    forall r ensures Copies(cfg, states[i], r) == Due(cfg, states[i], r) + states[i].extra[r] { RunDeliversOnce(cfg, states, steps, i, r); }
    if states[i].extra != multiset{} {
      var r :| r in states[i].extra;
      assert Copies(cfg, states[i], r) != Due(cfg, states[i], r);
    }
  }

  // ----- late rows -----

  /** The row arrives at or behind the cursor reached, or an attempt that read before its arrival moves the
      cursor past it. */
  ghost predicate TurnsLate(cfg: Config, s: Sys, step: Step, r: Row) {
    match step
    case Grow(rows) => r in rows && cfg.keep(r) && !Past(cfg, r, s.dest)
    case CommitPoint(_) => s.phase.Closing? && r in Missed(cfg, s)
    case BeginClose => s.phase.Reading? && s.phase.files == {} && r in Missed(cfg, s)
    case _ => false
  }

  /** A failure that makes the next sync meet the row after all. */
  ghost predicate Recovers(cfg: Config, s: Sys, step: Step, r: Row) {
    step.Fail? && r in Rewound(cfg, s)
  }

  lemma LateStep(cfg: Config, s: Sys, step: Step, s': Sys, r: Row)
    requires Next(cfg, s, step, s')
    ensures r in s'.late <==> TurnsLate(cfg, s, step, r) || (r in s.late && !Recovers(cfg, s, step, r))
  {
    hide RowsIn, View, Published, SameTable, NothingStaged, CheckReplay;
  }

  /** The row has turned late before `j` and was not recovered since. */
  ghost predicate LateSince(cfg: Config, states: seq<Sys>, steps: seq<Step>, k: nat, j: nat, r: Row)
    requires |states| == |steps| + 1 && j <= |steps|
  {
    k < j && TurnsLate(cfg, states[k], steps[k], r) && forall m :: k < m < j ==> !Recovers(cfg, states[m], steps[m], r)
  }

  /** Exactly which rows are late: those that have turned late since the history began, and were not recovered. */
  lemma {:induction false} LateIff(cfg: Config, states: seq<Sys>, steps: seq<Step>, j: nat, r: Row)
    requires Run(cfg, states, steps) && j < |states| && r !in states[0].late
    ensures r in states[j].late <==> exists k: nat :: LateSince(cfg, states, steps, k, j, r)
    decreases j
  {
    hide TurnsLate, Recovers, Next, Init;
    if j > 0 {
      LateIff(cfg, states, steps, j - 1, r);
      LateStep(cfg, states[j - 1], steps[j - 1], states[j], r);
      if TurnsLate(cfg, states[j - 1], steps[j - 1], r) {
        assert LateSince(cfg, states, steps, j - 1, j, r);
      } else if r in states[j].late {
        var k: nat :| LateSince(cfg, states, steps, k, j - 1, r);
        assert LateSince(cfg, states, steps, k, j, r);
      }
      if k: nat :| LateSince(cfg, states, steps, k, j, r) {
        if k < j - 1 { assert LateSince(cfg, states, steps, k, j - 1, r); }
      }
    }
  }

  /** A row is recovered only by a crash between the two writes of the state file with the primary value
      moved, if it lies between the two secondary values, or when an attempt without files is not saved. */
  lemma RecoversIff(cfg: Config, s: Sys, step: Step, r: Row)
    requires Inv(cfg, s) && r in s.late
    ensures Recovers(cfg, s, step, r) <==>
      && step.Fail?
      && if s.phase.HalfSaved? && s.phase.from.primary != s.phase.next.primary
         then ReadBySecondary(cfg, r, s.phase.from, s.phase.next)
         else (s.phase.HalfSaved? || s.phase.Saving?) && !s.phase.committed && Past(cfg, r, Base(s))
  {
    FailResumes(cfg, s);
    hide Reached, View, Recognised, Attempt, NothingStaged, ResumeAt;
  }

  /** A row that arrives at or behind the cursor reached is not delivered, as long as it is not recovered. */
  lemma LateRowLost(cfg: Config, states: seq<Sys>, steps: seq<Step>, i: nat, j: nat, r: Row)
    requires Run(cfg, states, steps) && i < j < |states|
    requires steps[i].Grow? && r in steps[i].rows && !Past(cfg, r, states[i].dest)
    requires forall m :: i < m < j ==> !Recovers(cfg, states[m], steps[m], r)
    ensures Copies(cfg, states[j], r) == 0
  {
    hide Copies, Past;
    NeverMet(cfg, states, steps, i, j, r);
    RunDeliversOnce(cfg, states, steps, j, r);
  }

  lemma {:induction false} NeverMet(cfg: Config, states: seq<Sys>, steps: seq<Step>, i: nat, j: nat, r: Row)
    requires Run(cfg, states, steps) && i < j < |states|
    requires steps[i].Grow? && r in steps[i].rows && !Past(cfg, r, states[i].dest)
    requires forall m :: i < m < j ==> !Recovers(cfg, states[m], steps[m], r)
    ensures states[j].extra[r] == 0 && (cfg.keep(r) ==> r in states[j].late)
    decreases j
  {
    hide Init, Inv, Next, Recovers, Past, TurnsLate;
    RunStep(cfg, states, steps, j - 1);
    var s, step, s' := states[j - 1], steps[j - 1], states[j];
    LateStep(cfg, s, step, s', r);
    RunInv(cfg, states, steps, j - 1);
    if j == i + 1 {
      JustArrived(cfg, s, step, s', r);
    } else {
      NeverMet(cfg, states, steps, i, j - 1, r);
      if step.Fail? {
        FailExtra(cfg, s);
        FailStep(cfg, s, s');
        LateNotDelivered(cfg, s, r);
      } else {
        OtherStepsExtra(cfg, s, step, s');
      }
    }
  }

  lemma JustArrived(cfg: Config, s: Sys, step: Step, s': Sys, r: Row)
    requires Inv(cfg, s) && Next(cfg, s, step, s') && step.Grow? && r in step.rows && !Past(cfg, r, s.dest)
    ensures s'.extra[r] == 0 && (cfg.keep(r) ==> r in s'.late)
  {
    hide Reached, PhaseInv, Past, DeliveredInv;
    assert r !in s.extra;
  }

  lemma LateNotDelivered(cfg: Config, s: Sys, r: Row)
    requires Inv(cfg, s)
    ensures r in s.late || !cfg.keep(r) ==> r !in s.delivered && r !in ReadAgain(cfg, s)
  {
    hide Reached, PhaseInv;
  }

  // ----- sources without late rows -----

  /** Rows arrive past the cursor of the attempt under way, or else past the cursor reached. */
  ghost predicate OnTime(cfg: Config, s: Sys, step: Step) {
    step.Grow? ==> forall r :: r in step.rows ==>
      Past(cfg, r, s.dest) && (s.phase.Reading? || s.phase.Closing? ==> Past(cfg, r, s.phase.next))
  }

  ghost predicate NoneLate(cfg: Config, s0: Sys, s: Sys) {
    && s.late <= s0.late
    && (s.phase.Reading? || (s.phase.Closing? && !s.phase.published) ==> Missed(cfg, s) == {})
  }

  lemma OnTimeStep(cfg: Config, s0: Sys, s: Sys, step: Step, s': Sys)
    requires Next(cfg, s, step, s') && OnTime(cfg, s, step) && NoneLate(cfg, s0, s)
    ensures NoneLate(cfg, s0, s')
  {
    hide RowsIn, View, Published, SameTable, NothingStaged, CheckReplay, Past, AdvanceAll, ResumeAt, Rewound;
    if step.Grow? && (s.phase.Reading? || (s.phase.Closing? && !s.phase.published)) {
      assert Between(cfg, s'.source, s.cursor, s.phase.next) == Between(cfg, s.source, s.cursor, s.phase.next);
    }
  }

  lemma {:induction false} OnTimeRun(cfg: Config, states: seq<Sys>, steps: seq<Step>, i: nat)
    requires Run(cfg, states, steps) && i < |states| && forall n :: 0 <= n < |steps| ==> OnTime(cfg, states[n], steps[n])
    ensures NoneLate(cfg, states[0], states[i])
    decreases i
  {
    hide Next, OnTime;
    if i > 0 {
      hide NoneLate;
      OnTimeRun(cfg, states, steps, i - 1);
      OnTimeStep(cfg, states[0], states[i - 1], steps[i - 1], states[i]);
    }
  }

  /** Exactly once: when rows arrive past the cursor, in every state of every run the logical table holds
      each source row that passes the filter and lies up to the cursor reached, and nothing else, once if
      and only if no crash has had rows read again. */
  lemma OnTimeExactlyOnce(cfg: Config, states: seq<Sys>, steps: seq<Step>, i: nat)
    requires Run(cfg, states, steps) && i < |states| && states[0].late == {} && forall n :: 0 <= n < |steps| ==> OnTime(cfg, states[n], steps[n])
    ensures (forall r :: Copies(cfg, states[i], r) == if r in UpTo(cfg, states[i].source, states[i].dest) then 1 else 0)
            <==> forall k :: 0 <= k < i ==> !Rereads(cfg, states[k], steps[k])
  {
    assert states[i].late == {} by { hide Run, OnTime; OnTimeRun(cfg, states, steps, i); }
    hide Run, OnTime, Copies, Rereads;
    forall r ensures Due(cfg, states[i], r) == if r in UpTo(cfg, states[i].source, states[i].dest) then 1 else 0 { }
    hide Due, UpTo;
    ExactlyOnceIff(cfg, states, steps, i);
  }

  // ----- the bucket itself -----

  /** Whenever a sync has finished with the destination, nothing is staged and the visible rows are the
      source rows up to the cursor it saves, but for late ones, and the extra copies. */
  lemma SyncedTable(cfg: Config, states: seq<Sys>, steps: seq<Step>, i: nat)
    requires Run(cfg, states, steps) && i < |states| && states[i].phase.Saving?
    ensures StagingEmpty(states[i].bucket)
    ensures RowsIn(cfg.contents, VisiblePaths(states[i].bucket))
            == multiset(UpTo(cfg, states[i].source, states[i].phase.next) - states[i].late) + states[i].extra
  {
    hide Run, RowsIn, UpTo;
    RunInv(cfg, states, steps, i);
    RestingView(Shared, states[i].bucket);
    assert View(Shared, states[i].bucket).paths == VisiblePaths(states[i].bucket);
  }

  /** A sync that reads leaves nothing of what it found undelivered, but for what the filter drops. */
  lemma ReadCoversSource(cfg: Config, s: Sys, files: set<Path>, records: seq<Row>, s': Sys)
    requires Inv(cfg, s) && Next(cfg, s, EndSetup(files, records), s') && s'.phase.Reading?
    ensures UpTo(cfg, s.source, s'.phase.next) == set r | r in s.source && cfg.keep(r)
  {
    assert s.dest == s.cursor by {
      assert RawMeta(s.bucket) == View(Shared, s.bucket).meta by { RestingView(Shared, s.bucket); }
      hide View, Sound, Pending, RowsIn, DeliveredInv, CheckReplay;
      ReplayOutcome(cfg, s.cursor, s.dest, RawMeta(s.bucket));
    }
    hide Reached, View, RowsIn, Inv, PhaseInv;
    ReadRows(cfg, s, files, records, s');
    forall r | r in s.source && cfg.keep(r) ensures !Past(cfg, r, s'.phase.next) {
      assert Past(cfg, r, s.cursor) ==> r in s'.phase.rows;
      if Past(cfg, r, s'.phase.next) { PastAntitone(cfg, r, s.cursor, s'.phase.next); }
    }
  }

  /** metadata.json carries a thread id only when everything in the table that was made under it is visible. */
  lemma CheckpointIsVisible(cfg: Config, states: seq<Sys>, steps: seq<Step>, i: nat, t: ThreadID, r: Path)
    requires Run(cfg, states, steps) && i < |states| && OrEmpty(RawMeta(states[i].bucket)).id == Some(t)
    requires r in View(Shared, states[i].bucket).paths && r in states[i].owner && states[i].owner[r] == Some(t)
    ensures Visible(r) in states[i].bucket
  {
    hide Run, RowsIn, UpTo, CheckReplay, Coherent, PhaseInv, DeliveredInv;
    RunInv(cfg, states, steps, i);
    var b := states[i].bucket;
    FinishOwned(Shared, "");
    var k :| k in b && Shows(Shared, b, k) && DataPath(Shared, k) == r;
    assert !k.Visible? ==> FinishKey("") in b && (b[FinishKey("")], r) in Pending(Shared, b);
  }

  // ----- the code's sections are runs of this machine -----

  /** Whenever the thread enters Close with files, what `Parquet.Close` asks of its caller holds. */
  lemma CloseIsCallable(cfg: Config, s: Sys)
    requires Inv(cfg, s) && s.phase.Reading?
    ensures Sound(Shared, cfg.contents, s.bucket) && FinishState(cfg, s.cursor, s.phase.next) != EMPTY_STATE
  {
    hide Sound, View, Pending, RowsIn, UpTo;
  }

  ghost function DuringClose(cfg: Config, s: Sys, trace: seq<Bucket>, n: nat, at: nat, i: nat): Sys
    requires n <= i <= |trace| && s.phase.Closing?
  {
    var b := if i == n then s.bucket else trace[i - 1];
    if i <= at then s.(bucket := b)
    else s.(bucket := b, phase := s.phase.(published := true), dest := s.phase.next, delivered := s.delivered + s.phase.rows,
            late := s.late + Missed(cfg, s))
  }

  /** What `Parquet.Close` ensures about its trace makes each of its requests a step of the machine. */
  lemma CloseIsARun(cfg: Config, s: Sys, trace: seq<Bucket>, n: nat, at: nat, i: nat)
    requires s.phase.Closing? && !s.phase.published && s.bucket == s.start
    requires n <= at <= |trace| && KeptSince(Shared, cfg.contents, s.bucket, trace[..at], n)
    requires forall j :: at <= j < |trace| ==> Published(Shared, cfg.contents, s.bucket, s.phase.files, FinishOf(cfg, s), trace[j])
    requires n <= i < |trace|
    ensures Next(cfg, DuringClose(cfg, s, trace, n, at, i), if i == at then CommitPoint(trace[i]) else Request(trace[i]),
                 DuringClose(cfg, s, trace, n, at, i + 1))
  {
    hide Published, SameTable;
    if i < at { assert trace[..at][i] == trace[i]; }
  }
}
