/** The object store as the Parquet destination sees it: keys of one table, the objects
    behind them, and the logical table that a bucket stands for. */
module ObjectStore {
  import opened Wrappers
  import opened Listing

  type Path = string
  type ThreadID = string

  datatype Row = Row(id: nat, primary: Option<int>, secondary: Option<int>)

  /** The checkpoint document of a stream: a JSON object, or any other JSON value. */
  datatype Checkpoint = Fields(fields: map<string, Option<int>>) | Opaque(text: string)

  /** types.MetadataState; the committed-id list is only ever tested for membership. */
  datatype MetadataState = MetadataState(
    id: Option<ThreadID>,
    state: Option<Checkpoint>,
    committed: set<ThreadID>,
    dedupInserts: Option<bool>)

  const EMPTY_STATE := MetadataState(None, None, {}, None)

  datatype Object =
    | DataFile(rows: seq<Row>)
    | BackfillFinish(thread: ThreadID)
    | StreamFinish(state: MetadataState)
    | MetadataFile(state: MetadataState)

  /** Keys of one table: below `_olake_2pc/`, in the visible table path, or `metadata.json`. */
  datatype Key = Staging(rel: string) | Visible(rel: Path) | Metadata

  type Bucket = map<Key, Object>

  /** Every data-file name is created once, so its rows are a function of the name. */
  type Contents = Path -> seq<Row>

  /** The staging layout of a sync phase: one directory per full-refresh chunk, or one shared area. */
  datatype Layout = PerChunk | Shared

  // ----- keys below a staging prefix -----

  predicate Under(k: Key, p: string) {
    k.Staging? && p <= k.rel
  }

  function FinishKey(p: string): Key {
    Staging(p + FINISH)
  }

  /** The keys `promoteS3Staging` copies: neither the prefix itself nor its finish marker. */
  predicate DataUnder(k: Key, p: string) {
    Under(k, p) && k.rel != p && k != FinishKey(p)
  }

  function PathUnder(k: Key, p: string): Path
    requires Under(k, p)
  {
    k.rel[|p|..]
  }

  function FinalKey(k: Key, p: string): Key
    requires Under(k, p)
  {
    Visible(PathUnder(k, p))
  }

  ghost function StagedData(b: Bucket, p: string): set<Key> {
    set k | k in b && DataUnder(k, p)
  }

  ghost function StagedPaths(b: Bucket, p: string): set<Path> {
    set k | k in b && DataUnder(k, p) :: PathUnder(k, p)
  }

  ghost predicate StagingEmpty(b: Bucket) {
    forall k :: k in b ==> !k.Staging?
  }

  // ----- metadata -----

  function RawMeta(b: Bucket): Option<MetadataState> {
    if Metadata in b && b[Metadata].MetadataFile? then Some(b[Metadata].state) else None
  }

  function OrEmpty(m: Option<MetadataState>): MetadataState {
    if m.Some? then m.value else EMPTY_STATE
  }

  /** The full-refresh threads that metadata.json names. */
  function NamedIn(b: Bucket): set<ThreadID> {
    OrEmpty(RawMeta(b)).committed
  }

  /** `mergeState`: two JSON objects merge field by field, anything else is replaced. */
  function MergeCheckpoint(current: Option<Checkpoint>, next: Checkpoint): Checkpoint {
    if current.Some? && current.value.Fields? && next.Fields?
    then Fields(current.value.fields + next.fields)
    else next
  }

  /** `mergeStreamMetadataState`: only the parts that `next` carries are taken over. */
  function MergeState(current: MetadataState, next: MetadataState): MetadataState {
    MetadataState(
      if next.id.Some? then next.id else current.id,
      if next.state.Some? then Some(MergeCheckpoint(current.state, next.state.value)) else current.state,
      current.committed,
      if next.dedupInserts.Some? then next.dedupInserts else current.dedupInserts)
  }

  function AddCommitted(current: MetadataState, threads: set<ThreadID>): MetadataState {
    current.(committed := current.committed + threads, dedupInserts := Some(true))
  }

  /** The metadata after a finished attempt is rolled forward. */
  function AfterFinish(current: MetadataState, finish: Object): MetadataState {
    match finish
    case BackfillFinish(thread) => AddCommitted(current, {thread})
    case StreamFinish(state) => MergeState(current, state)
    case _ => current
  }

  /** metadata.json already names the attempt behind this finish marker. */
  predicate Names(current: MetadataState, finish: Object) {
    match finish
    case BackfillFinish(thread) => thread in current.committed
    case StreamFinish(state) => state.id.Some? && current.id == state.id
    case _ => false
  }

  lemma AfterFinishTwice(current: MetadataState, finish: Object)
    ensures AfterFinish(AfterFinish(current, finish), finish) == AfterFinish(current, finish)
  {
    if finish.StreamFinish? && finish.state.state.Some? {
      var once := MergeCheckpoint(current.state, finish.state.state.value);
      assert MergeCheckpoint(Some(once), finish.state.state.value) == once;
    }
  }

  function CheckpointFields(m: MetadataState): map<string, Option<int>> {
    if m.state.Some? && m.state.value.Fields? then m.state.value.fields else map[]
  }

  /** The finish marker leaves this checkpoint field to whoever wrote it. */
  predicate LeavesField(finish: Object, f: string) {
    finish.StreamFinish? && finish.state.state.Some? ==> finish.state.state.value.Fields? && f !in finish.state.state.value.fields
  }

  /** A committed checkpoint field keeps its value through a later commit exactly when that commit leaves
      the field alone or writes the same value. */
  lemma FieldSurvivesIff(current: MetadataState, finish: Object, f: string)
    requires f in CheckpointFields(current)
    ensures var after := CheckpointFields(AfterFinish(current, finish));
            f in after && after[f] == CheckpointFields(current)[f] <==>
              LeavesField(finish, f) || (finish.state.state.value.Fields? && finish.state.state.value.fields[f] == CheckpointFields(current)[f])
  {
  }

  // ----- layouts -----

  /** Whether recovery of this layout looks at the key at all. */
  predicate Owned(y: Layout, k: Key) {
    k.Staging? && (y.Shared? || HasSlash(k.rel))
  }

  function Owner(y: Layout, k: Key): string
    requires Owned(y, k)
  {
    if y.Shared? then "" else PrefixOf(k.rel)
  }

  predicate ValidPrefix(y: Layout, p: string) {
    if y.Shared? then p == "" else IsEntryPrefix(p)
  }

  lemma OwnerIffUnder(y: Layout, k: Key, p: string)
    requires ValidPrefix(y, p)
    ensures Under(k, p) <==> Owned(y, k) && Owner(y, k) == p
  {
    if k.Staging? && y.PerChunk? { PrefixIffDirectory(k.rel, p); }
  }

  lemma FinishOwned(y: Layout, p: string)
    requires ValidPrefix(y, p)
    ensures Owned(y, FinishKey(p)) && Owner(y, FinishKey(p)) == p
  {
    OwnerIffUnder(y, FinishKey(p), p);
  }

  predicate IsFinish(y: Layout, k: Key) {
    Owned(y, k) && k == FinishKey(Owner(y, k))
  }

  predicate IsStagedData(y: Layout, k: Key) {
    Owned(y, k) && DataUnder(k, Owner(y, k))
  }

  // ----- the logical table behind a bucket -----

  /** Data that is in the table or will be after recovery: visible, or staged by a finished attempt. */
  predicate Shows(y: Layout, b: Bucket, k: Key) {
    k.Visible? || (IsStagedData(y, k) && FinishKey(Owner(y, k)) in b)
  }

  predicate IsData(y: Layout, k: Key) {
    k.Visible? || IsStagedData(y, k)
  }

  function DataPath(y: Layout, k: Key): Path
    requires IsData(y, k)
  {
    if k.Visible? then k.rel else PathUnder(k, Owner(y, k))
  }

  /** Data of finished attempts that still has to be promoted, with the finish marker it belongs to. */
  ghost function Pending(y: Layout, b: Bucket): set<(Object, Path)> {
    set k | k in b && IsStagedData(y, k) && FinishKey(Owner(y, k)) in b :: (b[FinishKey(Owner(y, k))], DataPath(y, k))
  }

  datatype Table = Table(paths: set<Path>, meta: Option<MetadataState>)

  ghost function ShownPaths(y: Layout, b: Bucket): set<Path> {
    set k | k in b && Shows(y, b, k) :: DataPath(y, k)
  }

  ghost function FinishThreads(b: Bucket): set<ThreadID> {
    set k | k in b && IsFinish(PerChunk, k) && b[k].BackfillFinish? :: b[k].thread
  }

  ghost function ShownMeta(y: Layout, b: Bucket): Option<MetadataState> {
    if y.Shared? then
      if FinishKey("") in b then Some(AfterFinish(OrEmpty(RawMeta(b)), b[FinishKey("")])) else RawMeta(b)
    else
      if FinishThreads(b) == {} then RawMeta(b) else Some(AddCommitted(OrEmpty(RawMeta(b)), FinishThreads(b)))
  }

  /** What recovery turns the bucket into. */
  ghost function View(y: Layout, b: Bucket): Table {
    Table(ShownPaths(y, b), ShownMeta(y, b))
  }

  /** The table after one more finished attempt. */
  ghost function Publish(t: Table, files: set<Path>, finish: Object): Table {
    Table(t.paths + files, Some(AfterFinish(OrEmpty(t.meta), finish)))
  }

  /** One more full-refresh thread: its files, and its id among the committed ones. */
  ghost predicate AddsThread(before: Table, files: set<Path>, thread: ThreadID, after: Table) {
    && after.paths == before.paths + files && after.meta.Some?
    && after.meta.value.dedupInserts == Some(true)
    && (before.meta.None? ==> after.meta.value.id.None? && after.meta.value.state.None? && after.meta.value.committed == {thread})
    && (before.meta.Some? ==> (
      && after.meta.value.id == before.meta.value.id
      && after.meta.value.state == before.meta.value.state
      && after.meta.value.committed == before.meta.value.committed + {thread}))
  }

  /** One more stream commit: its files, and the parts of the metadata it carries over those it does not. */
  ghost predicate TakesState(before: Table, files: set<Path>, state: MetadataState, after: Table) {
    && after.paths == before.paths + files && after.meta.Some?
    && (state.id.Some? ==> after.meta.value.id == state.id)
    && (state.dedupInserts.Some? ==> after.meta.value.dedupInserts == state.dedupInserts)
    && (state.state.Some? ==> after.meta.value.state.Some?)
    && (before.meta.None? ==> (
      && after.meta.value.committed == {}
      && (state.id.None? ==> after.meta.value.id.None?)
      && (state.dedupInserts.None? ==> after.meta.value.dedupInserts.None?)
      && after.meta.value.state == state.state))
    && (before.meta.Some? ==> (
      && after.meta.value.committed == before.meta.value.committed
      && (state.id.None? ==> after.meta.value.id == before.meta.value.id)
      && (state.dedupInserts.None? ==> after.meta.value.dedupInserts == before.meta.value.dedupInserts)
      && (state.state.None? ==> after.meta.value.state == before.meta.value.state)
      && (state.state.Some? ==> OverlaysCheckpoint(before.meta.value.state, state.state.value, after.meta.value.state.value))))
  }

  /** The new checkpoint's fields over the old ones; a checkpoint without fields replaces the old one. */
  ghost predicate OverlaysCheckpoint(before: Option<Checkpoint>, next: Checkpoint, after: Checkpoint) {
    if before.Some? && before.value.Fields? && next.Fields? then
      && after.Fields?
      && (forall f :: f in after.fields <==> f in before.value.fields || f in next.fields)
      && (forall f :: f in next.fields ==> after.fields[f] == next.fields[f])
      && (forall f :: f in before.value.fields && f !in next.fields ==> after.fields[f] == before.value.fields[f])
    else after == next
  }

  lemma PublishedThread(t: Table, files: set<Path>, thread: ThreadID)
    ensures AddsThread(t, files, thread, Publish(t, files, BackfillFinish(thread)))
  {
    if t.meta.None? { assert {} + {thread} == {thread}; }
  }

  lemma PublishedState(t: Table, files: set<Path>, state: MetadataState)
    ensures TakesState(t, files, state, Publish(t, files, StreamFinish(state)))
  {
  }

  // ----- buckets the protocol can produce -----

  ghost predicate Coherent(y: Layout, c: Contents, b: Bucket) {
    forall k :: k in b && IsData(y, k) ==> b[k] == DataFile(c(DataPath(y, k)))
  }

  /** A full-refresh thread has at most one finish marker. */
  ghost predicate FinishesDistinct(y: Layout, b: Bucket) {
    y.PerChunk? ==> forall k, l :: k in b && l in b && IsFinish(y, k) && IsFinish(y, l) && b[k] == b[l] ==> k == l
  }

  /** metadata.json names a full-refresh attempt only when none of its data is still staged. Stream
      writers may use one id for many commits, so nothing of the kind holds in the shared layout. */
  ghost predicate NamedIsVisible(y: Layout, b: Bucket) {
    y.PerChunk? ==> forall k :: k in b && IsFinish(y, k) && Names(OrEmpty(RawMeta(b)), b[k]) ==> StagedData(b, Owner(y, k)) == {}
  }

  ghost predicate Sound(y: Layout, c: Contents, b: Bucket) {
    Coherent(y, c, b) && FinishesDistinct(y, b) && NamedIsVisible(y, b)
  }

  predicate MetadataReadable(b: Bucket) {
    Metadata in b ==> b[Metadata].MetadataFile?
  }

  /** Keys of the staging root that recovery of this layout does not look at. */
  ghost function Foreign(y: Layout, b: Bucket): Bucket {
    b - (set k | k in b && (!k.Staging? || Owned(y, k)))
  }

  /** Same logical table, and still a bucket the protocol can produce. In the shared layout the metadata
      is rewritten only once nothing is left to promote. */
  ghost predicate SameTable(y: Layout, c: Contents, b: Bucket, b': Bucket) {
    && Sound(y, c, b')
    && View(y, b') == View(y, b)
    && Foreign(y, b') == Foreign(y, b)
    && Pending(y, b') <= Pending(y, b)
    && NamedIn(b) <= NamedIn(b')
    && (y.Shared? ==> RawMeta(b') == RawMeta(b) || Pending(y, b') == {})
    && (MetadataReadable(b) ==> MetadataReadable(b'))
  }

  /** The one bucket with no staging left that holds this logical table. */
  ghost function TableObjects(c: Contents, t: Table): Bucket {
    (map r | r in t.paths :: Visible(r) := DataFile(c(r)))
    + (if t.meta.Some? then map[Metadata := MetadataFile(t.meta.value)] else map[])
  }

  /** Where recovery ends, as a function of where it starts. */
  ghost function Settled(y: Layout, c: Contents, b: Bucket): Bucket {
    TableObjects(c, View(y, b)) + Foreign(y, b)
  }

  ghost predicate NothingStaged(y: Layout, b: Bucket) {
    forall k :: k in b ==> !Owned(y, k)
  }

  // ----- single store operations and what they leave alone -----

  /** Any moment of promoting prefix `p`: some keys copied, some of those also removed from staging. */
  ghost predicate Promoting(p: string, b0: Bucket, b: Bucket) {
    && (forall k :: k in b0 && !DataUnder(k, p) ==> k in b)
    && (forall k :: k in b0 && k in b ==> b[k] == b0[k])
    && (forall k :: k in b0 && DataUnder(k, p) && k !in b ==> FinalKey(k, p) in b)
    && (forall k :: k in b && k !in b0 ==>
          k.Visible? && DataUnder(Staging(p + k.rel), p) && Staging(p + k.rel) in b0 && b[k] == b0[Staging(p + k.rel)])
  }

  /** Any moment of deleting prefix `p`: the finish marker goes last. */
  ghost predicate Deleting(p: string, b0: Bucket, b: Bucket) {
    && (forall k :: k in b ==> k in b0 && b[k] == b0[k])
    && (forall k :: k in b0 && k !in b ==> Under(k, p))
    && (FinishKey(p) in b0 && FinishKey(p) !in b ==> forall k :: k in b ==> !Under(k, p))
  }

  /** Any moment of uploading new files below `p`. */
  ghost predicate Uploading(p: string, c: Contents, files: set<Path>, b0: Bucket, b: Bucket) {
    && (forall k :: k in b0 ==> k in b && b[k] == b0[k])
    && (forall k :: k in b && k !in b0 ==> DataUnder(k, p) && PathUnder(k, p) in files && b[k] == DataFile(c(PathUnder(k, p))))
  }
}
