/** Bringing the row index up to date with the destination table: the scan is buffered, flushed in
    pieces and checkpointed once at its end. */
module IndexRebuild {
  import opened Wrappers
  import opened ByteCodec
  import opened IndexStore

  const FLUSH_ROWS := 200_000

  datatype Entry = Entry(id: Bytes, location: Location)

  datatype Batch = Batch(snapshotID: Int64, entries: seq<Entry>)

  /** One streamed scan: its batches, and whether it ends in an error rather than at its end. */
  datatype Scan = Scan(batches: seq<Batch>, failed: bool)

  type Rows = map<Bytes, Location>

  // ----- what a scan says -----

  function PutAll(rows: Rows, entries: seq<Entry>): Rows {
    if entries == [] then rows
    else
      var last := entries[|entries| - 1];
      PutAll(rows, entries[..|entries| - 1])[last.id := last.location]
  }

  /** All entries of a scan, a later one winning over an earlier one for the same id. */
  function Entries(batches: seq<Batch>): Rows {
    if batches == [] then map[]
    else PutAll(Entries(batches[..|batches| - 1]), batches[|batches| - 1].entries)
  }

  function Total(batches: seq<Batch>): nat {
    if batches == [] then 0 else Total(batches[..|batches| - 1]) + |batches[|batches| - 1].entries|
  }

  /** The checkpoint a scan ends with; 0 when it sent nothing. */
  function LastSnapshot(batches: seq<Batch>): Int64 {
    if batches == [] then 0 else batches[|batches| - 1].snapshotID
  }

  lemma {:induction false} PutOnto(base: Rows, rows: Rows, entries: seq<Entry>)
    ensures base + PutAll(rows, entries) == PutAll(base + rows, entries)
    decreases |entries|
  {
    if entries != [] {
      var last := entries[|entries| - 1];
      PutOnto(base, rows, entries[..|entries| - 1]);
      assert base + PutAll(rows, entries[..|entries| - 1])[last.id := last.location]
          == (base + PutAll(rows, entries[..|entries| - 1]))[last.id := last.location];
    }
  }

  lemma {:induction false} PutKeys(rows: Rows, entries: seq<Entry>)
    ensures rows.Keys <= PutAll(rows, entries).Keys
    decreases |entries|
  {
    if entries != [] {
      PutKeys(rows, entries[..|entries| - 1]);
    }
  }

  lemma {:induction false} EntriesGrow(batches: seq<Batch>, n: nat)
    requires n <= |batches|
    ensures Entries(batches[..n]).Keys <= Entries(batches).Keys
    decreases |batches|
  {
    if n < |batches| {
      var shorter := batches[..|batches| - 1];
      EntriesGrow(shorter, n);
      assert shorter[..n] == batches[..n];
      PutKeys(Entries(shorter), batches[|batches| - 1].entries);
    } else {
      assert batches[..n] == batches;
    }
  }

  // ----- and what that is, entry by entry -----

  /** Entry `j` of batch `i` is about this id. */
  ghost predicate EntryAt(batches: seq<Batch>, i: int, j: int, id: Bytes) {
    0 <= i < |batches| && 0 <= j < |batches[i].entries| && batches[i].entries[j].id == id
  }

  /** It is the last one. */
  ghost predicate LastAt(batches: seq<Batch>, i: int, j: int, id: Bytes) {
    EntryAt(batches, i, j, id) && forall a, b :: EntryAt(batches, a, b, id) ==> a < i || (a == i && b <= j)
  }

  ghost predicate Told(batches: seq<Batch>, id: Bytes) {
    exists i, j :: EntryAt(batches, i, j, id)
  }

  /** The rows after a scan: every id it told of is where its last entry puts it, every other id is where it was. */
  ghost predicate Scanned(before: Rows, batches: seq<Batch>, rows: Rows) {
    && (forall id :: id in rows <==> id in before || Told(batches, id))
    && (forall id, i, j :: LastAt(batches, i, j, id) ==> id in rows && rows[id] == batches[i].entries[j].location)
    && (forall id :: id in before && !Told(batches, id) ==> id in rows && rows[id] == before[id])
  }

  /** An id in a list of entries is where the last of its entries puts it. */
  lemma {:induction false} PutAt(rows: Rows, entries: seq<Entry>, id: Bytes) returns (j: int)
    ensures -1 <= j < |entries| && (forall k :: j < k < |entries| ==> entries[k].id != id)
    ensures j >= 0 ==> entries[j].id == id && id in PutAll(rows, entries) && PutAll(rows, entries)[id] == entries[j].location
    ensures j < 0 ==> (id in PutAll(rows, entries) <==> id in rows) && (id in rows ==> PutAll(rows, entries)[id] == rows[id])
    decreases |entries|
  {
    j := -1;
    if entries != [] {
      var n := |entries| - 1;
      if entries[n].id == id {
        j := n;
      } else {
        j := PutAt(rows, entries[..n], id);
        assert forall k :: 0 <= k < n ==> entries[..n][k] == entries[k];
      }
    }
  }

  /** The same over all batches of a scan. */
  lemma {:induction false} ToldAt(batches: seq<Batch>, id: Bytes) returns (i: int, j: int)
    ensures i < 0 ==> !Told(batches, id) && id !in Entries(batches)
    ensures i >= 0 ==> LastAt(batches, i, j, id) && id in Entries(batches) && Entries(batches)[id] == batches[i].entries[j].location
    decreases |batches|
  {
    i, j := -1, -1;
    if batches != [] {
      var n := |batches| - 1;
      var front := batches[..n];
      j := PutAt(Entries(front), batches[n].entries, id);
      if j >= 0 {
        i := n;
      } else {
        i, j := ToldAt(front, id);
        forall a, b ensures EntryAt(batches, a, b, id) <==> EntryAt(front, a, b, id) { }
      }
    }
  }

  lemma LastIsOne(batches: seq<Batch>, i: int, j: int, a: int, b: int, id: Bytes)
    requires LastAt(batches, i, j, id) && LastAt(batches, a, b, id)
    ensures i == a && j == b
  {
  }

  lemma ScannedRows(before: Rows, batches: seq<Batch>)
    ensures Scanned(before, batches, before + Entries(batches))
  {
    hide Entries;
    var rows := before + Entries(batches);
    forall id
      ensures id in rows <==> id in before || Told(batches, id)
      ensures forall i, j :: LastAt(batches, i, j, id) ==> id in rows && rows[id] == batches[i].entries[j].location
      ensures id in before && !Told(batches, id) ==> id in rows && rows[id] == before[id]
    {
      var a, b := ToldAt(batches, id);
      if a >= 0 { assert EntryAt(batches, a, b, id); }
      forall i, j | LastAt(batches, i, j, id) ensures id in rows && rows[id] == batches[i].entries[j].location {
        assert EntryAt(batches, i, j, id);
        if a >= 0 { LastIsOne(batches, i, j, a, b, id); }
      }
    }
  }

  /** A scan cut off after any of its batches and then run again leaves what one scan leaves. */
  lemma RerunSame(rows: Rows, batches: seq<Batch>, n: nat)
    requires n <= |batches|
    ensures rows + Entries(batches[..n]) + Entries(batches) == rows + Entries(batches)
  {
    EntriesGrow(batches, n);
  }

  /** Over a scan that saw other rows in between, what the cut-off scan left shows through exactly
      where the second scan is silent and the starting rows differ. */
  lemma RescanIff(rows: Rows, left: Rows, scanned: Rows)
    ensures rows + left + scanned == rows + scanned
            <==> forall id :: id in left && id !in scanned ==> id in rows && rows[id] == left[id]
  {
    var a, b := rows + left + scanned, rows + scanned;
    if forall id :: id in left && id !in scanned ==> id in rows && rows[id] == left[id] {
      assert a == b;
    } else {
      var id :| id in left && id !in scanned && !(id in rows && rows[id] == left[id]);
      assert id in a && a[id] == left[id];
      assert id in b ==> b[id] == rows[id];
    }
  }

  // ----- agreement with the table -----

  /** Every live row of the table is indexed where it is. */
  ghost predicate Covers(rows: Rows, table: Rows) {
    forall id :: id in table ==> id in rows && rows[id] == table[id]
  }

  /** A scan from the table state `since` to `table`: what it leaves out has not moved. */
  ghost predicate DeltaOf(scanned: Rows, since: Rows, table: Rows) {
    forall id :: id in table ==>
      if id in scanned then scanned[id] == table[id] else id in since && since[id] == table[id]
  }

  /** What interrupted scans left behind, oldest first. */
  function Layers(rows: Rows, left: seq<Rows>): Rows {
    if left == [] then rows else Layers(rows, left[..|left| - 1]) + left[|left| - 1]
  }

  lemma {:induction false} LayersAt(rows: Rows, left: seq<Rows>, id: Bytes)
    requires forall l :: l in left ==> id !in l
    ensures id in Layers(rows, left) <==> id in rows
    ensures id in rows ==> Layers(rows, left)[id] == rows[id]
    decreases |left|
  {
    if left != [] {
      LayersAt(rows, left[..|left| - 1], id);
    }
  }

  /** However many scans from one checkpoint were cut off, the one that completes leaves every live
      row indexed where it is, provided each scan from a checkpoint lists the live rows written since. */
  lemma InterruptedScansCover(rows: Rows, since: Rows, left: seq<Rows>, scanned: Rows, table: Rows)
    requires Covers(rows, since) && DeltaOf(scanned, since, table)
    requires forall l, id :: l in left && id in l && id in table ==> id in scanned
    ensures Covers(Layers(rows, left) + scanned, table)
  {
    forall id | id in table
      ensures id in Layers(rows, left) + scanned && (Layers(rows, left) + scanned)[id] == table[id]
    {
      if id !in scanned {
        LayersAt(rows, left, id);
      }
    }
  }

  // ----- the buffer of one thread -----

  class StreamIndexThread {
    const index: PebbleIndex
    var changes: Rows

    constructor (index: PebbleIndex)
      ensures this.index == index && changes == map[]
    {
      this.index, changes := index, map[];
    }

    method Put(key: Bytes, location: Location)
      modifies `changes
      ensures changes == old(changes)[key := location]
    {
      changes := changes[key := location];
    }

    /** A thread reads its own pending writes first: it sees the index its commit would leave. */
    method Lookup(key: Bytes) returns (r: Found)
      requires index.Valid()
      modifies index`pathToID, index`idToPath
      ensures index.Valid()
      ensures var after := Overridden(ViewOf(index.db), changes, None).rows;
              r == if key in after then At(after[key]) else Missing
    {
      hide Index, Checkpoint, Sound, Find, index.IdCacheOk, index.PathCacheOk;
      if key in changes {
        return At(changes[key]);
      }
      r := index.Lookup(key);
      FindIsIndex(index.db, key);
    }
  }

  // ----- draining a scan -----

  /** Some prefix of the scan is in the rows and the checkpoint has not moved. */
  ghost predicate Partly(start: View, batches: seq<Batch>, n: nat, view: View) {
    n <= |batches| && view == View(start.rows + Entries(batches[..n]), start.checkpoint)
  }

  function Completed(start: View, batches: seq<Batch>): View {
    View(start.rows + Entries(batches), LastSnapshot(batches))
  }

  lemma PartlyScanned(start: View, batches: seq<Batch>, n: nat, view: View)
    requires Partly(start, batches, n, view)
    ensures n <= |batches| && Scanned(start.rows, batches[..n], view.rows) && view.checkpoint == start.checkpoint
  {
    hide Scanned, Entries;
    ScannedRows(start.rows, batches[..n]);
  }

  lemma CompletedScanned(start: View, batches: seq<Batch>)
    ensures Scanned(start.rows, batches, Completed(start, batches).rows)
    ensures Completed(start, batches).checkpoint == if batches == [] then 0 else batches[|batches| - 1].snapshotID
  {
    hide Scanned, Entries;
    ScannedRows(start.rows, batches);
  }

  /** Every store a crash can leave during the scan holds a prefix of it, or all of it with its checkpoint. */
  ghost predicate RecordedScan(from: seq<Db>, to: seq<Db>, start: View, batches: seq<Batch>) {
    && from <= to
    && forall i :: |from| <= i < |to| ==>
         Sound(to[i]) && (ViewOf(to[i]) == Completed(start, batches)
                          || exists n: nat :: Partly(start, batches, n, ViewOf(to[i])))
  }

  method Buffer(pending: Rows, entries: seq<Entry>) returns (more: Rows)
    ensures more == PutAll(pending, entries) && |more| <= |pending| + |entries|
  {
    more := pending;
    for j := 0 to |entries|
      invariant more == PutAll(pending, entries[..j]) && |more| <= |pending| + j
    {
      assert entries[..j + 1][..j] == entries[..j];
      more := more[entries[j].id := entries[j].location];
    }
    assert entries[..|entries|] == entries;
  }

  /** What the scan has told so far: flushed rows overlaid with the buffer. */
  ghost predicate Drained(start: View, batches: seq<Batch>, i: nat, flushed: nat, view: View, pending: Rows) {
    && flushed <= i <= |batches|
    && Partly(start, batches, flushed, view)
    && view.rows + pending == start.rows + Entries(batches[..i])
  }

  lemma DrainedNone(start: View, batches: seq<Batch>)
    ensures Drained(start, batches, 0, 0, start, map[])
  {
    assert start.rows + map[] == start.rows;
    assert batches[..0] == [];
  }

  lemma DrainedMore(start: View, batches: seq<Batch>, i: nat, flushed: nat, view: View, pending: Rows, more: Rows)
    requires Drained(start, batches, i, flushed, view, pending) && i < |batches|
    requires more == PutAll(pending, batches[i].entries)
    ensures Drained(start, batches, i + 1, flushed, view, more)
    ensures LastSnapshot(batches[..i + 1]) == batches[i].snapshotID
    ensures Total(batches[..i + 1]) == Total(batches[..i]) + |batches[i].entries|
  {
    assert batches[..i + 1][..i] == batches[..i];
    PutOnto(view.rows, pending, batches[i].entries);
    PutOnto(start.rows, Entries(batches[..i]), batches[i].entries);
  }

  lemma DrainedFlush(start: View, batches: seq<Batch>, i: nat, flushed: nat, view: View, pending: Rows)
    requires Drained(start, batches, i, flushed, view, pending)
    ensures Drained(start, batches, i, i, Overridden(view, pending, None), map[])
  {
    assert view.rows + pending + map[] == view.rows + pending;
  }

  lemma DrainedAll(start: View, batches: seq<Batch>, flushed: nat, view: View, pending: Rows)
    requires Drained(start, batches, |batches|, flushed, view, pending)
    ensures Overridden(view, pending, Some(LastSnapshot(batches))) == Completed(start, batches)
  {
    assert batches[..|batches|] == batches;
  }

  lemma RecordedMore(from: seq<Db>, mid: seq<Db>, to: seq<Db>, start: View, batches: seq<Batch>, before: View, after: View, n: nat)
    requires RecordedScan(from, mid, start, batches) && Recorded(mid, to, before, after)
    requires Partly(start, batches, n, before)
    requires after == Completed(start, batches) || exists m: nat :: Partly(start, batches, m, after)
    ensures RecordedScan(from, to, start, batches)
  {
    hide ViewOf, Sound, Partly, Completed;
    assert forall i :: |from| <= i < |mid| ==> to[i] == mid[i];
  }

  /** `flush`: buffered rows become durable without moving the checkpoint. */
  method Flush(index: PebbleIndex, pending: Rows, ghost start: View, ghost batches: seq<Batch>, ghost i: nat,
               ghost flushed: nat, ghost from: seq<Db>) returns (ok: bool)
    requires index.Valid() && index.nextFileID + |pending| < U64
    requires Drained(start, batches, i, flushed, ViewOf(index.db), pending)
    requires RecordedScan(from, index.trace, start, batches)
    modifies index
    ensures index.Valid() && index.nextFileID <= old(index.nextFileID) + |pending|
    ensures ok ==> Drained(start, batches, i, i, ViewOf(index.db), map[])
    ensures !ok ==> ViewOf(index.db) == old(ViewOf(index.db))
    ensures RecordedScan(from, index.trace, start, batches)
  {
    hide ViewOf, Sound, index.IdCacheOk, index.PathCacheOk, Partly, Overridden, Recorded, RecordedScan;
    ghost var view, mid := ViewOf(index.db), index.trace;
    DrainedFlush(start, batches, i, flushed, view, pending);
    ok := index.Commit(pending, None);
    RecordedMore(from, mid, index.trace, start, batches, view, Overridden(view, pending, None), flushed);
  }

  /** One batch of the scan: buffer its entries, flush when enough have come together. */
  method DrainBatch(index: PebbleIndex, batches: seq<Batch>, i: nat, pending: Rows, buffered: nat, ghost start: View, ghost flushed: nat,
                    ghost from: seq<Db>, ghost first: nat)
    returns (ok: bool, pending': Rows, buffered': nat, ghost flushed': nat)
    requires i < |batches| && index.Valid() && Drained(start, batches, i, flushed, ViewOf(index.db), pending) && |pending| <= buffered
    requires index.nextFileID + buffered <= first + Total(batches[..i]) && first + Total(batches) < U64
    requires RecordedScan(from, index.trace, start, batches)
    modifies index
    ensures index.Valid() && RecordedScan(from, index.trace, start, batches)
    ensures ok ==> Drained(start, batches, i + 1, flushed', ViewOf(index.db), pending') && |pending'| <= buffered' < 200_000
    ensures ok ==> index.nextFileID + buffered' <= first + Total(batches[..i + 1])
    ensures !ok ==> Partly(start, batches, flushed', ViewOf(index.db))
    ensures LastSnapshot(batches[..i + 1]) == batches[i].snapshotID
    ensures Total(batches[..i + 1]) == Total(batches[..i]) + |batches[i].entries|
  {
    hide ViewOf, Sound, index.IdCacheOk, index.PathCacheOk, Partly, Overridden, Recorded, RecordedScan, Entries, Completed, PutAll, Total, LastSnapshot;
    TotalGrows(batches, i + 1);
    pending' := Buffer(pending, batches[i].entries);
    DrainedMore(start, batches, i, flushed, ViewOf(index.db), pending, pending');
    buffered', flushed' := buffered + |batches[i].entries|, flushed;
    ok := true;
    if buffered' >= FLUSH_ROWS {
      ok := Flush(index, pending', start, batches, i + 1, flushed, from);
      if ok {
        pending', buffered', flushed' := map[], 0, i + 1;
      }
    }
  }

  /** `drainTableIndexScan`. */
  method Drain(scan: Scan, index: PebbleIndex) returns (ok: bool, snapshotID: Int64, entries: nat, ghost flushed: nat)
    requires index.Valid() && index.nextFileID + Total(scan.batches) < U64
    modifies index
    ensures index.Valid()
    ensures ok ==> !scan.failed && ViewOf(index.db) == Completed(old(ViewOf(index.db)), scan.batches)
    ensures ok ==> Scanned(old(ViewOf(index.db)).rows, scan.batches, ViewOf(index.db).rows)
    ensures ok ==> ViewOf(index.db).checkpoint == snapshotID == (if scan.batches == [] then 0 else scan.batches[|scan.batches| - 1].snapshotID)
    ensures ok ==> entries == Total(scan.batches)
    ensures !ok ==> Partly(old(ViewOf(index.db)), scan.batches, flushed, ViewOf(index.db))
    ensures !ok ==> flushed <= |scan.batches| && Scanned(old(ViewOf(index.db)).rows, scan.batches[..flushed], ViewOf(index.db).rows)
                    && ViewOf(index.db).checkpoint == old(ViewOf(index.db)).checkpoint
    ensures RecordedScan(old(index.trace), index.trace, old(ViewOf(index.db)), scan.batches)
  {
    hide ViewOf, Sound, index.IdCacheOk, index.PathCacheOk, Partly, Overridden, Recorded, RecordedScan, Entries, Completed, Scanned;
    ghost var start := ViewOf(index.db);
    var batches := scan.batches;
    var pending: Rows := map[];
    var buffered := 0;
    ok, snapshotID, entries, flushed := false, 0, 0, 0;
    DrainedNone(start, batches);
    assert batches[..0] == [];
    RecordedNothing(index.trace, start, batches);
    for i := 0 to |batches|
      invariant index.Valid() && Drained(start, batches, i, flushed, ViewOf(index.db), pending)
      invariant |pending| <= buffered
      invariant index.nextFileID + buffered <= old(index.nextFileID) + Total(batches[..i])
      invariant snapshotID == LastSnapshot(batches[..i]) && entries == Total(batches[..i]) && !ok
      invariant RecordedScan(old(index.trace), index.trace, start, batches)
    {
      snapshotID := batches[i].snapshotID;
      entries := entries + |batches[i].entries|;
      var done;
      done, pending, buffered, flushed := DrainBatch(index, batches, i, pending, buffered, start, flushed, old(index.trace), old(index.nextFileID));
      if !done {
        PartlyScanned(start, batches, flushed, ViewOf(index.db));
        return;
      }
    }
    assert batches[..|batches|] == batches;
    PartlyScanned(start, batches, flushed, ViewOf(index.db));
    if scan.failed {
      return;
    }
    ghost var view, mid := ViewOf(index.db), index.trace;
    DrainedAll(start, batches, flushed, view, pending);
    CompletedScanned(start, batches);
    ok := index.Commit(pending, Some(snapshotID));
    RecordedMore(old(index.trace), mid, index.trace, start, batches, view, Completed(start, batches), flushed);
  }

  lemma RecordedNothing(from: seq<Db>, start: View, batches: seq<Batch>)
    ensures RecordedScan(from, from, start, batches)
  {
  }

  lemma {:induction false} TotalGrows(batches: seq<Batch>, n: nat)
    requires n <= |batches|
    ensures Total(batches[..n]) <= Total(batches)
    decreases |batches|
  {
    if n < |batches| {
      TotalGrows(batches[..|batches| - 1], n);
      assert batches[..|batches| - 1][..n] == batches[..n];
    } else {
      assert batches[..n] == batches;
    }
  }

  // ----- reconciling -----

  /** The rows a fill starts from: none when there is no snapshot to resume from. */
  function StartOf(view: View, from: Option<int>): View {
    if from.None? then View(map[], 0) else view
  }

  /** Where the next scan starts: the checkpoint, if there is one. */
  function ResumeFrom(view: View): Option<int> {
    if view.checkpoint != 0 then Some(view.checkpoint) else None
  }

  predicate UpToDate(view: View, tableSnapshot: Int64, hasEqualityDeletes: bool) {
    view.checkpoint == tableSnapshot && !hasEqualityDeletes
  }

  /** A reconciliation cut off anywhere resumes from the same point, and completing it leaves what an
      uninterrupted one leaves. */
  lemma ResumedReconcile(view: View, batches: seq<Batch>, n: nat, cut: View)
    requires cut == view || Partly(StartOf(view, ResumeFrom(view)), batches, n, cut)
    ensures ResumeFrom(cut) == ResumeFrom(view)
    ensures Completed(StartOf(cut, ResumeFrom(cut)), batches) == Completed(StartOf(view, ResumeFrom(view)), batches)
  {
    if cut != view { RerunSame(StartOf(view, ResumeFrom(view)).rows, batches, n); }
  }

  /** `fillTableIndex`. */
  method FillTableIndex(index: PebbleIndex, from: Option<int>, scan: Scan) returns (ok: bool, ghost flushed: nat)
    requires index.Valid() && index.nextFileID + Total(scan.batches) < U64
    modifies index
    ensures index.Valid()
    ensures ok ==> ViewOf(index.db) == Completed(StartOf(old(ViewOf(index.db)), from), scan.batches)
    ensures ok ==> Scanned(if from.None? then map[] else old(ViewOf(index.db)).rows, scan.batches, ViewOf(index.db).rows)
    ensures !ok ==> ViewOf(index.db) == old(ViewOf(index.db))
                    || Partly(StartOf(old(ViewOf(index.db)), from), scan.batches, flushed, ViewOf(index.db))
  {
    hide ViewOf, Sound, index.IdCacheOk, index.PathCacheOk, Partly, Completed, RecordedScan, Total, Scanned;
    flushed := 0;
    var started: bool := *;
    if !started {
      return false, 0;
    }
    if from.None? {
      ok := index.Truncate();
      if !ok {
        return;
      }
    }
    var snapshotID, entries;
    ok, snapshotID, entries, flushed := Drain(scan, index);
  }

  /** `reconcileTableIndex`, given what a scan from each starting point would send. */
  method Reconcile(index: PebbleIndex, tableSnapshot: Int64, hasEqualityDeletes: bool, migrated: bool,
                   scan: Option<int> -> Scan) returns (ok: bool, ghost flushed: nat)
    requires index.Valid()
    requires forall from :: index.nextFileID + Total(scan(from).batches) < U64
    modifies index
    ensures index.Valid()
    ensures var from := ResumeFrom(old(ViewOf(index.db)));
            var start := StartOf(old(ViewOf(index.db)), from);
            && (ok && UpToDate(old(ViewOf(index.db)), tableSnapshot, hasEqualityDeletes) ==>
                 ViewOf(index.db) == old(ViewOf(index.db)))
            && (ok && !UpToDate(old(ViewOf(index.db)), tableSnapshot, hasEqualityDeletes) ==>
                 ViewOf(index.db) == Completed(start, scan(from).batches))
            && (!ok ==> ViewOf(index.db) == old(ViewOf(index.db)) || Partly(start, scan(from).batches, flushed, ViewOf(index.db)))
    ensures var before := old(ViewOf(index.db));
            var anew, resumed := scan(None).batches, scan(Some(before.checkpoint)).batches;
            && (ok && before.checkpoint == tableSnapshot && !hasEqualityDeletes ==> ViewOf(index.db) == before)
            && (ok && (before.checkpoint != tableSnapshot || hasEqualityDeletes) ==>
                 if before.checkpoint == 0 then Scanned(map[], anew, ViewOf(index.db).rows)
                 else Scanned(before.rows, resumed, ViewOf(index.db).rows))
    ensures hasEqualityDeletes && !migrated ==> !ok && ViewOf(index.db) == old(ViewOf(index.db))
  {
    flushed := 0;
    if hasEqualityDeletes && !migrated {
      return false, 0;
    }
    var indexed := Snapshot(index.db).value;
    if indexed == tableSnapshot && !hasEqualityDeletes {
      return true, 0;
    }
    hide ViewOf, Sound, index.IdCacheOk, index.PathCacheOk, Partly, Completed, RecordedScan, Total, Scanned;
    var from := if indexed != 0 then Some(indexed) else None;
    ok, flushed := FillTableIndex(index, from, scan(from));
  }
}
