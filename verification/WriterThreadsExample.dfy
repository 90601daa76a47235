/** Why threads must not share ids: two of them update one id at the same time, and both rows stay. */
module WriterThreadsExample {
  import opened Wrappers
  import opened Upserts
  import opened ArrowWriting
  import opened WriterThreads
  import V = VectorQueues

  function OldPlace(p: PartitionKey): Location {
    Location(Path(p, 0), 0)
  }

  /** An update of the id by thread `n`, into a file of its own in the same partition. */
  function UpdateBy(n: nat, id: ID, p: PartitionKey): Entry {
    Entry(Record(id, U, p, n), Location(Path(p, n), 0))
  }

  /** What the thread's Close leaves: one data file, and the delete of the old place in a delete file or a vector. */
  function ClosedUpdate(n: nat, mode: UpdateType, id: ID, p: PartitionKey): Closed {
    var e, a := UpdateBy(n, id, p), OldPlace(p);
    var writer := Writer(None, [File(e.loc.path, [e.rec])], map[], [], [], [], [], [a]);
    if mode.DeletionVector? then
      Closed(true, mode, map[p := writer], map[id := e.loc], n + 1, [e], [Some(a)], map[a.path := V.Vector({0}, p)], multiset{a}, [(p, a)])
    else
      Closed(true, mode, map[p := writer], map[id := e.loc], n + 1, [e], [Some(a)], map[], multiset{}, [])
  }

  lemma UpdateDeletes(n: nat, id: ID, p: PartitionKey)
    ensures IndexDeletes(true, [Some(OldPlace(p))], [UpdateBy(n, id, p)]) == [(p, OldPlace(p))]
    ensures Changes([UpdateBy(n, id, p)]) == map[id := UpdateBy(n, id, p).loc]
  {
    var log, found := [UpdateBy(n, id, p)], [Some(OldPlace(p))];
    assert log[..0] == [] && found[..0] == [];
    assert Changes([]) == map[];
  }

  lemma OneFile(e: Entry)
    requires e.loc.position == 0
    ensures Placed([File(e.loc.path, [e.rec])]) == [e] && OfPartition([e], e.rec.part) == [e]
  {
    PlacedOneMore([], e.loc.path, [], e.rec);
    PlacedEmptyFile([], e.loc.path);
    assert [] + [File(e.loc.path, [] + [e.rec])] == [File(e.loc.path, [e.rec])];
    assert [] + [e] == [e];
    OfPartitionStep([], e, e.rec.part);
  }

  lemma UpdateTracks(n: nat, mode: UpdateType, id: ID, p: PartitionKey)
    requires !mode.Equality?
    ensures var c := ClosedUpdate(n, mode, id, p);
      PartitionState(true, mode, c.found, p, c.writers[p], c.n, c.log) && OfPartition(c.log, p) == c.log && Placed(c.writers[p].files) == c.log
  {
    hide Placed, OfPartition, IndexDeletes, DeletesFor;
    var c, e := ClosedUpdate(n, mode, id, p), UpdateBy(n, id, p);
    OneFile(e);
    UpdateDeletes(n, id, p);
    OneDelete(p, OldPlace(p));
    FileTracks(p, c.writers[p], e, n + 1);
  }

  lemma FileTracks(p: PartitionKey, w: Writer, e: Entry, n: nat)
    requires w.open == None && w.data == [] && w.files == [File(e.loc.path, [e.rec])] && Placed(w.files) == [e] && e.loc.path.part == p && e.loc.path.n < n
    ensures Tracks(p, w, [e], n) && w.positionalWritten + [] == w.positionalWritten
  {
    hide Placed;
    assert Layout(w) == w.files;
  }

  lemma OneDelete(p: PartitionKey, a: Location)
    ensures DeletesFor([(p, a)], p) == [a]
  {
    assert [(p, a)][..0] == [];
  }

  lemma UpdateQueue(n: nat, mode: UpdateType, id: ID, p: PartitionKey)
    requires !mode.Equality?
    ensures var c := ClosedUpdate(n, mode, id, p);
      V.QueueOk(map[], c.server, c.received, c.queued) && Carried(true, mode, c.writers, c.queued)
  {
    var c, a := ClosedUpdate(n, mode, id, p), OldPlace(p);
    if mode.DeletionVector? {
      assert c.queued == [] + [(p, a)] && c.queued[..0] == [];
      assert WrittenPositionDeletes(c.writers) == {(p, a)};
    }
  }

  lemma ClosedFields(n: nat, mode: UpdateType, id: ID, p: PartitionKey)
    ensures var c := ClosedUpdate(n, mode, id, p);
      c.upsert && c.mode == mode && c.log == [UpdateBy(n, id, p)] && c.found == [Some(OldPlace(p))] && c.writers.Keys == {p}
      && c.changes == map[id := UpdateBy(n, id, p).loc] && UpdateBy(n, id, p).rec.part == UpdateBy(n, id, p).loc.path.part == p
      && QuietWriter(c.writers[p]) && PairedWriter(true, c.writers[p])
  {
  }

  lemma UpdateCloses(n: nat, mode: UpdateType, id: ID, p: PartitionKey)
    requires !mode.Equality?
    ensures ClosedOk(ClosedUpdate(n, mode, id, p))
  {
    hide PartitionState, Placed, OfPartition, Changes, V.QueueOk, Carried, ClosedUpdate, UpdateBy, PairedWriter, QuietWriter, WriterState, ClosedFiles;
    UpdateTracks(n, mode, id, p);
    UpdateQueue(n, mode, id, p);
    UpdateDeletes(n, id, p);
    ClosedFields(n, mode, id, p);
    OneWriter(ClosedUpdate(n, mode, id, p), p, UpdateBy(n, id, p));
  }

  lemma OneWriter(c: Closed, p: PartitionKey, e: Entry)
    requires c.log == [e] && |c.found| == 1 && e.rec.part == e.loc.path.part == p && c.writers.Keys == {p} && c.changes == Changes(c.log)
    requires PartitionState(c.upsert, c.mode, c.found, p, c.writers[p], c.n, c.log) && PairedWriter(c.upsert, c.writers[p])
    requires Placed(c.writers[p].files) == OfPartition(c.log, p) && QuietWriter(c.writers[p])
    ensures WriterState(c.upsert, c.mode, c.found, c.writers, c.changes, c.n, c.log) && ClosedFiles(c.writers, c.log)
  {
    hide PartitionState, Placed, OfPartition, Changes, PairedWriter, QuietWriter;
  }

  /** The thread's own row is live afterwards, and rows that were live elsewhere stay so. */
  lemma UpdateLives(t: Table, n: nat, mode: UpdateType, id: ID, p: PartitionKey, r: Stored)
    requires !mode.Equality? && n > 0 && WellFormed(t)
    requires r in NewRows([UpdateBy(n, id, p)], t.seqNo + 1) || (Live(t, r) && r.loc != OldPlace(p))
    ensures Live(TableAfter(t, ClosedUpdate(n, mode, id, p)), r)
  {
    hide Live, ClosedOk, WellFormed, V.VectorSet, Commit, NewRows, TableAfter, ClosedUpdate, UpdateBy;
    var log := [UpdateBy(n, id, p)];
    assert r.loc != OldPlace(p) by { OwnPlace(n, id, p, t.seqNo + 1, r); }
    UpdateTable(t, n, mode, id, p);
    if mode.Position? {
      LiveAfterCommit(t, log, {}, {(p, OldPlace(p))}, {}, r);
    } else {
      LiveAfterCommit(t, log, {}, {}, V.VectorSet(ClosedUpdate(n, mode, id, p).server), r);
    }
  }

  lemma OwnPlace(n: nat, id: ID, p: PartitionKey, k: nat, r: Stored)
    requires n > 0
    ensures r in NewRows([UpdateBy(n, id, p)], k) ==> r.loc != OldPlace(p)
  {
  }

  lemma UpdateTable(t: Table, n: nat, mode: UpdateType, id: ID, p: PartitionKey)
    requires !mode.Equality?
    ensures var c, log := ClosedUpdate(n, mode, id, p), [UpdateBy(n, id, p)];
      && (mode.Position? ==> TableAfter(t, c) == Commit(t, log, {}, {(p, OldPlace(p))}, {}))
      && (mode.DeletionVector? ==> TableAfter(t, c) == Commit(t, log, {}, {}, V.VectorSet(c.server)))
      && (mode.DeletionVector? ==> forall l :: Targets(V.VectorSet(c.server), l) <==> l == OldPlace(p))
  {
    var c := ClosedUpdate(n, mode, id, p);
    ClosedFields(n, mode, id, p);
    UpdateDeletes(n, id, p);
    hide ClosedUpdate, UpdateBy, OldPlace;
    UpdateCloses(n, mode, id, p);
    hide ClosedOk, IndexDeletes, V.VectorSet, Commit, TableAfter, Targets, DeleteSet, VectorsFor;
    ClosedTable(t, c);
    var deletes := [(p, OldPlace(p))];
    assert (p, OldPlace(p)) in deletes;
    assert DeleteSet(true, c.found, c.log) == {(p, OldPlace(p))} by { SetOfOne(c, (p, OldPlace(p))); }
    if mode.DeletionVector? {
      forall l ensures Targets(V.VectorSet(c.server), l) <==> l == OldPlace(p) { TargetOfOne(c, (p, OldPlace(p)), l); }
    }
  }

  lemma SetOfOne(c: Closed, d: (PartitionKey, Location))
    requires |c.found| == |c.log| && IndexDeletes(true, c.found, c.log) == [d]
    ensures DeleteSet(true, c.found, c.log) == {d}
  {
  }

  lemma TargetOfOne(c: Closed, d: (PartitionKey, Location), l: Location)
    requires |c.found| == |c.log| && IndexDeletes(true, c.found, c.log) == [d] && VectorsFor(true, c.found, c.log, V.VectorSet(c.server))
    ensures Targets(V.VectorSet(c.server), l) <==> l == d.1
  {
    hide V.VectorSet, Targets;
    assert d in IndexDeletes(true, c.found, c.log);
  }

  lemma ClosedTable(t: Table, c: Closed)
    requires ClosedOk(c) && c.upsert && !c.mode.Equality? && |c.found| == |c.log|
    ensures c.mode.Position? ==> TableAfter(t, c) == Commit(t, c.log, {}, DeleteSet(true, c.found, c.log), {})
    ensures c.mode.DeletionVector? ==> TableAfter(t, c) == Commit(t, c.log, {}, {}, V.VectorSet(c.server)) && VectorsFor(true, c.found, c.log, V.VectorSet(c.server))
  {
    ClosedParts(c);
    hide ClosedOk, IndexDeletes, V.VectorSet, Snapshot, Commit, V.QueueOk, Carried, WriterState, ClosedFiles, Targets, VectorsFor, DeleteSet;
    if c.mode.Position? {
      ClosedIndexed(t, true, c.found, c.writers, c.changes, c.n, c.log, c.server);
    } else {
      ClosedVectors(t, true, c.found, c.writers, c.changes, c.n, c.log, c.server, c.received, c.queued);
    }
  }

  lemma ClosedParts(c: Closed)
    requires ClosedOk(c)
    ensures WriterState(c.upsert, c.mode, c.found, c.writers, c.changes, c.n, c.log) && ClosedFiles(c.writers, c.log)
    ensures V.QueueOk(map[], c.server, c.received, c.queued) && Carried(c.upsert, c.mode, c.writers, c.queued)
  {
    hide WriterState, ClosedFiles, V.QueueOk, Carried;
  }

  ghost function Before(id: ID, p: PartitionKey): Table {
    Table({Stored(Record(id, C, p, 0), OldPlace(p), 1)}, {}, {}, {}, 1)
  }

  ghost function At0(id: ID, p: PartitionKey): Sys {
    Sys(Before(id, p), map[id := OldPlace(p)], map[])
  }

  ghost function At1(mode: UpdateType, id: ID, p: PartitionKey): Sys {
    At0(id, p).(open := map[1 := Thread(true, mode, [], [], {})])
  }

  ghost function At2(mode: UpdateType, id: ID, p: PartitionKey): Sys {
    At0(id, p).(open := map[1 := Thread(true, mode, [], [], {}), 2 := Thread(true, mode, [], [], {})])
  }

  ghost function Updating(n: nat, mode: UpdateType, id: ID, p: PartitionKey): Thread {
    Thread(true, mode, [UpdateBy(n, id, p)], [Some(OldPlace(p))], {})
  }

  ghost function At3(mode: UpdateType, id: ID, p: PartitionKey): Sys {
    At0(id, p).(open := map[1 := Updating(1, mode, id, p), 2 := Thread(true, mode, [], [], {})])
  }

  ghost function At4(mode: UpdateType, id: ID, p: PartitionKey): Sys {
    At0(id, p).(open := map[1 := Updating(1, mode, id, p), 2 := Updating(2, mode, id, p)])
  }

  ghost function At5(mode: UpdateType, id: ID, p: PartitionKey): Sys {
    Sys(TableAfter(Before(id, p), ClosedUpdate(1, mode, id, p)), map[id := UpdateBy(1, id, p).loc],
        map[2 := Updating(2, mode, id, p).(overtaken := {id})])
  }

  ghost function At6(mode: UpdateType, id: ID, p: PartitionKey): Sys {
    Sys(TableAfter(At5(mode, id, p).table, ClosedUpdate(2, mode, id, p)), map[id := UpdateBy(2, id, p).loc], map[])
  }

  lemma OldTable(id: ID, p: PartitionKey)
    ensures Init(false, At0(id, p)) && WellFormed(Before(id, p))
  {
    var t := Before(id, p);
    assert Live(t, Stored(Record(id, C, p, 0), OldPlace(p), 1));
  }

  lemma OpenBoth(mode: UpdateType, id: ID, p: PartitionKey)
    requires !mode.Equality?
    ensures Next(false, At0(id, p), Open(1, true, mode), At1(mode, id, p)) && Next(false, At1(mode, id, p), Open(2, true, mode), At2(mode, id, p))
  {
    hide UpdateBy, Before;
  }

  lemma TakeFirst(mode: UpdateType, id: ID, p: PartitionKey)
    requires !mode.Equality?
    ensures Next(false, At2(mode, id, p), Take(1, UpdateBy(1, id, p)), At3(mode, id, p))
  {
    assert [] + [UpdateBy(1, id, p)] == [UpdateBy(1, id, p)] && [] + [Some(OldPlace(p))] == [Some(OldPlace(p))];
  }

  lemma TakeSecond(mode: UpdateType, id: ID, p: PartitionKey)
    requires !mode.Equality?
    ensures Next(false, At3(mode, id, p), Take(2, UpdateBy(2, id, p)), At4(mode, id, p))
  {
    assert [] + [UpdateBy(2, id, p)] == [UpdateBy(2, id, p)] && [] + [Some(OldPlace(p))] == [Some(OldPlace(p))];
  }

  lemma IndexAfterUpdate(index: map<ID, Location>, n: nat, id: ID, p: PartitionKey)
    requires index.Keys == {id}
    ensures IndexAfter(index, [UpdateBy(n, id, p)]) == map[id := UpdateBy(n, id, p).loc] && Ids([UpdateBy(n, id, p)]) == {id}
  {
    assert [UpdateBy(n, id, p)][..0] == [];
    assert UpdateBy(n, id, p) in [UpdateBy(n, id, p)];
  }

  ghost predicate Closes(th: Thread, c: Closed) {
    ClosedOk(c) && c.log == th.log && c.found == th.found && c.upsert == th.upsert && c.mode == th.mode
  }

  lemma CommitOfTwo(s: Sys, th: Thread, other: Thread, c: Closed)
    requires s.open == map[1 := th, 2 := other] && Closes(th, c)
    ensures Next(false, s, CommitThread(1, c), Sys(TableAfter(s.table, c), IndexAfter(s.index, c.log), map[2 := Passed(other, Ids(c.log))]))
  {
    hide ClosedOk, TableAfter, IndexAfter, Passed;
  }

  lemma CommitOfOne(s: Sys, th: Thread, c: Closed)
    requires s.open == map[2 := th] && Closes(th, c)
    ensures Next(false, s, CommitThread(2, c), Sys(TableAfter(s.table, c), IndexAfter(s.index, c.log), map[]))
  {
    hide ClosedOk, TableAfter, IndexAfter, Passed;
  }

  lemma UpdateIsClosed(n: nat, mode: UpdateType, id: ID, p: PartitionKey, overtaken: set<ID>)
    requires !mode.Equality?
    ensures Closes(Updating(n, mode, id, p).(overtaken := overtaken), ClosedUpdate(n, mode, id, p))
  {
    ClosedFields(n, mode, id, p);
    hide ClosedOk, ClosedUpdate, UpdateBy, OldPlace;
    UpdateCloses(n, mode, id, p);
  }

  lemma FirstCommits(mode: UpdateType, id: ID, p: PartitionKey)
    requires !mode.Equality?
    ensures Next(false, At4(mode, id, p), CommitThread(1, ClosedUpdate(1, mode, id, p)), At5(mode, id, p))
  {
    hide Next, ClosedOk, Closes, TableAfter, IndexAfter, ClosedUpdate, UpdateBy, OldPlace;
    ClosedFields(1, mode, id, p);
    UpdateIsClosed(1, mode, id, p, {});
    IndexAfterUpdate(map[id := OldPlace(p)], 1, id, p);
    IndexAfterUpdate(map[id := OldPlace(p)], 2, id, p);
    assert {} + {id} * {id} == {id};
    CommitOfTwo(At4(mode, id, p), Updating(1, mode, id, p), Updating(2, mode, id, p), ClosedUpdate(1, mode, id, p));
  }

  lemma SecondCommits(mode: UpdateType, id: ID, p: PartitionKey)
    requires !mode.Equality?
    ensures Next(false, At5(mode, id, p), CommitThread(2, ClosedUpdate(2, mode, id, p)), At6(mode, id, p))
  {
    hide Next, ClosedOk, Closes, TableAfter, IndexAfter, ClosedUpdate, UpdateBy, OldPlace;
    ClosedFields(2, mode, id, p);
    UpdateIsClosed(2, mode, id, p, {id});
    IndexAfterUpdate(map[id := UpdateBy(1, id, p).loc], 2, id, p);
    CommitOfOne(At5(mode, id, p), Updating(2, mode, id, p).(overtaken := {id}), ClosedUpdate(2, mode, id, p));
  }

  lemma BothLive(mode: UpdateType, id: ID, p: PartitionKey)
    requires !mode.Equality? && WellFormed(Before(id, p))
    ensures Live(At6(mode, id, p).table, Stored(UpdateBy(1, id, p).rec, UpdateBy(1, id, p).loc, 2))
    ensures Live(At6(mode, id, p).table, Stored(UpdateBy(2, id, p).rec, UpdateBy(2, id, p).loc, 3))
  {
    hide Live, ClosedOk, WellFormed, TableAfter, NewRows, FilesNew, ClosedUpdate, UpdateBy, Before, OldPlace;
    var t0, t1 := Before(id, p), TableAfter(Before(id, p), ClosedUpdate(1, mode, id, p));
    var q, r := Stored(UpdateBy(1, id, p).rec, UpdateBy(1, id, p).loc, 2), Stored(UpdateBy(2, id, p).rec, UpdateBy(2, id, p).loc, 3);
    OneNewRow(UpdateBy(1, id, p), 2);
    OneNewRow(UpdateBy(2, id, p), 3);
    OwnPlace(1, id, p, 2, q);
    FirstTable(mode, id, p);
    UpdateLives(t0, 1, mode, id, p, q);
    UpdateLives(t1, 2, mode, id, p, q);
    UpdateLives(t1, 2, mode, id, p, r);
  }

  lemma OneNewRow(e: Entry, n: nat)
    ensures Stored(e.rec, e.loc, n) in NewRows([e], n)
  {
    assert e in [e];
  }

  lemma FirstTable(mode: UpdateType, id: ID, p: PartitionKey)
    requires !mode.Equality? && WellFormed(Before(id, p))
    ensures Before(id, p).seqNo == 1
    ensures WellFormed(TableAfter(Before(id, p), ClosedUpdate(1, mode, id, p))) && TableAfter(Before(id, p), ClosedUpdate(1, mode, id, p)).seqNo == 2
  {
    var t0, c := Before(id, p), ClosedUpdate(1, mode, id, p);
    assert TableAfter(t0, c).seqNo == 2 && FilesNew(t0, [UpdateBy(1, id, p)]);
    ClosedFields(1, mode, id, p);
    hide ClosedOk, WellFormed, TableAfter, FilesNew, ClosedUpdate, UpdateBy;
    UpdateCloses(1, mode, id, p);
    TableAfterOk(t0, c);
  }

  lemma BothClean(mode: UpdateType, id: ID, p: PartitionKey)
    ensures CleanHits(true, mode.DeletionVector?, At4(mode, id, p).index, At4(mode, id, p).open[1].log)
    ensures CleanHits(true, mode.DeletionVector?, At5(mode, id, p).index, At5(mode, id, p).open[2].log)
  {
    hide TableAfter;
    assert [UpdateBy(1, id, p)][..0] == [] && [UpdateBy(2, id, p)][..0] == [];
  }

  /** Two threads update one id at the same time, each within the row's partition and each looking it up:
      every hit is clean, and afterwards both new rows are live. */
  lemma TwoThreadsExample(mode: UpdateType, id: ID, p: PartitionKey)
    requires !mode.Equality?
    ensures Run(false, [At0(id, p), At1(mode, id, p), At2(mode, id, p), At3(mode, id, p), At4(mode, id, p), At5(mode, id, p), At6(mode, id, p)],
                [Open(1, true, mode), Open(2, true, mode), Take(1, UpdateBy(1, id, p)), Take(2, UpdateBy(2, id, p)),
                 CommitThread(1, ClosedUpdate(1, mode, id, p)), CommitThread(2, ClosedUpdate(2, mode, id, p))])
    ensures CleanHits(true, mode.DeletionVector?, At4(mode, id, p).index, At4(mode, id, p).open[1].log)
    ensures CleanHits(true, mode.DeletionVector?, At5(mode, id, p).index, At5(mode, id, p).open[2].log)
    ensures At5(mode, id, p).open[2].overtaken == {id}
    ensures Live(At6(mode, id, p).table, Stored(UpdateBy(1, id, p).rec, UpdateBy(1, id, p).loc, 2))
    ensures Live(At6(mode, id, p).table, Stored(UpdateBy(2, id, p).rec, UpdateBy(2, id, p).loc, 3))
  {
    hide Next, Init, CleanHits, Live, UpdateBy, ClosedUpdate, Before, WellFormed, TableAfter;
    OldTable(id, p);
    OpenBoth(mode, id, p);
    TakeFirst(mode, id, p);
    TakeSecond(mode, id, p);
    FirstCommits(mode, id, p);
    SecondCommits(mode, id, p);
    BothLive(mode, id, p);
    BothClean(mode, id, p);
    hide At0, At1, At2, At3, At4, At6;
  }
}
