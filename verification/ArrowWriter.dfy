/** The Arrow writer: partitions records, predicts where each row will land, emits deletes for the
    rows a record supersedes, and keeps the id -> location overlay of the stream index. */
module ArrowWriting {
  import opened Wrappers
  import opened Upserts
  import V = VectorQueues

  /** types.UpdateType */
  datatype UpdateType = Equality | Position | DeletionVector

  /** The state of one partition. `files` are uploaded data files in creation order, `open` the rolling
      data writer with the rows it already took; the last two fields collect the deletes that went out, in
      delete files or, for positions in deletion-vector mode, through the vector queue. */
  datatype Writer = Writer(
    open: Option<File>,
    files: seq<File>,
    positions: map<ID, Location>,
    data: seq<Record>,
    equalityDeletes: seq<ID>,
    positionalDeletes: seq<Location>,
    equalityWritten: seq<ID>,
    positionalWritten: seq<Location>)

  const NEW_WRITER := Writer(None, [], map[], [], [], [], [], [])

  /** All files of the partition once the buffered records are written down. */
  function Layout(w: Writer): seq<File> {
    w.files + match w.open case None => [] case Some(f) => [File(f.path, f.rows + w.data)]
  }

  /** Paths belong to the partition, were handed out before `n`, and grow. */
  ghost predicate PathsOk(p: PartitionKey, files: seq<File>, n: nat) {
    && (forall i :: 0 <= i < |files| ==> files[i].path.part == p && files[i].path.n < n)
    && (forall i, j :: 0 <= i < j < |files| ==> files[i].path.n < files[j].path.n)
  }

  lemma PlacedOneMore(files: seq<File>, path: Path, rows: seq<Record>, rec: Record)
    ensures Placed(files + [File(path, rows + [rec])]) == Placed(files + [File(path, rows)]) + [Entry(rec, Location(path, |rows|))]
  {
    assert (files + [File(path, rows + [rec])])[..|files|] == files == (files + [File(path, rows)])[..|files|];
    assert (rows + [rec])[..|rows|] == rows;
  }

  lemma PlacedEmptyFile(files: seq<File>, path: Path)
    ensures Placed(files + [File(path, [])]) == Placed(files)
  {
    assert (files + [File(path, [])])[..|files|] == files;
  }

  // ----- one partition against its share of the log -----

  /** What the writer of partition `p` has done with the entries `s` of that partition. */
  ghost predicate Tracks(p: PartitionKey, w: Writer, s: seq<Entry>, n: nat) {
    && Placed(Layout(w)) == s
    && PathsOk(p, Layout(w), n)
    && (w.open.None? ==> w.data == [])
  }

  ghost predicate EqualityTracks(w: Writer, s: seq<Entry>) {
    && w.positions == LastLoc(s)
    && w.equalityWritten + w.equalityDeletes == EqualityDeletes(s)
    && w.positionalWritten + w.positionalDeletes == PositionDeletes(s)
  }

  /** The deletes of the indexed modes that are stamped with partition `p`. */
  function DeletesFor(deletes: seq<(PartitionKey, Location)>, p: PartitionKey): seq<Location> {
    if deletes == [] then []
    else
      var last := deletes[|deletes| - 1];
      DeletesFor(deletes[..|deletes| - 1], p) + if last.0 == p then [last.1] else []
  }

  ghost predicate IndexTracks(p: PartitionKey, w: Writer, deletes: seq<(PartitionKey, Location)>) {
    w.positionalWritten + w.positionalDeletes == DeletesFor(deletes, p) && w.equalityWritten == w.equalityDeletes == []
  }

  // ----- one record -----

  /** `getOrCreateWriter` for the data file. */
  function Opened(w: Writer, p: PartitionKey, n: nat): (r: Writer)
    ensures r.open.Some? && r.data == w.data
  {
    if w.open.Some? then w else w.(open := Some(File(Path(p, n), [])))
  }

  /** The place the code predicts for the next record. */
  function NextPlace(w: Writer): Location
    requires w.open.Some?
  {
    Location(w.open.value.path, |w.open.value.rows| + |w.data|)
  }

  lemma OpenedTracks(p: PartitionKey, w: Writer, s: seq<Entry>, n: nat)
    requires Tracks(p, w, s, n)
    ensures Tracks(p, Opened(w, p, n), s, n + 1)
  {
    if w.open.None? {
      var w' := Opened(w, p, n);
      assert w'.open.value.rows + w'.data == [];
      assert Layout(w') == w.files + [File(Path(p, n), [])] && Layout(w) == w.files;
      PlacedEmptyFile(w.files, Path(p, n));
    }
  }

  /** The prediction is right: appending to the buffer puts the record at the predicted place. */
  lemma AppendedTracks(p: PartitionKey, w: Writer, s: seq<Entry>, n: nat, rec: Record, w': Writer)
    requires Tracks(p, w, s, n) && w.open.Some?
    requires w'.open == w.open && w'.files == w.files && w'.data == w.data + [rec]
    ensures Tracks(p, w', s + [Entry(rec, NextPlace(w))], n)
  {
    var f := w.open.value;
    PlacedOneMore(w.files, f.path, f.rows + w.data, rec);
    assert f.rows + w'.data == f.rows + w.data + [rec];
    assert Layout(w') == w.files + [File(f.path, f.rows + w.data + [rec])];
    assert Layout(w) == w.files + [File(f.path, f.rows + w.data)];
    forall i | 0 <= i < |Layout(w')| ensures Layout(w')[i].path == Layout(w)[i].path { }
  }

  // ----- writing down, rolling, completing -----

  /** The data part of `Write` for one partition; `roll` says whether the size check starts a new file. */
  function WrittenDown(w: Writer, roll: bool, p: PartitionKey, n: nat): Writer
    requires w.open.Some?
  {
    var f := File(w.open.value.path, w.open.value.rows + w.data);
    if roll then w.(files := w.files + [f], open := Some(File(Path(p, n), [])), data := [])
    else w.(open := Some(f), data := [])
  }

  /** Rolling to a new file moves no row. */
  lemma WrittenDownTracks(p: PartitionKey, w: Writer, s: seq<Entry>, roll: bool, n: nat)
    requires Tracks(p, w, s, n) && w.open.Some?
    ensures Tracks(p, WrittenDown(w, roll, p, n), s, n + 1)
  {
    var w' := WrittenDown(w, roll, p, n);
    var f := File(w.open.value.path, w.open.value.rows + w.data);
    assert Layout(w) == w.files + [f];
    assert f.rows + [] == f.rows;
    if roll {
      assert w'.open.value.rows + w'.data == [];
      assert Layout(w') == w.files + [f] + [File(Path(p, n), [])];
      PlacedEmptyFile(w.files + [f], Path(p, n));
    } else {
      assert Layout(w') == w.files + [f];
    }
  }

  /** `completeWriters` for one partition: an open file without rows is dropped. */
  function Completed(w: Writer): Writer {
    w.(open := None, data := [], equalityDeletes := [], positionalDeletes := [],
       files := if w.open.Some? && w.open.value.rows != [] then w.files + [w.open.value] else w.files)
  }

  lemma CompletedTracks(p: PartitionKey, w: Writer, s: seq<Entry>, n: nat)
    requires Tracks(p, w, s, n) && w.data == []
    ensures Tracks(p, Completed(w), s, n) && Completed(w).files == Layout(Completed(w))
  {
    if w.open.Some? {
      var f := w.open.value;
      assert f.rows + w.data == f.rows;
      assert Layout(w) == w.files + [f];
      if f.rows == [] { PlacedEmptyFile(w.files, f.path); }
    }
    assert Completed(w).files + [] == Completed(w).files;
  }

  // ----- how one more log entry reaches the partitions -----

  lemma OfPartitionStep(log: seq<Entry>, e: Entry, p: PartitionKey)
    ensures OfPartition(log + [e], p) == OfPartition(log, p) + if e.rec.part == p then [e] else []
  {
    assert (log + [e])[..|log|] == log;
  }

  lemma {:induction false} UnseenPartition(upsert: bool, found: seq<Option<Location>>, log: seq<Entry>, p: PartitionKey)
    requires |found| == |log| && forall e :: e in log ==> e.rec.part != p
    ensures OfPartition(log, p) == [] && DeletesFor(IndexDeletes(upsert, found, log), p) == []
    decreases |log|
  {
    if log != [] {
      var n := |log| - 1;
      assert log == log[..n] + [log[n]] && found == found[..n] + [found[n]];
      UnseenPartition(upsert, found[..n], log[..n], p);
      IndexDeletesStep(upsert, found[..n], log[..n], found[n], log[n], p);
    }
  }

  /** The delete one entry adds, if any, goes to its own partition. */
  lemma IndexDeletesStep(upsert: bool, found: seq<Option<Location>>, log: seq<Entry>, answer: Option<Location>, e: Entry, p: PartitionKey)
    requires |found| == |log|
    ensures DeletesFor(IndexDeletes(upsert, found + [answer], log + [e]), p) == DeletesFor(IndexDeletes(upsert, found, log), p) +
      if e.rec.part == p && LooksUp(upsert, e.rec.op) && Hit(log, e.rec.id, answer).Some? then [Hit(log, e.rec.id, answer).value] else []
  {
    assert (log + [e])[..|log|] == log && (found + [answer])[..|log|] == found;
    var before, hit := IndexDeletes(upsert, found, log), Hit(log, e.rec.id, answer);
    hide Hit;
    if LooksUp(upsert, e.rec.op) && hit.Some? {
      var d := (e.rec.part, hit.value);
      assert IndexDeletes(upsert, found + [answer], log + [e]) == before + [d];
      assert (before + [d])[..|before|] == before;
    } else {
      assert IndexDeletes(upsert, found + [answer], log + [e]) == before;
    }
  }

  lemma NewWriterTracks(p: PartitionKey, n: nat)
    ensures Tracks(p, NEW_WRITER, [], n) && EqualityTracks(NEW_WRITER, []) && IndexTracks(p, NEW_WRITER, [])
  {
  }

  lemma TracksLater(p: PartitionKey, w: Writer, s: seq<Entry>, m: nat, n: nat)
    requires Tracks(p, w, s, m) && m <= n
    ensures Tracks(p, w, s, n)
  {
    hide Placed;
  }

  /** The equality-mode bookkeeping of `extract`. */
  function EqualityTaken(w: Writer, rec: Record, place: Location): Writer {
    if rec.op == R then w
    else if rec.id !in w.positions then
      w.(equalityDeletes := w.equalityDeletes + [rec.id], positions := w.positions[rec.id := place])
    else
      w.(positionalDeletes := w.positionalDeletes + [w.positions[rec.id]], positions := w.positions[rec.id := place])
  }

  lemma EqualityTakenTracks(w: Writer, s: seq<Entry>, rec: Record, place: Location)
    requires EqualityTracks(w, s)
    ensures EqualityTracks(EqualityTaken(w, rec, place), s + [Entry(rec, place)])
  {
    var e := Entry(rec, place);
    assert (s + [e])[..|s|] == s;
    hide LastLoc, EqualityDeletes, PositionDeletes;
    EqualityStep(s, e);
    if rec.op != R {
      if rec.id !in w.positions {
        assert w.equalityWritten + (w.equalityDeletes + [rec.id]) == w.equalityWritten + w.equalityDeletes + [rec.id];
      } else {
        var old_ := w.positions[rec.id];
        assert w.positionalWritten + (w.positionalDeletes + [old_]) == w.positionalWritten + w.positionalDeletes + [old_];
      }
    }
  }

  lemma EqualityStep(s: seq<Entry>, e: Entry)
    ensures LastLoc(s + [e]) == if Tracked(e) then LastLoc(s)[e.rec.id := e.loc] else LastLoc(s)
    ensures EqualityDeletes(s + [e]) == if Tracked(e) && e.rec.id !in LastLoc(s) then EqualityDeletes(s) + [e.rec.id] else EqualityDeletes(s)
    ensures PositionDeletes(s + [e]) ==
              if Tracked(e) && e.rec.id in LastLoc(s) then PositionDeletes(s) + [LastLoc(s)[e.rec.id]] else PositionDeletes(s)
  {
    assert (s + [e])[..|s|] == s;
    assert EqualityDeletes(s) + [] == EqualityDeletes(s) && PositionDeletes(s) + [] == PositionDeletes(s);
  }

  /** What `extract` records for one record in an opened writer; `hit` is what the lookup of its id gives. */
  function Taken(upsert: bool, mode: UpdateType, hit: Option<Location>, w: Writer, rec: Record): (r: Writer)
    requires w.open.Some?
    ensures r.open == w.open && r.data == w.data + [rec] && r.positionalWritten == w.positionalWritten
  {
    var t := w.(data := w.data + [rec]);
    if !mode.Equality? then
      if LooksUp(upsert, rec.op) && hit.Some? then t.(positionalDeletes := t.positionalDeletes + [hit.value]) else t
    else if upsert then EqualityTaken(t, rec, NextPlace(w))
    else t
  }

  // ----- the writer's whole state -----

  ghost predicate PartitionState(upsert: bool, mode: UpdateType, found: seq<Option<Location>>, p: PartitionKey, w: Writer, n: nat, log: seq<Entry>) {
    && |found| == |log|
    && Tracks(p, w, OfPartition(log, p), n)
    && (mode.Equality? && upsert ==> EqualityTracks(w, OfPartition(log, p)))
    && (!mode.Equality? ==> IndexTracks(p, w, IndexDeletes(upsert, found, log)))
  }

  lemma StartPartition(upsert: bool, mode: UpdateType, found: seq<Option<Location>>, p: PartitionKey, n: nat, log: seq<Entry>)
    requires |found| == |log| && forall e :: e in log ==> e.rec.part != p
    ensures PartitionState(upsert, mode, found, p, NEW_WRITER, n, log)
  {
    UnseenPartition(upsert, found, log, p);
    NewWriterTracks(p, n);
  }

  lemma OpenPartition(upsert: bool, mode: UpdateType, found: seq<Option<Location>>, p: PartitionKey, w: Writer, n: nat, log: seq<Entry>)
    requires PartitionState(upsert, mode, found, p, w, n, log)
    ensures PartitionState(upsert, mode, found, p, Opened(w, p, n), n + 1, log)
  {
    hide Tracks;
    OpenedTracks(p, w, OfPartition(log, p), n);
  }

  /** The record's own partition. */
  lemma TakenPartition(upsert: bool, mode: UpdateType, found: seq<Option<Location>>, answer: Option<Location>, w: Writer, n: nat, log: seq<Entry>, rec: Record)
    requires w.open.Some? && PartitionState(upsert, mode, found, rec.part, w, n, log)
    ensures PartitionState(upsert, mode, found + [answer], rec.part, Taken(upsert, mode, Hit(log, rec.id, answer), w, rec), n, log + [Entry(rec, NextPlace(w))])
  {
    hide Hit;
    var p, e := rec.part, Entry(rec, NextPlace(w));
    var t := Taken(upsert, mode, Hit(log, rec.id, answer), w, rec);
    OfPartitionStep(log, e, p);
    AppendedTracks(p, w, OfPartition(log, p), n, rec, t);
    hide Tracks;
    if mode.Equality? {
      if upsert { EqualityTakenTracks(w.(data := w.data + [rec]), OfPartition(log, p), rec, NextPlace(w)); }
    } else {
      IndexDeletesStep(upsert, found, log, answer, e, p);
      assert t.positionalWritten + t.positionalDeletes == w.positionalWritten + w.positionalDeletes + t.positionalDeletes[|w.positionalDeletes|..];
    }
  }

  /** Every other partition. */
  lemma OtherPartition(upsert: bool, mode: UpdateType, found: seq<Option<Location>>, answer: Option<Location>, p: PartitionKey, w: Writer, m: nat, n: nat, log: seq<Entry>, e: Entry)
    requires m <= n && PartitionState(upsert, mode, found, p, w, m, log) && e.rec.part != p
    ensures PartitionState(upsert, mode, found + [answer], p, w, n, log + [e])
  {
    OfPartitionStep(log, e, p);
    IndexDeletesStep(upsert, found, log, answer, e, p);
    TracksLater(p, w, OfPartition(log, p), m, n);
  }

  /** A predicted place has not been predicted before. */
  lemma PlaceIsNew(p: PartitionKey, w: Writer, n: nat, log: seq<Entry>, e: Entry)
    requires w.open.Some? && Tracks(p, w, OfPartition(log, p), n) && InOwnPartition(log) && e in log
    ensures e.loc != NextPlace(w) && NextPlace(w).path.part == p
  {
    OfPartitionMembers(log, p);
    var files := Layout(w);
    assert files[|files| - 1].path == w.open.value.path;
    if e.rec.part == p {
      var k :| 0 <= k < |OfPartition(log, p)| && OfPartition(log, p)[k] == e;
      var f := PlacedAt(files, k);
    }
  }

  lemma PlacesStayDistinct(p: PartitionKey, w: Writer, n: nat, log: seq<Entry>, rec: Record)
    requires w.open.Some? && rec.part == p && Tracks(p, w, OfPartition(log, p), n) && InOwnPartition(log) && DistinctLocs(log)
    ensures DistinctLocs(log + [Entry(rec, NextPlace(w))]) && InOwnPartition(log + [Entry(rec, NextPlace(w))])
  {
    hide Tracks, OfPartition, NextPlace;
    forall j | 0 <= j < |log| ensures log[j].loc != NextPlace(w) { PlaceIsNew(p, w, n, log, log[j]); }
    assert NextPlace(w).path.part == p by { OpenPathOwn(p, w, n, log); }
  }

  lemma OpenPathOwn(p: PartitionKey, w: Writer, n: nat, log: seq<Entry>)
    requires w.open.Some? && Tracks(p, w, OfPartition(log, p), n)
    ensures NextPlace(w).path.part == p
  {
    var files := Layout(w);
    assert files[|files| - 1].path == w.open.value.path;
  }

  /** One partition's share of a batch goes out: deletes, then data, perhaps a new file. */
  function Flushed(upsert: bool, w: Writer, roll: bool, p: PartitionKey, n: nat): Writer
    requires w.open.Some?
  {
    var d := WrittenDown(w, roll, p, n);
    if upsert then
      d.(equalityWritten := d.equalityWritten + d.equalityDeletes, positionalWritten := d.positionalWritten + d.positionalDeletes,
         equalityDeletes := [], positionalDeletes := [])
    else d.(equalityDeletes := [], positionalDeletes := [])
  }

  lemma FlushedPartition(upsert: bool, mode: UpdateType, found: seq<Option<Location>>, p: PartitionKey, w: Writer, roll: bool, n: nat, log: seq<Entry>)
    requires w.open.Some? && PartitionState(upsert, mode, found, p, w, n, log)
    requires !upsert ==> w.equalityDeletes == [] && w.positionalDeletes == []
    ensures PartitionState(upsert, mode, found, p, Flushed(upsert, w, roll, p, n), n + 1, log)
  {
    hide Tracks, OfPartition, EqualityDeletes, PositionDeletes, LastLoc, IndexDeletes, DeletesFor;
    WrittenDownTracks(p, w, OfPartition(log, p), roll, n);
    var f := Flushed(upsert, w, roll, p, n);
    assert f.equalityWritten + f.equalityDeletes == w.equalityWritten + w.equalityDeletes;
    assert f.positionalWritten + f.positionalDeletes == w.positionalWritten + w.positionalDeletes;
    assert Tracks(p, f, OfPartition(log, p), n + 1) by { TracksByFiles(p, WrittenDown(w, roll, p, n), f, OfPartition(log, p), n + 1); }
  }

  lemma TracksByFiles(p: PartitionKey, w: Writer, w': Writer, s: seq<Entry>, n: nat)
    requires Tracks(p, w, s, n) && w'.open == w.open && w'.files == w.files && w'.data == w.data
    ensures Tracks(p, w', s, n)
  {
  }

  lemma CompletedPartition(upsert: bool, mode: UpdateType, found: seq<Option<Location>>, p: PartitionKey, w: Writer, n: nat, log: seq<Entry>)
    requires PartitionState(upsert, mode, found, p, w, n, log)
    requires w.data == [] && w.equalityDeletes == [] && w.positionalDeletes == []
    ensures PartitionState(upsert, mode, found, p, Completed(w), n, log)
    ensures Placed(Completed(w).files) == OfPartition(log, p)
  {
    CompletedTracks(p, w, OfPartition(log, p), n);
  }

  lemma PartitionLater(upsert: bool, mode: UpdateType, found: seq<Option<Location>>, p: PartitionKey, w: Writer, m: nat, n: nat, log: seq<Entry>)
    requires m <= n && PartitionState(upsert, mode, found, p, w, m, log)
    ensures PartitionState(upsert, mode, found, p, w, n, log)
  {
    TracksLater(p, w, OfPartition(log, p), m, n);
  }

  ghost predicate PairedWriter(upsert: bool, w: Writer) {
    && (w.data == [] || !upsert ==> w.equalityDeletes == [] && w.positionalDeletes == [])
    && (w.data != [] ==> w.open.Some?)
  }

  lemma TakenPaired(upsert: bool, mode: UpdateType, hit: Option<Location>, w: Writer, rec: Record)
    requires w.open.Some? && (!upsert ==> w.equalityDeletes == [] && w.positionalDeletes == [])
    ensures PairedWriter(upsert, Taken(upsert, mode, hit, w, rec))
  {
  }

  lemma PartitionTracks(upsert: bool, mode: UpdateType, found: seq<Option<Location>>, p: PartitionKey, w: Writer, n: nat, log: seq<Entry>)
    requires PartitionState(upsert, mode, found, p, w, n, log)
    ensures Tracks(p, w, OfPartition(log, p), n)
  {
  }

  ghost predicate PartitionsOk(upsert: bool, mode: UpdateType, found: seq<Option<Location>>, writers: map<PartitionKey, Writer>, n: nat, log: seq<Entry>) {
    forall p :: p in writers ==> PartitionState(upsert, mode, found, p, writers[p], n, log) && PairedWriter(upsert, writers[p])
  }

  /** Every record taken has a writer. */
  ghost predicate Logged(writers: map<PartitionKey, Writer>, log: seq<Entry>) {
    forall e :: e in log ==> e.rec.part in writers
  }

  lemma LoggedMore(writers: map<PartitionKey, Writer>, log: seq<Entry>, e: Entry, w: Writer)
    requires Logged(writers, log)
    ensures Logged(writers[e.rec.part := w], log + [e])
  {
  }

  ghost predicate WriterState(upsert: bool, mode: UpdateType, found: seq<Option<Location>>, writers: map<PartitionKey, Writer>, changes: map<ID, Location>, n: nat, log: seq<Entry>) {
    && |found| == |log| && PartitionsOk(upsert, mode, found, writers, n, log) && Logged(writers, log)
    && (!mode.Equality? ==> changes == Changes(log))
    && DistinctLocs(log) && InOwnPartition(log)
  }

  /** One more record, once its own partition has taken it. */
  lemma TakenState(upsert: bool, mode: UpdateType, found: seq<Option<Location>>, answer: Option<Location>, writers: map<PartitionKey, Writer>, changes: map<ID, Location>,
                   m: nat, n: nat, log: seq<Entry>, w: Writer, rec: Record, taken: Writer, changes': map<ID, Location>)
    requires m <= n && WriterState(upsert, mode, found, writers, changes, m, log)
    requires w.open.Some? && PartitionState(upsert, mode, found, rec.part, w, n, log)
    requires PartitionState(upsert, mode, found + [answer], rec.part, taken, n, log + [Entry(rec, NextPlace(w))]) && PairedWriter(upsert, taken)
    requires !mode.Equality? ==> changes' == Changes(log + [Entry(rec, NextPlace(w))])
    ensures WriterState(upsert, mode, found + [answer], writers[rec.part := taken], changes', n, log + [Entry(rec, NextPlace(w))])
  {
    hide PartitionsOk, Logged, PartitionState, PairedWriter, Changes, NextPlace, DistinctLocs, InOwnPartition;
    var e := Entry(rec, NextPlace(w));
    TakenPartitions(upsert, mode, found, answer, writers, m, n, log, e, taken);
    PartitionTracks(upsert, mode, found, rec.part, w, n, log);
    PlacesStayDistinct(rec.part, w, n, log, rec);
    LoggedMore(writers, log, e, taken);
  }

  lemma TakenPartitions(upsert: bool, mode: UpdateType, found: seq<Option<Location>>, answer: Option<Location>, writers: map<PartitionKey, Writer>,
                        m: nat, n: nat, log: seq<Entry>, e: Entry, taken: Writer)
    requires m <= n && PartitionsOk(upsert, mode, found, writers, m, log)
    requires PartitionState(upsert, mode, found + [answer], e.rec.part, taken, n, log + [e]) && PairedWriter(upsert, taken)
    ensures PartitionsOk(upsert, mode, found + [answer], writers[e.rec.part := taken], n, log + [e])
  {
    hide PartitionState, PairedWriter;
    forall q | q in writers && q != e.rec.part ensures PartitionState(upsert, mode, found + [answer], q, writers[q], n, log + [e]) {
      OtherPartition(upsert, mode, found, answer, q, writers[q], m, n, log, e);
    }
  }

  /** One partition replaced by another account of the same log. */
  lemma ReplacedState(upsert: bool, mode: UpdateType, found: seq<Option<Location>>, writers: map<PartitionKey, Writer>, changes: map<ID, Location>,
                      m: nat, n: nat, log: seq<Entry>, p: PartitionKey, w: Writer)
    requires m <= n && WriterState(upsert, mode, found, writers, changes, m, log) && p in writers
    requires PartitionState(upsert, mode, found, p, w, n, log) && PairedWriter(upsert, w)
    ensures WriterState(upsert, mode, found, writers[p := w], changes, n, log)
  {
    hide PartitionState, PairedWriter, Changes, DistinctLocs, InOwnPartition;
    forall q | q in writers && q != p ensures PartitionState(upsert, mode, found, q, writers[q], n, log) {
      PartitionLater(upsert, mode, found, q, writers[q], m, n, log);
    }
  }

  // ----- deletes that have gone out -----

  ghost function WrittenPositionDeletes(writers: map<PartitionKey, Writer>): set<(PartitionKey, Location)> {
    set p, l | p in writers && l in writers[p].positionalWritten :: (p, l)
  }

  /** In deletion-vector mode the queue has been given exactly what went out, in the other modes nothing. */
  ghost predicate Carried(upsert: bool, mode: UpdateType, writers: map<PartitionKey, Writer>, queued: seq<(PartitionKey, Location)>) {
    if mode.DeletionVector? && upsert then (set d | d in queued) == WrittenPositionDeletes(writers) else queued == []
  }

  lemma CarriedSame(upsert: bool, mode: UpdateType, writers: map<PartitionKey, Writer>, queued: seq<(PartitionKey, Location)>, p: PartitionKey, w: Writer)
    requires Carried(upsert, mode, writers, queued)
    requires w.positionalWritten == if p in writers then writers[p].positionalWritten else []
    ensures Carried(upsert, mode, writers[p := w], queued)
  {
    WrittenWith(writers, p, w, []);
  }

  lemma WrittenWith(writers: map<PartitionKey, Writer>, p: PartitionKey, w: Writer, deletes: seq<Location>)
    requires w.positionalWritten == (if p in writers then writers[p].positionalWritten else []) + deletes
    ensures WrittenPositionDeletes(writers[p := w]) == WrittenPositionDeletes(writers) + (set l | l in deletes :: (p, l))
  {
  }

  lemma CarriedMore(mode: UpdateType, writers: map<PartitionKey, Writer>, queued: seq<(PartitionKey, Location)>, p: PartitionKey, w: Writer, deletes: seq<Location>)
    requires mode.DeletionVector? && Carried(true, mode, writers, queued) && p in writers
    requires w.positionalWritten == writers[p].positionalWritten + deletes
    ensures Carried(true, mode, writers[p := w], queued + V.Stamped(deletes, p))
  {
    V.StampedMembers(deletes, p);
    WrittenWith(writers, p, w, deletes);
  }

  function Get(rows: map<ID, Location>, id: ID): Option<Location> {
    if id in rows then Some(rows[id]) else None
  }

  /** types.StreamIndex: the committed index of a stream, shared by its writer threads. */
  class TableIndex {
    var rows: map<ID, Location>

    constructor (rows: map<ID, Location>)
      ensures this.rows == rows
    {
      this.rows := rows;
    }

    /** Whatever other threads commit in the meantime. */
    method OtherThreads()
      modifies this
    {
      rows := *;
    }
  }

  class ArrowWriter {
    const upsert: bool
    const mode: UpdateType
    const index: TableIndex                 // shared with the stream's other threads; unused in equality mode
    const vectors: V.VectorQueue            // pendingVectors, pendingVectorCount
    var writers: map<PartitionKey, Writer>
    var changes: map<ID, Location>          // pending index changes of this thread
    var indexing: bool                      // those changes are still to be committed
    var nextFile: nat
    ghost var log: seq<Entry>               // every record taken, with the place predicted for it
    ghost var found: seq<Option<Location>>  // what the shared index held for its id at that moment

    constructor (upsert: bool, mode: UpdateType, index: TableIndex, nextFile: nat)
      ensures this.upsert == upsert && this.mode == mode && this.index == index && this.nextFile == nextFile
      ensures fresh(vectors) && Valid() && Quiet() && log == [] && found == [] && changes == map[] && indexing == !mode.Equality?
    {
      this.upsert, this.mode, this.index, this.nextFile := upsert, mode, index, nextFile;
      vectors := new V.VectorQueue();
      writers, changes, log, found, indexing := map[], map[], [], [], !mode.Equality?;
    }

    ghost predicate Valid()
      reads this, vectors
    {
      && WriterState(upsert, mode, found, writers, changes, nextFile, log) && (indexing ==> !mode.Equality?)
      && vectors.Valid() && Carried(upsert, mode, writers, vectors.queued)
    }

    /** Between batches nothing is buffered. */
    ghost predicate Quiet()
      reads this
    {
      forall p :: p in writers ==> QuietWriter(writers[p])
    }

    /** `StreamIndexThread.Lookup`: pending changes first, then the shared index as it is now. */
    function Lookup(id: ID): (r: Option<Location>)
      requires changes == Changes(log)
      reads this, index
      ensures r == Hit(log, id, Get(index.rows, id))
    {
      if id in changes then Some(changes[id]) else Get(index.rows, id)
    }

    /** `getOrCreateWriter` */
    method GetOrCreateWriter(p: PartitionKey) returns (w: Writer)
      requires Valid()
      modifies this`nextFile
      ensures old(nextFile) <= nextFile && w.open.Some? && PartitionState(upsert, mode, found, p, w, nextFile, log)
      ensures w.positionalWritten == if p in writers then writers[p].positionalWritten else []
      ensures !upsert ==> w.equalityDeletes == [] && w.positionalDeletes == []
    {
      hide PartitionState, Changes, DistinctLocs, InOwnPartition, Carried;
      w := if p in writers then writers[p] else NEW_WRITER;
      if p !in writers { StartPartition(upsert, mode, found, p, nextFile, log); }
      if w.open.None? {
        OpenPartition(upsert, mode, found, p, w, nextFile, log);
        w := Opened(w, p, nextFile);
        nextFile := nextFile + 1;
      }
    }

    /** `extract` for one record: the log grows by the record at the place predicted for it, with what the
        shared index holds for its id just now. */
    method ExtractRecord(rec: Record) returns (place: Location)
      requires Valid()
      modifies this`writers, this`changes, this`nextFile, this`log, this`found
      ensures Valid() && log == old(log) + [Entry(rec, place)] && found == old(found) + [Get(index.rows, rec.id)]
    {
      hide WriterState, PartitionState, NextPlace, PairedWriter, Changes, Carried, V.QueueOk;
      ghost var n0, writers0, changes0 := nextFile, writers, changes;
      ghost var answer := Get(index.rows, rec.id);
      PendingChanges(upsert, mode, found, writers, changes, nextFile, log);
      var w := GetOrCreateWriter(rec.part);
      place := NextPlace(w);
      var taken := TrackRecord(w, rec, place);
      TakenState(upsert, mode, found, answer, writers0, changes0, n0, nextFile, log, w, rec, taken, changes);
      CarriedSame(upsert, mode, writers, vectors.queued, rec.part, taken);
      writers := writers[rec.part := taken];
      log, found := log + [Entry(rec, place)], found + [answer];
    }

    /** `indexRecord`, or the equality branch of `extract`: the partition's deletes and positions are those
        of the log with the record in it, and the pending changes show the record at its place. */
    method TrackRecord(w: Writer, rec: Record, place: Location) returns (taken: Writer)
      requires w.open.Some? && place == NextPlace(w) && PartitionState(upsert, mode, found, rec.part, w, nextFile, log)
      requires !upsert ==> w.equalityDeletes == [] && w.positionalDeletes == []
      requires !mode.Equality? ==> changes == Changes(log)
      modifies this`changes
      ensures PartitionState(upsert, mode, found + [Get(index.rows, rec.id)], rec.part, taken, nextFile, log + [Entry(rec, place)])
      ensures PairedWriter(upsert, taken) && (!mode.Equality? ==> changes == Changes(log + [Entry(rec, place)]))
      ensures taken.open == w.open && taken.positionalWritten == w.positionalWritten
      ensures taken.data == w.data + [rec]
      ensures mode.Equality? && upsert && rec.op in {C, U, D, I} ==> taken.positions == w.positions[rec.id := place]
      ensures mode.Equality? && upsert && rec.op in {C, U, D, I} && rec.id in w.positions ==>
                taken.equalityDeletes == w.equalityDeletes && taken.positionalDeletes == w.positionalDeletes + [w.positions[rec.id]]
      ensures mode.Equality? && upsert && rec.op in {C, U, D, I} && rec.id !in w.positions ==>
                taken.equalityDeletes == w.equalityDeletes + [rec.id] && taken.positionalDeletes == w.positionalDeletes
      ensures mode.Equality? && (!upsert || rec.op == R) ==>
                (taken.equalityDeletes, taken.positionalDeletes, taken.positions) == (w.equalityDeletes, w.positionalDeletes, w.positions)
      ensures !mode.Equality? ==> changes == old(changes)[rec.id := place]
      ensures !mode.Equality? && upsert && rec.op in {U, D, I} && rec.id in old(changes) ==>
                taken.positionalDeletes == w.positionalDeletes + [old(changes)[rec.id]]
      ensures !mode.Equality? && upsert && rec.op in {U, D, I} && rec.id !in old(changes) && rec.id in index.rows ==>
                taken.positionalDeletes == w.positionalDeletes + [index.rows[rec.id]]
      ensures !mode.Equality? && (!upsert || rec.op in {R, C} || (rec.id !in old(changes) && rec.id !in index.rows)) ==>
                taken.positionalDeletes == w.positionalDeletes
    {
      ghost var hit := Hit(log, rec.id, Get(index.rows, rec.id));
      IndexStep(map[], log, Entry(rec, place));
      hide PartitionState, IndexAfter, Hit;
      TakenPartition(upsert, mode, found, Get(index.rows, rec.id), w, nextFile, log, rec);
      TakenPaired(upsert, mode, hit, w, rec);
      taken := w.(data := w.data + [rec]);
      if !mode.Equality? {
        if upsert && rec.op != R && rec.op != C {
          var previous := Lookup(rec.id);
          if previous.Some? {
            taken := taken.(positionalDeletes := taken.positionalDeletes + [previous.value]);
          }
        }
        changes := changes[rec.id := place];
      } else if upsert && rec.op != R {
        if rec.id !in taken.positions {
          taken := taken.(equalityDeletes := taken.equalityDeletes + [rec.id], positions := taken.positions[rec.id := place]);
        } else {
          taken := taken.(positionalDeletes := taken.positionalDeletes + [taken.positions[rec.id]],
                          positions := taken.positions[rec.id := place]);
        }
      }
      assert taken == Taken(upsert, mode, hit, w, rec);
    }

    /** `Write`: extract the batch, then write every partition's share down, in any order. Other threads may
        commit to the shared index before each record. */
    method Write(records: seq<Record>)
      requires Valid() && Quiet()
      modifies this`writers, this`changes, this`nextFile, this`log, this`found, vectors, index
      ensures Valid() && Quiet()
      ensures |log| == |old(log)| + |records| && old(log) <= log && old(found) <= found
      ensures forall k :: 0 <= k < |records| ==> log[|old(log)| + k].rec == records[k]
    {
      hide WriterState, Carried, V.QueueOk;
      for k := 0 to |records|
        invariant Valid() && |log| == |old(log)| + k && old(log) <= log && old(found) <= found
        invariant forall j :: 0 <= j < k ==> log[|old(log)| + j].rec == records[j]
      {
        index.OtherThreads();
        var place := ExtractRecord(records[k]);
      }
      ghost var taken, answers := log, found;
      var todo := writers.Keys;
      while todo != {}
        invariant Valid() && log == taken && found == answers && todo <= writers.Keys
        invariant forall p :: p in writers && p !in todo ==> QuietWriter(writers[p])
        decreases |todo|
      {
        var p :| p in todo;
        WritePartition(p);
        todo := todo - {p};
      }
    }

    /** One partition's turn in `Write`: deletes go to delete files or to the vector queue, data to the
        open file, which may then be rolled over. */
    method WritePartition(p: PartitionKey)
      requires Valid() && p in writers
      modifies this`writers, this`nextFile, vectors
      ensures Valid() && writers.Keys == old(writers).Keys && QuietWriter(writers[p])
      ensures forall q :: q in writers && q != p ==> writers[q] == old(writers)[q]
    {
      hide WriterState, PartitionState, Carried, V.QueueOk;
      PartOf(upsert, mode, found, writers, changes, nextFile, log, p);
      var w := writers[p];
      if w.data == [] { return; }
      if upsert {
        if mode.DeletionVector? {
          vectors.Queue(w.positionalDeletes, p);
        }
        w := w.(positionalWritten := w.positionalWritten + w.positionalDeletes, equalityWritten := w.equalityWritten + w.equalityDeletes);
      }
      var roll: bool := *;   // whether the file has reached its target size
      w := WrittenDown(w, roll, p, nextFile);
      w := w.(equalityDeletes := [], positionalDeletes := []);
      assert w == Flushed(upsert, writers[p], roll, p, nextFile);
      FlushedPartition(upsert, mode, found, p, writers[p], roll, nextFile, log);
      ReplacedState(upsert, mode, found, writers, changes, nextFile, nextFile + 1, log, p, w);
      CarriedWrite(upsert, mode, writers, old(vectors.queued), p, w);
      writers := writers[p := w];
      nextFile := nextFile + 1;
    }

    /** `completeWriters`: close every open file; the partitions keep their position maps. */
    method CompleteWriters()
      requires Valid() && Quiet()
      modifies this`writers
      ensures Valid() && Quiet()
      ensures writers.Keys == old(writers).Keys
      ensures forall p :: p in writers ==> AllStored(writers[p], log, p)
    {
      hide WriterState, AllStored, QuietWriter, Carried, V.QueueOk;
      var todo := writers.Keys;
      while todo != {}
        invariant Valid() && Quiet() && todo <= writers.Keys == old(writers).Keys
        invariant forall p :: p in writers && p !in todo ==> AllStored(writers[p], log, p)
        decreases |todo|
      {
        var p :| p in todo;
        CompleteWriter(p);
        todo := todo - {p};
      }
    }

    method CompleteWriter(p: PartitionKey)
      requires Valid() && Quiet() && p in writers
      modifies this`writers
      ensures Valid() && Quiet() && writers.Keys == old(writers).Keys
      ensures AllStored(writers[p], log, p)
      ensures forall q :: q in writers && q != p ==> writers[q] == old(writers)[q]
    {
      hide WriterState, PartitionState, Placed, OfPartition, Carried, V.QueueOk, PairedWriter;
      PartOf(upsert, mode, found, writers, changes, nextFile, log, p);
      CompletedPartition(upsert, mode, found, p, writers[p], nextFile, log);
      CompletedPaired(upsert, writers[p]);
      ReplacedState(upsert, mode, found, writers, changes, nextFile, nextFile, log, p, Completed(writers[p]));
      CarriedSame(upsert, mode, writers, vectors.queued, p, Completed(writers[p]));
      writers := writers[p := Completed(writers[p])];
    }

    /** `EvolveSchema`: later records go to new files, nothing recorded so far moves. */
    method EvolveSchema()
      requires Valid() && Quiet()
      modifies this`writers
      ensures Valid() && Quiet() && writers.Keys == old(writers).Keys
      ensures forall p :: p in writers ==> AllStored(writers[p], log, p)
    {
      CompleteWriters();
    }

    /** `Abort`: the pending index changes are dropped. */
    method Abort()
      requires Valid()
      modifies this`indexing
      ensures Valid() && !indexing
    {
      indexing := false;
    }

    ghost function Final(): Closed
      reads this, vectors
    {
      Closed(upsert, mode, writers, changes, nextFile, log, found, vectors.server, vectors.received, vectors.queued)
    }

    /** `Close`: files completed, trailing vector positions sent, and the shared index, as the threads that
        closed before have left it, once the destination reports the snapshot committed. A missing or zero
        snapshot id, and an abort before, leave the index as it was. */
    method Close(snapshot: Option<int>)
      requires Valid() && Quiet()
      modifies this`writers, this`indexing, vectors, index
      ensures Valid() && ClosedOk(Final()) && log == old(log) && found == old(found)
      ensures index.rows == if old(indexing) && snapshot.Some? && snapshot.value != 0 then IndexAfter(old(index.rows), log) else old(index.rows)
      ensures index.rows == if old(indexing) && snapshot.Some? && snapshot.value != 0 then old(index.rows) + changes else old(index.rows)
    {
      CompleteWriters();
      assert ClosedFiles(writers, log) by { CompletedFiles(upsert, mode, found, writers, changes, nextFile, log); }
      hide ClosedFiles, V.QueueOk, WriterState, Carried, IndexAfter;
      vectors.Send();
      PendingChanges(upsert, mode, found, writers, changes, nextFile, log);
      if indexing && snapshot.Some? && snapshot.value != 0 {
        indexing := false;
        IndexIsOverlay(index.rows, log);
        index.rows := index.rows + changes;
      }
    }
  }

  lemma CompletedFiles(upsert: bool, mode: UpdateType, found: seq<Option<Location>>, writers: map<PartitionKey, Writer>, changes: map<ID, Location>, n: nat, log: seq<Entry>)
    requires WriterState(upsert, mode, found, writers, changes, n, log)
    requires forall p :: p in writers ==> AllStored(writers[p], log, p) && QuietWriter(writers[p])
    ensures ClosedFiles(writers, log)
  {
    hide Placed, OfPartition, PartitionsOk;
  }

  lemma PendingChanges(upsert: bool, mode: UpdateType, found: seq<Option<Location>>, writers: map<PartitionKey, Writer>, changes: map<ID, Location>, n: nat, log: seq<Entry>)
    requires WriterState(upsert, mode, found, writers, changes, n, log)
    ensures !mode.Equality? ==> changes == Changes(log)
  {
  }

  lemma CompletedPaired(upsert: bool, w: Writer)
    ensures PairedWriter(upsert, Completed(w))
  {
  }

  lemma CarriedWrite(upsert: bool, mode: UpdateType, writers: map<PartitionKey, Writer>, queued: seq<(PartitionKey, Location)>, p: PartitionKey, w: Writer)
    requires Carried(upsert, mode, writers, queued) && p in writers
    requires w.positionalWritten == if upsert then writers[p].positionalWritten + writers[p].positionalDeletes else writers[p].positionalWritten
    ensures Carried(upsert, mode, writers[p := w],
                    if upsert && mode.DeletionVector? then queued + V.Stamped(writers[p].positionalDeletes, p) else queued)
  {
    if upsert && mode.DeletionVector? { CarriedMore(mode, writers, queued, p, w, writers[p].positionalDeletes); }
  }

  /** The partition's uploaded files hold exactly its records, each at its logged place. */
  ghost predicate AllStored(w: Writer, log: seq<Entry>, p: PartitionKey) {
    w.open.None? && Placed(w.files) == OfPartition(log, p)
  }

  ghost predicate QuietWriter(w: Writer) {
    w.data == [] && w.equalityDeletes == [] && w.positionalDeletes == []
  }

  lemma PartOf(upsert: bool, mode: UpdateType, found: seq<Option<Location>>, writers: map<PartitionKey, Writer>, changes: map<ID, Location>, n: nat, log: seq<Entry>, p: PartitionKey)
    requires WriterState(upsert, mode, found, writers, changes, n, log) && p in writers
    ensures PartitionState(upsert, mode, found, p, writers[p], n, log) && PairedWriter(upsert, writers[p])
  {
    hide PartitionState, PairedWriter;
  }

  // ----- what a closed writer commits -----

  ghost function WrittenEqualityDeletes(writers: map<PartitionKey, Writer>): set<(PartitionKey, ID)> {
    set p, id | p in writers && id in writers[p].equalityWritten :: (p, id)
  }

  ghost function WrittenRows(writers: map<PartitionKey, Writer>, n: nat): set<Stored> {
    set p, e | p in writers && e in Placed(writers[p].files) :: Stored(e.rec, e.loc, n)
  }

  /** The snapshot made of the writer's data and delete files and of the server's vectors. */
  ghost function Snapshot(t: Table, mode: UpdateType, writers: map<PartitionKey, Writer>, server: map<Path, V.Vector>): Table {
    var deletes := if mode.DeletionVector? then Commit(t, [], WrittenEqualityDeletes(writers), {}, V.VectorSet(server))
                   else Commit(t, [], WrittenEqualityDeletes(writers), WrittenPositionDeletes(writers), {});
    deletes.(rows := t.rows + WrittenRows(writers, t.seqNo + 1))
  }

  ghost predicate ClosedFiles(writers: map<PartitionKey, Writer>, log: seq<Entry>) {
    && (forall p :: p in writers ==> Placed(writers[p].files) == OfPartition(log, p) && QuietWriter(writers[p]))
    && (forall e :: e in log ==> e.rec.part in writers)
  }

  lemma ClosedRows(t: Table, mode: UpdateType, writers: map<PartitionKey, Writer>, log: seq<Entry>, server: map<Path, V.Vector>)
    requires ClosedFiles(writers, log)
    ensures Snapshot(t, mode, writers, server) ==
              if mode.DeletionVector? then Commit(t, log, WrittenEqualityDeletes(writers), {}, V.VectorSet(server))
              else Commit(t, log, WrittenEqualityDeletes(writers), WrittenPositionDeletes(writers), {})
  {
    hide Placed, OfPartition, WrittenEqualityDeletes, WrittenPositionDeletes, V.VectorSet;
    var n := t.seqNo + 1;
    forall e | e in log ensures e in Placed(writers[e.rec.part].files) { OfPartitionMembers(log, e.rec.part); }
    forall p, e | p in writers && e in Placed(writers[p].files) ensures e in log { OfPartitionMembers(log, p); }
    assert WrittenRows(writers, n) == NewRows(log, n);
  }

  /** In equality mode the writer commits exactly the specified deletes. */
  lemma ClosedEquality(t: Table, found: seq<Option<Location>>, writers: map<PartitionKey, Writer>, changes: map<ID, Location>, n: nat, log: seq<Entry>,
                       server: map<Path, V.Vector>)
    requires WriterState(true, Equality, found, writers, changes, n, log) && ClosedFiles(writers, log)
    ensures Snapshot(t, Equality, writers, server) == EqualityCommit(t, log)
  {
    hide Commit, WriterState, ClosedFiles, WrittenEqualityDeletes, WrittenPositionDeletes;
    ClosedRows(t, Equality, writers, log, server);
    assert Partitions(log) <= writers.Keys by { LoggedPartitions(writers, log); }
    forall p | p in writers
      ensures writers[p].equalityWritten == EqualityDeletes(OfPartition(log, p)) && writers[p].positionalWritten == PositionDeletes(OfPartition(log, p))
      ensures p !in Partitions(log) ==> writers[p].equalityWritten == [] && writers[p].positionalWritten == []
    {
      QuietEquality(found, writers, changes, n, log, p);
      if p !in Partitions(log) { NothingThere(log, p); NoDeletes(); }
    }
    SameEqualityDeletes(writers, log);
    SamePositionDeletes(writers, log);
  }

  lemma NothingThere(log: seq<Entry>, p: PartitionKey)
    requires p !in Partitions(log)
    ensures OfPartition(log, p) == []
  {
    OfPartitionMembers(log, p);
    assert forall e :: e !in OfPartition(log, p);
  }

  lemma LoggedPartitions(writers: map<PartitionKey, Writer>, log: seq<Entry>)
    requires ClosedFiles(writers, log)
    ensures Partitions(log) <= writers.Keys
  {
    hide Placed, OfPartition;
  }

  lemma SameEqualityDeletes(writers: map<PartitionKey, Writer>, log: seq<Entry>)
    requires Partitions(log) <= writers.Keys
    requires forall p :: p in writers ==> writers[p].equalityWritten == EqualityDeletes(OfPartition(log, p))
    requires forall p :: p in writers && p !in Partitions(log) ==> writers[p].equalityWritten == []
    ensures WrittenEqualityDeletes(writers) == EqualityDeletesOf(log)
  {
    hide EqualityDeletes, OfPartition, Partitions;
  }

  lemma SamePositionDeletes(writers: map<PartitionKey, Writer>, log: seq<Entry>)
    requires Partitions(log) <= writers.Keys
    requires forall p :: p in writers ==> writers[p].positionalWritten == PositionDeletes(OfPartition(log, p))
    requires forall p :: p in writers && p !in Partitions(log) ==> writers[p].positionalWritten == []
    ensures WrittenPositionDeletes(writers) == PositionDeletesOf(log)
  {
    hide PositionDeletes, OfPartition, Partitions;
  }

  lemma NoDeletes()
    ensures EqualityDeletes([]) == [] && PositionDeletes([]) == []
  {
  }

  lemma QuietEquality(found: seq<Option<Location>>, writers: map<PartitionKey, Writer>, changes: map<ID, Location>, n: nat, log: seq<Entry>, p: PartitionKey)
    requires WriterState(true, Equality, found, writers, changes, n, log) && p in writers && ClosedFiles(writers, log)
    ensures writers[p].equalityWritten == EqualityDeletes(OfPartition(log, p)) && writers[p].positionalWritten == PositionDeletes(OfPartition(log, p))
  {
    hide Tracks, EqualityDeletes, PositionDeletes, OfPartition, LastLoc, Placed;
    PartOf(true, Equality, found, writers, changes, n, log, p);
    assert writers[p].equalityWritten + [] == writers[p].equalityWritten;
    assert writers[p].positionalWritten + [] == writers[p].positionalWritten;
  }

  lemma {:induction false} DeletesForMembers(deletes: seq<(PartitionKey, Location)>, p: PartitionKey, l: Location)
    ensures l in DeletesFor(deletes, p) <==> (p, l) in deletes
    decreases |deletes|
  {
    if deletes != [] {
      var front := deletes[..|deletes| - 1];
      assert deletes == front + [deletes[|deletes| - 1]];
      DeletesForMembers(front, p, l);
    }
  }

  /** A delete is due to a record that was looked up, in the partition it is stamped with. */
  lemma {:induction false} DeletesOfRecords(upsert: bool, found: seq<Option<Location>>, log: seq<Entry>, d: (PartitionKey, Location)) returns (k: nat)
    requires |found| == |log| && d in IndexDeletes(upsert, found, log)
    ensures k < |log| && log[k].rec.part == d.0 && LooksUp(upsert, log[k].rec.op) && Hit(log[..k], log[k].rec.id, found[k]) == Some(d.1)
    decreases |log|
  {
    var n := |log| - 1;
    if d in IndexDeletes(upsert, found[..n], log[..n]) {
      k := DeletesOfRecords(upsert, found[..n], log[..n], d);
      assert log[..n][..k] == log[..k];
    } else {
      k := n;
    }
  }

  /** What went out is, partition by partition, exactly what the log prescribes. */
  lemma ClosedDeletes(upsert: bool, mode: UpdateType, found: seq<Option<Location>>, writers: map<PartitionKey, Writer>, changes: map<ID, Location>, n: nat, log: seq<Entry>)
    requires |found| == |log| && !mode.Equality? && WriterState(upsert, mode, found, writers, changes, n, log) && ClosedFiles(writers, log)
    ensures WrittenEqualityDeletes(writers) == {} && WrittenPositionDeletes(writers) == DeleteSet(upsert, found, log)
  {
    hide WriterState, ClosedFiles, IndexDeletes, DeletesFor;
    forall p | p in writers ensures writers[p].equalityWritten == [] && writers[p].positionalWritten == DeletesFor(IndexDeletes(upsert, found, log), p) {
      QuietIndexed(upsert, mode, found, writers, changes, n, log, p);
    }
    forall p, l | p in writers && l in writers[p].positionalWritten ensures (p, l) in DeleteSet(upsert, found, log) {
      DeletesForMembers(IndexDeletes(upsert, found, log), p, l);
    }
    forall d | d in DeleteSet(upsert, found, log) ensures d.0 in writers && d.1 in writers[d.0].positionalWritten {
      WrittenPartition(writers, upsert, found, log, d);
      DeletesForMembers(IndexDeletes(upsert, found, log), d.0, d.1);
    }
  }

  /** With positional delete files the writer commits exactly the specified deletes. */
  lemma ClosedIndexed(t: Table, upsert: bool, found: seq<Option<Location>>, writers: map<PartitionKey, Writer>, changes: map<ID, Location>, n: nat, log: seq<Entry>,
                      server: map<Path, V.Vector>)
    requires WriterState(upsert, Position, found, writers, changes, n, log) && ClosedFiles(writers, log)
    ensures Snapshot(t, Position, writers, server) == IndexedCommit(t, upsert, found, log)
  {
    hide Commit, WriterState, ClosedFiles, WrittenEqualityDeletes, WrittenPositionDeletes, DeleteSet;
    ClosedRows(t, Position, writers, log, server);
    SameLength(upsert, Position, found, writers, changes, n, log);
    ClosedDeletes(upsert, Position, found, writers, changes, n, log);
  }

  /** With deletion vectors it commits vectors that name exactly the superseded places, one vector per file. */
  lemma ClosedVectors(t: Table, upsert: bool, found: seq<Option<Location>>, writers: map<PartitionKey, Writer>, changes: map<ID, Location>, n: nat, log: seq<Entry>,
                      server: map<Path, V.Vector>, received: multiset<Location>, queued: seq<(PartitionKey, Location)>)
    requires WriterState(upsert, DeletionVector, found, writers, changes, n, log) && ClosedFiles(writers, log)
    requires V.QueueOk(map[], server, received, queued) && Carried(upsert, DeletionVector, writers, queued)
    ensures Snapshot(t, DeletionVector, writers, server) == Commit(t, log, {}, {}, V.VectorSet(server))
    ensures VectorsFor(upsert, found, log, V.VectorSet(server))
  {
    hide Commit, WriterState, ClosedFiles, WrittenEqualityDeletes, WrittenPositionDeletes, DeleteSet, V.VectorSet, V.QueueOk, Carried, Targets, IndexDeletes;
    ClosedRows(t, DeletionVector, writers, log, server);
    SameLength(upsert, DeletionVector, found, writers, changes, n, log);
    ClosedDeletes(upsert, DeletionVector, found, writers, changes, n, log);
    forall l ensures Targets(V.VectorSet(server), l) <==> Reaches(true, IndexDeletes(upsert, found, log), l) {
      V.SentIsPublished(server, received, queued, l);
      QueuedIsPrescribed(upsert, found, writers, log, queued, l);
    }
  }

  lemma QueuedIsPrescribed(upsert: bool, found: seq<Option<Location>>, writers: map<PartitionKey, Writer>, log: seq<Entry>, queued: seq<(PartitionKey, Location)>, l: Location)
    requires |found| == |log| && Carried(upsert, DeletionVector, writers, queued) && WrittenPositionDeletes(writers) == DeleteSet(upsert, found, log)
    ensures (exists d :: d in queued && d.1 == l) <==> Reaches(true, IndexDeletes(upsert, found, log), l)
  {
    if upsert {
      assert forall d :: d in queued <==> d in DeleteSet(upsert, found, log);
      assert forall d :: d in DeleteSet(upsert, found, log) <==> d in IndexDeletes(upsert, found, log);
    } else {
      NoLookupsNoDeletes(found, log);
    }
  }

  lemma {:induction false} NoLookupsNoDeletes(found: seq<Option<Location>>, log: seq<Entry>)
    requires |found| == |log|
    ensures IndexDeletes(false, found, log) == []
    decreases |log|
  {
    if log != [] { NoLookupsNoDeletes(found[..|log| - 1], log[..|log| - 1]); }
  }

  /** The stamp of a file's vector is the partition of a record that superseded a row of the file. So it is
      the file's own partition as soon as every record that superseded a row of the file stayed in it. */
  lemma StampOfRecord(upsert: bool, found: seq<Option<Location>>, writers: map<PartitionKey, Writer>, changes: map<ID, Location>, n: nat, log: seq<Entry>,
                      server: map<Path, V.Vector>, received: multiset<Location>, queued: seq<(PartitionKey, Location)>, path: Path) returns (k: nat)
    requires WriterState(upsert, DeletionVector, found, writers, changes, n, log) && ClosedFiles(writers, log)
    requires V.QueueOk(map[], server, received, queued) && Carried(upsert, DeletionVector, writers, queued) && path in server
    ensures k < |log| && LooksUp(upsert, log[k].rec.op) && Hit(log[..k], log[k].rec.id, found[k]).Some?
    ensures Hit(log[..k], log[k].rec.id, found[k]).value.path == path && server[path].stamp == log[k].rec.part
  {
    hide WriterState, ClosedFiles, DeleteSet, IndexDeletes, WrittenPositionDeletes, Hit;
    SameLength(upsert, DeletionVector, found, writers, changes, n, log);
    ClosedDeletes(upsert, DeletionVector, found, writers, changes, n, log);
    var touch := V.FirstToucher(queued, path);
    var d := queued[touch];
    assert d in DeleteSet(upsert, found, log);
    InDeleteSet(upsert, found, log, d);
    k := DeletesOfRecords(upsert, found, log, d);
  }

  lemma SameLength(upsert: bool, mode: UpdateType, found: seq<Option<Location>>, writers: map<PartitionKey, Writer>, changes: map<ID, Location>, n: nat, log: seq<Entry>)
    requires WriterState(upsert, mode, found, writers, changes, n, log)
    ensures |found| == |log|
  {
  }

  lemma InDeleteSet(upsert: bool, found: seq<Option<Location>>, log: seq<Entry>, d: (PartitionKey, Location))
    requires |found| == |log| && d in DeleteSet(upsert, found, log)
    ensures d in IndexDeletes(upsert, found, log)
  {
  }

  lemma WrittenPartition(writers: map<PartitionKey, Writer>, upsert: bool, found: seq<Option<Location>>, log: seq<Entry>, d: (PartitionKey, Location))
    requires |found| == |log| && ClosedFiles(writers, log) && d in IndexDeletes(upsert, found, log)
    ensures d.0 in writers
  {
    hide Placed, OfPartition, IndexDeletes, Hit;
    var k := DeletesOfRecords(upsert, found, log, d);
    assert log[k] in log;
  }

  lemma QuietIndexed(upsert: bool, mode: UpdateType, found: seq<Option<Location>>, writers: map<PartitionKey, Writer>, changes: map<ID, Location>, n: nat, log: seq<Entry>, p: PartitionKey)
    requires |found| == |log| && !mode.Equality? && WriterState(upsert, mode, found, writers, changes, n, log) && p in writers && ClosedFiles(writers, log)
    ensures writers[p].equalityWritten == [] && writers[p].positionalWritten == DeletesFor(IndexDeletes(upsert, found, log), p)
  {
    hide Tracks, OfPartition, Placed, IndexDeletes, DeletesFor;
    PartOf(upsert, mode, found, writers, changes, n, log, p);
    assert writers[p].positionalWritten + [] == writers[p].positionalWritten;
  }

  // ----- what a commit leaves -----

  /** A closed writer, the server's vectors and the queue behind them. */
  datatype Closed = Closed(
    upsert: bool, mode: UpdateType, writers: map<PartitionKey, Writer>, changes: map<ID, Location>, n: nat, log: seq<Entry>,
    found: seq<Option<Location>>, server: map<Path, V.Vector>, received: multiset<Location>, queued: seq<(PartitionKey, Location)>)

  /** What `ArrowWriter.Close` leaves. */
  ghost predicate ClosedOk(c: Closed) {
    && WriterState(c.upsert, c.mode, c.found, c.writers, c.changes, c.n, c.log) && ClosedFiles(c.writers, c.log)
    && V.QueueOk(map[], c.server, c.received, c.queued) && Carried(c.upsert, c.mode, c.writers, c.queued)
  }

  ghost function TableAfter(t: Table, c: Closed): Table {
    Snapshot(t, c.mode, c.writers, c.server)
  }

  /** No file of the table is one of the writer's own. */
  ghost predicate FilesNew(t: Table, log: seq<Entry>) {
    forall r, e :: r in t.rows && e in log ==> r.loc.path != e.loc.path
  }

  /** The index answered with places where the table has or had a row of that id. */
  ghost predicate AnswersStored(t: Table, found: seq<Option<Location>>, log: seq<Entry>)
    requires |found| == |log|
  {
    forall k :: 0 <= k < |found| && found[k].Some? ==> exists r :: r in t.rows && r.loc == found[k].value && r.rec.id == log[k].rec.id
  }

  lemma ClosedIsFresh(t: Table, c: Closed)
    requires ClosedOk(c) && FilesNew(t, c.log)
    ensures FreshLocs(t, c.log) && InOwnPartition(c.log) && DistinctLocs(c.log) && |c.found| == |c.log|
  {
    hide PartitionsOk, Logged, ClosedFiles, V.QueueOk, Carried, Changes;
    forall r, k | r in t.rows && 0 <= k < |c.log| ensures r.loc != c.log[k].loc { assert c.log[k] in c.log; }
  }

  /** The committed table is well formed, and its files are the old ones and the writer's. */
  lemma TableAfterOk(t: Table, c: Closed)
    requires ClosedOk(c) && WellFormed(t) && FilesNew(t, c.log)
    ensures WellFormed(TableAfter(t, c)) && TableAfter(t, c).rows == t.rows + NewRows(c.log, t.seqNo + 1)
  {
    ClosedIsFresh(t, c);
    hide WriterState, ClosedFiles, Carried, V.VectorSet, V.QueueOk, WellFormed, FreshLocs, WrittenEqualityDeletes, WrittenPositionDeletes, Snapshot, NewRows, Commit;
    ClosedRows(t, c.mode, c.writers, c.log, c.server);
    var eqs, poss, vecs := WrittenEqualityDeletes(c.writers), WrittenPositionDeletes(c.writers), V.VectorSet(c.server);
    CommitWellFormed(t, c.log, eqs, {}, vecs);
    CommitWellFormed(t, c.log, eqs, poss, {});
    CommitRows(t, c.log, eqs, {}, vecs);
    CommitRows(t, c.log, eqs, poss, {});
  }

  lemma CommitRows(t: Table, entries: seq<Entry>, eqs: set<(PartitionKey, ID)>, poss: set<(PartitionKey, Location)>, vecs: set<(PartitionKey, Location)>)
    ensures Commit(t, entries, eqs, poss, vecs).rows == t.rows + NewRows(entries, t.seqNo + 1)
  {
  }

  /** Equality mode is last-write-wins, whatever other threads have committed since the writer began: after
      Close and commit no partition has two live rows of one id, and every id written has its latest record
      live in its partition. */
  lemma EqualityWriterWins(t: Table, c: Closed)
    requires ClosedOk(c) && c.mode.Equality? && c.upsert && WellFormed(t) && FilesNew(t, c.log) && OnePerId(t)
    requires forall e :: e in c.log ==> e.rec.op in {C, U, D, I}
    ensures OnePerId(TableAfter(t, c))
    ensures forall e :: e in c.log ==>
              exists k :: 0 <= k < |c.log| && c.log[k].rec.part == e.rec.part && c.log[k].rec.id == e.rec.id && Newest(c.log, k)
                          && Live(TableAfter(t, c), Stored(c.log[k].rec, c.log[k].loc, t.seqNo + 1))
  {
    ClosedIsFresh(t, c);
    ClosedEquality(t, c.found, c.writers, c.changes, c.n, c.log, c.server);
    hide ClosedOk, EqualityCommit, Live, Newest, FreshLocs, WellFormed, Snapshot;
    forall q, r | Live(TableAfter(t, c), q) && Live(TableAfter(t, c), r) && q.loc.path.part == r.loc.path.part && q.rec.id == r.rec.id ensures q == r {
      EqualityLastWriteWins(t, c.log, q, r);
    }
    forall e | e in c.log
      ensures exists k :: 0 <= k < |c.log| && c.log[k].rec.part == e.rec.part && c.log[k].rec.id == e.rec.id && Newest(c.log, k)
                          && Live(TableAfter(t, c), Stored(c.log[k].rec, c.log[k].loc, t.seqNo + 1))
    {
      var k := LatestExists(t, c.log, e);
    }
  }

  /** The indexed modes, with the table and the index as they are when the writer commits, whatever other
      threads have done since it began: the index afterwards points at the one live row of every id if and
      only if every record that met an indexed id was looked up, stayed in its partition (with positional
      delete files), and had been answered with what the index still holds. */
  lemma IndexedWriterExact(t: Table, index: map<ID, Location>, c: Closed)
    requires ClosedOk(c) && !c.mode.Equality? && WellFormed(t) && FilesNew(t, c.log) && IndexExact(LiveRows(t), index)
    requires |c.found| == |c.log| && AnswersStored(t, c.found, c.log)
    ensures IndexExact(LiveRows(TableAfter(t, c)), IndexAfter(index, c.log)) <==>
              CleanHits(c.upsert, c.mode.DeletionVector?, index, c.log) && Current(index, c.found, c.log)
  {
    ClosedIsFresh(t, c);
    ReadyToCommit(t, index, c);
    hide WriterState, ClosedFiles, V.QueueOk, Carried, Ready, WellFormed, IndexExact, CleanHits, Current, Commit, V.VectorSet, VectorsFor, Snapshot;
    if c.mode.Position? {
      ClosedIndexed(t, c.upsert, c.found, c.writers, c.changes, c.n, c.log, c.server);
      IndexedLastWriteWins(t, c.upsert, index, c.found, c.log);
    } else {
      ClosedVectors(t, c.upsert, c.found, c.writers, c.changes, c.n, c.log, c.server, c.received, c.queued);
      VectorLastWriteWins(t, c.upsert, index, c.found, c.log, V.VectorSet(c.server));
    }
  }

  lemma ReadyToCommit(t: Table, index: map<ID, Location>, c: Closed)
    requires WellFormed(t) && FilesNew(t, c.log) && IndexExact(LiveRows(t), index)
    requires |c.found| == |c.log| && AnswersStored(t, c.found, c.log)
    requires FreshLocs(t, c.log) && InOwnPartition(c.log) && DistinctLocs(c.log)
    ensures Ready(LiveRows(t), index, c.found, c.log)
  {
    forall e, id | e in c.log && id in index ensures index[id] != e.loc {
      var r :| r in LiveRows(t) && r.rec.id == id && r.loc == index[id];
      LiveIsStored(t, r);
    }
    forall e, r | e in c.log && r in LiveRows(t) ensures r.loc != e.loc { LiveIsStored(t, r); }
    forall k | 0 <= k < |c.found| && c.found[k].Some?
      ensures forall e :: e in c.log ==> e.loc != c.found[k].value
      ensures forall r :: r in LiveRows(t) && r.loc == c.found[k].value ==> r.rec.id == c.log[k].rec.id
    {
      var q :| q in t.rows && q.loc == c.found[k].value && q.rec.id == c.log[k].rec.id;
      forall r | r in LiveRows(t) && r.loc == c.found[k].value ensures r == q { LiveIsStored(t, r); }
    }
  }

  /** With an exact index every indexed id has exactly one live row. */
  lemma OneLiveRow(t: Table, index: map<ID, Location>, id: ID)
    requires IndexExact(LiveRows(t), index) && WellFormed(t) && id in index
    ensures exists r :: Live(t, r) && r.rec.id == id && r.loc == index[id] && forall q :: Live(t, q) && q.rec.id == id ==> q == r
  {
    hide Live;
    var r :| r in LiveRows(t) && r.rec.id == id && r.loc == index[id];
    LiveLocsDistinct(t);
  }

  /** Location prediction is exact in every state: the place recorded for a record is where it is, or
      where the buffered data will put it, whatever batches, rolls and schema changes came between. */
  lemma PredictionExact(upsert: bool, mode: UpdateType, found: seq<Option<Location>>, writers: map<PartitionKey, Writer>, changes: map<ID, Location>, n: nat, log: seq<Entry>, e: Entry)
    returns (f: nat)
    requires WriterState(upsert, mode, found, writers, changes, n, log) && e in log
    ensures e.rec.part in writers && f < |Layout(writers[e.rec.part])|
    ensures Layout(writers[e.rec.part])[f].path == e.loc.path && e.loc.position < |Layout(writers[e.rec.part])[f].rows|
    ensures Layout(writers[e.rec.part])[f].rows[e.loc.position] == e.rec
  {
    hide PartitionState, Placed, OfPartition, Changes, DistinctLocs, InOwnPartition;
    var p := e.rec.part;
    PartOf(upsert, mode, found, writers, changes, n, log, p);
    PartitionTracks(upsert, mode, found, p, writers[p], n, log);
    OfPartitionMembers(log, p);
    var k :| 0 <= k < |OfPartition(log, p)| && OfPartition(log, p)[k] == e;
    f := PlacedAt(Layout(writers[p]), k);
  }
}
