/** What the Arrow writer has to produce: where rows land, which deletes supersede them, and what a
    reader of the Iceberg table then sees ("Scan Planning" in the Apache Iceberg Table Spec: equality
    deletes reach strictly older sequence numbers, position deletes older or equal ones, both within
    one partition; a deletion vector is matched by the path of its data file). */
module Upserts {
  import opened Wrappers

  type ID = string
  type PartitionKey = string

  /** r: backfill read, c: create, u: update, d: delete, i: insert during the overlap window. */
  datatype Op = R | C | U | D | I

  datatype Record = Record(id: ID, op: Op, part: PartitionKey, payload: int)

  /** `allocateFilePath` puts the partition key into the path; `n` stands for the unique file name. */
  datatype Path = Path(part: PartitionKey, n: nat)

  /** types.RowLocation, PositionalDelete */
  datatype Location = Location(path: Path, position: nat)

  datatype Entry = Entry(rec: Record, loc: Location)

  // ----- files and the rows in them -----

  datatype File = File(path: Path, rows: seq<Record>)

  function PlacedRows(path: Path, rows: seq<Record>): seq<Entry> {
    if rows == [] then []
    else PlacedRows(path, rows[..|rows| - 1]) + [Entry(rows[|rows| - 1], Location(path, |rows| - 1))]
  }

  /** Every row of these files with the place it is at, in file order. */
  function Placed(files: seq<File>): seq<Entry> {
    if files == [] then []
    else Placed(files[..|files| - 1]) + PlacedRows(files[|files| - 1].path, files[|files| - 1].rows)
  }

  lemma {:induction false} PlacedRowsAt(path: Path, rows: seq<Record>, k: nat)
    requires k < |rows|
    ensures |PlacedRows(path, rows)| == |rows| && PlacedRows(path, rows)[k] == Entry(rows[k], Location(path, k))
    decreases |rows|
  {
    var front := rows[..|rows| - 1];
    if front != [] {
      PlacedRowsAt(path, front, if k < |front| then k else 0);
    }
  }

  /** A placed entry is where it says: the file of that path holds the record at that position. */
  lemma {:induction false} PlacedAt(files: seq<File>, k: nat) returns (f: nat)
    requires k < |Placed(files)|
    ensures f < |files| && files[f].path == Placed(files)[k].loc.path
    ensures Placed(files)[k].loc.position < |files[f].rows|
    ensures files[f].rows[Placed(files)[k].loc.position] == Placed(files)[k].rec
    decreases |files|
  {
    var front, last := files[..|files| - 1], files[|files| - 1];
    if k < |Placed(front)| {
      f := PlacedAt(front, k);
    } else {
      var j := k - |Placed(front)|;
      f := |files| - 1;
      if last.rows != [] { PlacedRowsAt(last.path, last.rows, if j < |last.rows| then j else 0); }
    }
  }

  // ----- equality mode: what one partition's records lead to -----

  /** Backfill reads are not deduplicated. */
  predicate Tracked(e: Entry) {
    e.rec.op != R
  }

  /** Where each id was last written. */
  function LastLoc(s: seq<Entry>): map<ID, Location> {
    if s == [] then map[]
    else
      var last, before := s[|s| - 1], LastLoc(s[..|s| - 1]);
      if Tracked(last) then before[last.rec.id := last.loc] else before
  }

  /** Ids to delete from older snapshots: each at its first occurrence. */
  function EqualityDeletes(s: seq<Entry>): seq<ID> {
    if s == [] then []
    else
      var last, front := s[|s| - 1], s[..|s| - 1];
      EqualityDeletes(front) + if Tracked(last) && last.rec.id !in LastLoc(front) then [last.rec.id] else []
  }

  /** Rows of this very commit that a later record superseded. */
  function PositionDeletes(s: seq<Entry>): seq<Location> {
    if s == [] then []
    else
      var last, front := s[|s| - 1], s[..|s| - 1];
      PositionDeletes(front) + if Tracked(last) && last.rec.id in LastLoc(front) then [LastLoc(front)[last.rec.id]] else []
  }

  /** No tracked record after `k` has the same id. */
  ghost predicate IsLast(s: seq<Entry>, k: nat)
    requires k < |s|
  {
    forall j :: k < j < |s| && Tracked(s[j]) ==> s[j].rec.id != s[k].rec.id
  }

  ghost predicate DistinctLocs(s: seq<Entry>) {
    forall j, k :: 0 <= j < k < |s| ==> s[j].loc != s[k].loc
  }

  ghost predicate Distinct<T(!new)>(s: seq<T>) {
    forall j, k :: 0 <= j < k < |s| ==> s[j] != s[k]
  }

  lemma {:induction false} LastLocIsLast(s: seq<Entry>, id: ID) returns (k: nat)
    requires id in LastLoc(s)
    ensures k < |s| && Tracked(s[k]) && s[k].rec.id == id && IsLast(s, k) && LastLoc(s)[id] == s[k].loc
    decreases |s|
  {
    var front, last := s[..|s| - 1], s[|s| - 1];
    if Tracked(last) && last.rec.id == id {
      k := |s| - 1;
    } else {
      k := LastLocIsLast(front, id);
      assert forall j :: k < j < |front| ==> s[j] == front[j];
    }
  }

  lemma {:induction false} TrackedIsKnown(s: seq<Entry>, k: nat)
    requires k < |s| && Tracked(s[k])
    ensures s[k].rec.id in LastLoc(s)
    decreases |s|
  {
    if k < |s| - 1 { TrackedIsKnown(s[..|s| - 1], k); }
  }

  /** Each id that occurs enters the equality deletes exactly once. */
  lemma {:induction false} EqualityDeletesOnce(s: seq<Entry>)
    ensures Distinct(EqualityDeletes(s))
    ensures forall id :: id in EqualityDeletes(s) <==> id in LastLoc(s)
    decreases |s|
  {
    if s != [] {
      var front, last := s[..|s| - 1], s[|s| - 1];
      EqualityDeletesOnce(front);
      var before := EqualityDeletes(front);
      if Tracked(last) && last.rec.id !in LastLoc(front) {
        forall j | 0 <= j < |before| ensures before[j] != last.rec.id { assert before[j] in before; }
      }
    }
  }

  /** A row is positionally deleted exactly when a later record of the same id exists. */
  lemma {:induction false} PositionDeletesSuperseded(s: seq<Entry>, k: nat)
    requires DistinctLocs(s) && k < |s| && Tracked(s[k])
    ensures s[k].loc in PositionDeletes(s) <==> !IsLast(s, k)
    decreases |s|
  {
    var front, last := s[..|s| - 1], s[|s| - 1];
    assert DistinctLocs(front);
    if k == |s| - 1 {
      DeletesAreOlder(front, s[k].loc);
      if Tracked(last) && last.rec.id in LastLoc(front) {
        var j := LastLocIsLast(front, last.rec.id);
      }
    } else {
      assert front[k] == s[k];
      PositionDeletesSuperseded(front, k);
      assert IsLast(s, k) <==> IsLast(front, k) && !(Tracked(last) && last.rec.id == s[k].rec.id);
      TrackedIsKnown(front, k);
      if Tracked(last) && last.rec.id in LastLoc(front) {
        var j := LastLocIsLast(front, last.rec.id);
      }
    }
  }

  lemma {:induction false} DeletesAreOlder(s: seq<Entry>, loc: Location)
    requires forall e :: e in s ==> e.loc != loc
    ensures loc !in PositionDeletes(s)
    decreases |s|
  {
    if s != [] {
      var front, last := s[..|s| - 1], s[|s| - 1];
      forall e | e in front ensures e.loc != loc { assert e in s; }
      DeletesAreOlder(front, loc);
      if Tracked(last) && last.rec.id in LastLoc(front) {
        var j := LastLocIsLast(front, last.rec.id);
        assert front[j] in s;
      }
    }
  }

  /** No row is deleted twice. */
  lemma {:induction false} PositionDeletesOnce(s: seq<Entry>)
    requires DistinctLocs(s)
    ensures Distinct(PositionDeletes(s))
    decreases |s|
  {
    if s != [] {
      var front, last := s[..|s| - 1], s[|s| - 1];
      assert DistinctLocs(front);
      PositionDeletesOnce(front);
      if Tracked(last) && last.rec.id in LastLoc(front) {
        var j := LastLocIsLast(front, last.rec.id);
        PositionDeletesSuperseded(front, j);
        assert front[j].loc !in PositionDeletes(front);
      }
    }
  }

  // ----- what a reader sees -----

  datatype Stored = Stored(rec: Record, loc: Location, seqNo: nat)
  datatype EqualityDelete = EqualityDelete(part: PartitionKey, id: ID, seqNo: nat)
  datatype PositionDelete = PositionDelete(part: PartitionKey, loc: Location, seqNo: nat)

  /** `poss` are the positions in delete files, `vecs` those in deletion vectors. */
  datatype Table = Table(rows: set<Stored>, eqs: set<EqualityDelete>, poss: set<PositionDelete>, vecs: set<PositionDelete>, seqNo: nat)

  /** The scan rule of the table format: delete files reach rows of their own partition, a deletion vector
      is found by the path of its data file, whatever partition it is stamped with. */
  ghost predicate Live(t: Table, r: Stored) {
    && r in t.rows
    && (forall e :: e in t.eqs && e.part == r.loc.path.part && e.id == r.rec.id ==> e.seqNo <= r.seqNo)
    && (forall d :: d in t.poss && d.part == r.loc.path.part && d.loc == r.loc ==> d.seqNo < r.seqNo)
    && (forall d :: d in t.vecs && d.loc == r.loc ==> d.seqNo < r.seqNo)
  }

  ghost predicate WellFormed(t: Table) {
    && (forall r :: r in t.rows ==> r.seqNo <= t.seqNo)
    && (forall e :: e in t.eqs ==> e.seqNo <= t.seqNo)
    && (forall d :: d in t.poss ==> d.seqNo <= t.seqNo)
    && (forall d :: d in t.vecs ==> d.seqNo <= t.seqNo)
    && (forall q, r :: q in t.rows && r in t.rows && q.loc == r.loc ==> q == r)
  }

  ghost function NewRows(entries: seq<Entry>, n: nat): set<Stored> {
    set e | e in entries :: Stored(e.rec, e.loc, n)
  }

  /** One snapshot: all files of a commit share a sequence number. */
  ghost function Commit(t: Table, entries: seq<Entry>, eqs: set<(PartitionKey, ID)>, poss: set<(PartitionKey, Location)>,
                        vecs: set<(PartitionKey, Location)>): Table {
    var n := t.seqNo + 1;
    Table(
      t.rows + NewRows(entries, n),
      t.eqs + (set e | e in eqs :: EqualityDelete(e.0, e.1, n)),
      t.poss + (set d | d in poss :: PositionDelete(d.0, d.1, n)),
      t.vecs + (set d | d in vecs :: PositionDelete(d.0, d.1, n)),
      n)
  }

  /** Some vector, under whatever stamp, names the place. */
  ghost predicate Targets(vecs: set<(PartitionKey, Location)>, loc: Location) {
    exists d :: d in vecs && d.1 == loc
  }

  /** Places not used by the table so far, each used once. */
  ghost predicate FreshLocs(t: Table, entries: seq<Entry>) {
    DistinctLocs(entries) && forall r, k :: r in t.rows && 0 <= k < |entries| ==> r.loc != entries[k].loc
  }

  lemma CommitWellFormed(t: Table, entries: seq<Entry>, eqs: set<(PartitionKey, ID)>, poss: set<(PartitionKey, Location)>,
                         vecs: set<(PartitionKey, Location)>)
    requires WellFormed(t) && FreshLocs(t, entries)
    ensures WellFormed(Commit(t, entries, eqs, poss, vecs))
  {
    var t' := Commit(t, entries, eqs, poss, vecs);
    forall q, r | q in t'.rows && r in t'.rows && q.loc == r.loc ensures q == r {
      if q !in t.rows { var j :| 0 <= j < |entries| && q == Stored(entries[j].rec, entries[j].loc, t.seqNo + 1); }
      if r !in t.rows { var j :| 0 <= j < |entries| && r == Stored(entries[j].rec, entries[j].loc, t.seqNo + 1); }
    }
  }

  /** The scan rule, read for one new snapshot: equality deletes miss its own rows, position deletes do not. */
  lemma LiveAfterCommit(t: Table, entries: seq<Entry>, eqs: set<(PartitionKey, ID)>, poss: set<(PartitionKey, Location)>,
                        vecs: set<(PartitionKey, Location)>, r: Stored)
    requires WellFormed(t)
    ensures Live(Commit(t, entries, eqs, poss, vecs), r) <==>
      && (r.loc.path.part, r.loc) !in poss && !Targets(vecs, r.loc)
      && ((Live(t, r) && (r.loc.path.part, r.rec.id) !in eqs) || r in NewRows(entries, t.seqNo + 1))
  {
    var n := t.seqNo + 1;
    var t' := Commit(t, entries, eqs, poss, vecs);
    var p := r.loc.path.part;
    assert (p, r.loc) in poss ==> PositionDelete(p, r.loc, n) in t'.poss;
    assert (p, r.rec.id) in eqs ==> EqualityDelete(p, r.rec.id, n) in t'.eqs;
    if Targets(vecs, r.loc) {
      var d :| d in vecs && d.1 == r.loc;
      assert PositionDelete(d.0, d.1, n) in t'.vecs;
    }
  }

  // ----- equality mode refines last-write-wins, partition by partition -----

  /** The entries of one partition, in order. */
  function OfPartition(log: seq<Entry>, p: PartitionKey): seq<Entry> {
    if log == [] then []
    else
      var last := log[|log| - 1];
      OfPartition(log[..|log| - 1], p) + if last.rec.part == p then [last] else []
  }

  lemma {:induction false} OfPartitionMembers(log: seq<Entry>, p: PartitionKey)
    ensures forall e :: e in OfPartition(log, p) <==> e in log && e.rec.part == p
    ensures DistinctLocs(log) ==> DistinctLocs(OfPartition(log, p))
    decreases |log|
  {
    if log != [] {
      var front, last := log[..|log| - 1], log[|log| - 1];
      OfPartitionMembers(front, p);
      assert log == front + [last];
      if DistinctLocs(log) {
        var sub := OfPartition(front, p);
        forall j | 0 <= j < |sub| ensures sub[j].loc != last.loc {
          assert sub[j] in front;
          var i :| 0 <= i < |front| && front[i] == sub[j];
        }
      }
    }
  }

  /** Rows go to files of their own partition. */
  ghost predicate InOwnPartition(log: seq<Entry>) {
    forall e :: e in log ==> e.loc.path.part == e.rec.part
  }

  ghost function Partitions(log: seq<Entry>): set<PartitionKey> {
    set e | e in log :: e.rec.part
  }

  ghost function EqualityDeletesOf(log: seq<Entry>): set<(PartitionKey, ID)> {
    set p, id | p in Partitions(log) && id in EqualityDeletes(OfPartition(log, p)) :: (p, id)
  }

  ghost function PositionDeletesOf(log: seq<Entry>): set<(PartitionKey, Location)> {
    set p, l | p in Partitions(log) && l in PositionDeletes(OfPartition(log, p)) :: (p, l)
  }

  ghost function EqualityCommit(t: Table, log: seq<Entry>): Table {
    Commit(t, log, EqualityDeletesOf(log), PositionDeletesOf(log), {})
  }

  /** The last record of this id in this partition. */
  ghost predicate IsLatest(log: seq<Entry>, e: Entry) {
    exists k :: 0 <= k < |OfPartition(log, e.rec.part)| && OfPartition(log, e.rec.part)[k] == e && IsLast(OfPartition(log, e.rec.part), k)
  }

  /** Position deletes of a commit only name its own rows. */
  lemma {:induction false} DeletedIsOwn(s: seq<Entry>, loc: Location) returns (k: nat)
    requires loc in PositionDeletes(s)
    ensures k < |s| && s[k].loc == loc && Tracked(s[k])
    decreases |s|
  {
    var front, last := s[..|s| - 1], s[|s| - 1];
    if Tracked(last) && last.rec.id in LastLoc(front) && LastLoc(front)[last.rec.id] == loc {
      k := LastLocIsLast(front, last.rec.id);
    } else {
      k := DeletedIsOwn(front, loc);
    }
  }

  /** Old rows survive exactly when their id was not created, updated, deleted or inserted in their partition. */
  lemma EqualityOldRows(t: Table, log: seq<Entry>, r: Stored)
    requires WellFormed(t) && FreshLocs(t, log) && InOwnPartition(log)
    requires r in t.rows
    ensures Live(EqualityCommit(t, log), r) <==>
      Live(t, r) && !(exists e :: e in log && e.rec.part == r.loc.path.part && e.rec.id == r.rec.id && e.rec.op in {C, U, D, I})
  {
    var p := r.loc.path.part;
    var s := OfPartition(log, p);
    OfPartitionMembers(log, p);
    LiveAfterCommit(t, log, EqualityDeletesOf(log), PositionDeletesOf(log), {}, r);
    assert (p, r.loc) !in PositionDeletesOf(log) by {
      if r.loc in PositionDeletes(s) {
        var k := DeletedIsOwn(s, r.loc);
        assert s[k] in log;
      }
    }
    WrittenIsDeleted(log, p, r.rec.id);
  }

  /** Deletes, updates, inserts and creates put their id into the equality deletes, backfill reads do not. */
  lemma WrittenIsDeleted(log: seq<Entry>, p: PartitionKey, id: ID)
    ensures (p, id) in EqualityDeletesOf(log) <==>
      exists e :: e in log && e.rec.part == p && e.rec.id == id && e.rec.op in {C, U, D, I}
  {
    var s := OfPartition(log, p);
    OfPartitionMembers(log, p);
    EqualityDeletesOnce(s);
    if e :| e in log && e.rec.part == p && e.rec.id == id && e.rec.op in {C, U, D, I} {
      assert e in s;
      var k :| 0 <= k < |s| && s[k] == e;
      TrackedIsKnown(s, k);
      assert p in Partitions(log);
    }
    if (p, id) in EqualityDeletesOf(log) {
      var k := LastLocIsLast(s, id);
      assert s[k] in log;
    }
  }

  /** No later record of the log changes this id in this partition. */
  ghost predicate Newest(log: seq<Entry>, k: nat)
    requires k < |log|
  {
    forall j :: k < j < |log| && log[j].rec.op in {C, U, D, I} && log[j].rec.part == log[k].rec.part ==> log[j].rec.id != log[k].rec.id
  }

  /** Position in the partition and position in the log agree on which record is last. */
  lemma {:induction false} NewestIsLatest(log: seq<Entry>, k: nat)
    requires DistinctLocs(log) && k < |log|
    ensures IsLatest(log, log[k]) <==> Newest(log, k)
    decreases |log|
  {
    hide IsLatest, OfPartition;
    var front, last, e := log[..|log| - 1], log[|log| - 1], log[k];
    if k == |log| - 1 {
      LastIsLatest(log);
    } else {
      assert front[k] == e && DistinctLocs(front);
      NewestIsLatest(front, k);
      assert Newest(log, k) <==> Newest(front, k) && !(last.rec.op in {C, U, D, I} && last.rec.part == e.rec.part && last.rec.id == e.rec.id);
      LatestOneMore(front, last, e);
      assert front + [last] == log;
    }
  }

  lemma LastIsLatest(log: seq<Entry>)
    requires log != []
    ensures IsLatest(log, log[|log| - 1])
  {
    var s := OfPartition(log, log[|log| - 1].rec.part);
    assert s[|s| - 1] == log[|log| - 1] && IsLast(s, |s| - 1);
  }

  lemma LatestOneMore(front: seq<Entry>, last: Entry, e: Entry)
    requires DistinctLocs(front + [last]) && e in front
    ensures IsLatest(front + [last], e) <==>
      IsLatest(front, e) && !(last.rec.op != R && last.rec.part == e.rec.part && last.rec.id == e.rec.id)
  {
    var log, p := front + [last], e.rec.part;
    assert log[..|front|] == front;
    var s, s' := OfPartition(front, p), OfPartition(log, p);
    OfPartitionMembers(front, p);
    OfPartitionMembers(log, p);
    assert DistinctLocs(front) by { assert forall k :: 0 <= k < |front| ==> log[k] == front[k]; }
    assert e in s && s <= s';
    var k :| 0 <= k < |s| && s[k] == e;
    assert s'[k] == e;
    assert IsLatest(front, e) <==> IsLast(s, k) by {
      if IsLatest(front, e) { var j :| 0 <= j < |s| && s[j] == e && IsLast(s, j); }
    }
    assert IsLatest(log, e) <==> IsLast(s', k) by {
      if IsLatest(log, e) { var j :| 0 <= j < |s'| && s'[j] == e && IsLast(s', j); }
    }
    assert forall j :: 0 <= j < |s| ==> s'[j] == s[j];
    if last.rec.part == p { assert s'[|s|] == last; }
  }

  /** Of the new rows, the newest of each id is live, and every backfill read. */
  lemma EqualityNewRows(t: Table, log: seq<Entry>, k: nat)
    requires WellFormed(t) && FreshLocs(t, log) && InOwnPartition(log) && k < |log|
    ensures Live(EqualityCommit(t, log), Stored(log[k].rec, log[k].loc, t.seqNo + 1)) <==> log[k].rec.op == R || Newest(log, k)
  {
    var e := log[k];
    var p := e.rec.part;
    var s := OfPartition(log, p);
    OfPartitionMembers(log, p);
    LiveAfterCommit(t, log, EqualityDeletesOf(log), PositionDeletesOf(log), {}, Stored(e.rec, e.loc, t.seqNo + 1));
    assert e in s && p in Partitions(log);
    assert (p, e.loc) in PositionDeletesOf(log) <==> e.loc in PositionDeletes(s);
    if e.rec.op != R {
      NewestIsLatest(log, k);
      LatestIsKept(log, e);
    } else {
      ReadIsKept(s, e);
    }
  }

  lemma ReadIsKept(s: seq<Entry>, e: Entry)
    requires DistinctLocs(s) && e in s && e.rec.op == R
    ensures e.loc !in PositionDeletes(s)
  {
    var k :| 0 <= k < |s| && s[k] == e;
    if e.loc in PositionDeletes(s) { var j := DeletedIsOwn(s, e.loc); }
  }

  lemma LatestIsKept(log: seq<Entry>, e: Entry)
    requires DistinctLocs(log) && e in log && e.rec.op != R
    ensures e.loc !in PositionDeletes(OfPartition(log, e.rec.part)) <==> IsLatest(log, e)
  {
    var p := e.rec.part;
    var s := OfPartition(log, p);
    OfPartitionMembers(log, p);
    var k :| 0 <= k < |s| && s[k] == e;
    PositionDeletesSuperseded(s, k);
    assert IsLatest(log, e) <==> IsLast(s, k) by {
      if IsLatest(log, e) {
        var j :| 0 <= j < |s| && s[j] == e && IsLast(s, j);
      }
    }
  }

  /** At most one live row per id and partition. */
  ghost predicate OnePerId(t: Table) {
    forall q, r :: Live(t, q) && Live(t, r) && q.loc.path.part == r.loc.path.part && q.rec.id == r.rec.id ==> q == r
  }

  /** Equality mode is last-write-wins within each partition: after the commit an id written in the
      partition has exactly its latest record live there, any other id keeps the row it had. */
  lemma EqualityLastWriteWins(t: Table, log: seq<Entry>, q: Stored, r: Stored)
    requires WellFormed(t) && FreshLocs(t, log) && InOwnPartition(log) && (forall e :: e in log ==> e.rec.op in {C, U, D, I}) && OnePerId(t)
    requires Live(EqualityCommit(t, log), q) && Live(EqualityCommit(t, log), r)
    requires q.loc.path.part == r.loc.path.part && q.rec.id == r.rec.id
    ensures q == r
  {
    hide Live;
    var n := t.seqNo + 1;
    LiveIsStored(EqualityCommit(t, log), q);
    LiveIsStored(EqualityCommit(t, log), r);
    if q in t.rows && r in t.rows {
      EqualityOldRows(t, log, q);
      EqualityOldRows(t, log, r);
    } else if q !in t.rows && r !in t.rows {
      var j := NewRowEntry(log, q, n);
      var k := NewRowEntry(log, r, n);
      EqualityNewRows(t, log, j);
      EqualityNewRows(t, log, k);
    } else {
      var before, after := if q in t.rows then q else r, if q in t.rows then r else q;
      var k := NewRowEntry(log, after, n);
      assert log[k] in log;
      EqualityOldRows(t, log, before);
    }
  }

  lemma LiveIsStored(t: Table, r: Stored)
    requires Live(t, r)
    ensures r in t.rows
  {
  }

  lemma NewRowEntry(log: seq<Entry>, r: Stored, n: nat) returns (k: nat)
    requires r in NewRows(log, n)
    ensures k < |log| && r == Stored(log[k].rec, log[k].loc, n)
  {
    k :| 0 <= k < |log| && r == Stored(log[k].rec, log[k].loc, n);
  }

  lemma {:induction false} NewestExists(log: seq<Entry>, k: nat) returns (n: nat)
    requires k < |log| && log[k].rec.op in {C, U, D, I}
    ensures k <= n < |log| && log[n].rec.op in {C, U, D, I} && Newest(log, n)
    ensures log[n].rec.part == log[k].rec.part && log[n].rec.id == log[k].rec.id
    decreases |log| - k
  {
    n := k;
    if !Newest(log, k) {
      var j :| k < j < |log| && log[j].rec.op in {C, U, D, I} && log[j].rec.part == log[k].rec.part && log[j].rec.id == log[k].rec.id;
      n := NewestExists(log, j);
    }
  }

  /** The newest record of a written id exists, so the id does have its one live row. */
  lemma LatestExists(t: Table, log: seq<Entry>, e: Entry) returns (k: nat)
    requires WellFormed(t) && FreshLocs(t, log) && InOwnPartition(log) && e in log && e.rec.op in {C, U, D, I}
    ensures k < |log| && log[k].rec.part == e.rec.part && log[k].rec.id == e.rec.id && Newest(log, k)
    ensures Live(EqualityCommit(t, log), Stored(log[k].rec, log[k].loc, t.seqNo + 1))
  {
    var i :| 0 <= i < |log| && log[i] == e;
    k := NewestExists(log, i);
    EqualityNewRows(t, log, k);
  }

  // ----- indexed modes (positional deletes, deletion vectors) -----

  /** The index after these records: each id at its newest place. */
  function IndexAfter(base: map<ID, Location>, log: seq<Entry>): map<ID, Location> {
    if log == [] then base
    else IndexAfter(base, log[..|log| - 1])[log[|log| - 1].rec.id := log[|log| - 1].loc]
  }

  /** The pending index changes of a thread that has taken these records. */
  function Changes(log: seq<Entry>): map<ID, Location> {
    IndexAfter(map[], log)
  }

  lemma {:induction false} IndexIsOverlay(base: map<ID, Location>, log: seq<Entry>)
    ensures IndexAfter(base, log) == base + Changes(log)
    decreases |log|
  {
    if log != [] { IndexIsOverlay(base, log[..|log| - 1]); }
  }

  lemma {:induction false} ChangesAreLogged(log: seq<Entry>, id: ID) returns (e: Entry)
    requires id in Changes(log)
    ensures e in log && e.rec.id == id && e.loc == Changes(log)[id]
    decreases |log|
  {
    var front, last := log[..|log| - 1], log[|log| - 1];
    assert log == front + [last];
    if last.rec.id == id { e := last; } else { e := ChangesAreLogged(front, id); }
  }

  lemma {:induction false} LoggedIsChanged(log: seq<Entry>, e: Entry)
    requires e in log
    ensures e.rec.id in Changes(log)
    decreases |log|
  {
    var front, last := log[..|log| - 1], log[|log| - 1];
    assert log == front + [last];
    if e != last { LoggedIsChanged(front, e); }
  }

  /** Backfill reads and plain creates are written without looking for an older row. */
  predicate LooksUp(upsert: bool, op: Op) {
    upsert && op != R && op != C
  }

  /** Where a lookup finds the row to supersede: in the thread's own changes or, failing that, where the
      index of the stream said at that moment (`answer`). */
  function Hit(log: seq<Entry>, id: ID, answer: Option<Location>): Option<Location> {
    if id in Changes(log) then Some(Changes(log)[id]) else answer
  }

  /** The deletes the records cause, each stamped with the partition being written; `found` are the
      index's answers at the time each record was taken. */
  function IndexDeletes(upsert: bool, found: seq<Option<Location>>, log: seq<Entry>): seq<(PartitionKey, Location)>
    requires |found| == |log|
  {
    if log == [] then []
    else
      var n := |log| - 1;
      var hit := Hit(log[..n], log[n].rec.id, found[n]);
      IndexDeletes(upsert, found[..n], log[..n]) +
      if LooksUp(upsert, log[n].rec.op) && hit.Some? then [(log[n].rec.part, hit.value)] else []
  }

  /** Every live row is where the index says, and the index says nothing else. */
  ghost predicate IndexExact(live: iset<Stored>, index: map<ID, Location>) {
    && (forall r :: r in live ==> r.rec.id in index && index[r.rec.id] == r.loc)
    && (forall id :: id in index ==> exists r :: r in live && r.rec.id == id && r.loc == index[id])
  }

  ghost function LiveRows(t: Table): iset<Stored> {
    iset r | Live(t, r)
  }

  ghost function DeleteSet(upsert: bool, found: seq<Option<Location>>, log: seq<Entry>): set<(PartitionKey, Location)>
    requires |found| == |log|
  {
    set d | d in IndexDeletes(upsert, found, log)
  }

  ghost function IndexedCommit(t: Table, upsert: bool, found: seq<Option<Location>>, log: seq<Entry>): Table
    requires |found| == |log|
  {
    Commit(t, log, {}, DeleteSet(upsert, found, log), {})
  }

  /** Deletion vectors that name exactly the superseded places, under any stamps. */
  ghost predicate VectorsFor(upsert: bool, found: seq<Option<Location>>, log: seq<Entry>, vecs: set<(PartitionKey, Location)>)
    requires |found| == |log|
  {
    forall l :: Targets(vecs, l) <==> Reaches(true, IndexDeletes(upsert, found, log), l)
  }

  /** Whether a list of stamped deletes reaches a row: by path alone, or in its own partition only. */
  ghost predicate Reaches(byPath: bool, deletes: seq<(PartitionKey, Location)>, loc: Location) {
    if byPath then exists d :: d in deletes && d.1 == loc else (loc.path.part, loc) in deletes
  }

  /** A record whose id is already indexed must be one that is looked up and, unless deletes are found by
      path, go to the partition the old row is in. */
  ghost predicate CleanHit(upsert: bool, byPath: bool, index: map<ID, Location>, e: Entry) {
    e.rec.id in index ==> LooksUp(upsert, e.rec.op) && (byPath || index[e.rec.id].path.part == e.rec.part)
  }

  ghost predicate CleanHits(upsert: bool, byPath: bool, base: map<ID, Location>, log: seq<Entry>) {
    forall k :: 0 <= k < |log| ==> CleanHit(upsert, byPath, IndexAfter(base, log[..k]), log[k])
  }

  /** The answer that the record's first lookup got still holds at the commit. */
  ghost predicate CurrentAt(base: map<ID, Location>, log: seq<Entry>, answer: Option<Location>, e: Entry) {
    e.rec.id in base && e.rec.id !in Changes(log) ==> answer == Some(base[e.rec.id])
  }

  ghost predicate Current(base: map<ID, Location>, found: seq<Option<Location>>, log: seq<Entry>)
    requires |found| == |log|
  {
    forall k :: 0 <= k < |log| ==> CurrentAt(base, log[..k], found[k], log[k])
  }

  /** Live rows after a prefix of the records, all in the coming snapshot. */
  ghost function LiveWith(live0: iset<Stored>, upsert: bool, byPath: bool, found: seq<Option<Location>>, log: seq<Entry>, n: nat): iset<Stored>
    requires |found| == |log|
  {
    iset r | (r in live0 || r in NewRows(log, n)) && !Reaches(byPath, IndexDeletes(upsert, found, log), r.loc)
  }

  lemma LiveRowsIndexed(t: Table, upsert: bool, found: seq<Option<Location>>, log: seq<Entry>)
    requires WellFormed(t) && |found| == |log|
    ensures LiveRows(IndexedCommit(t, upsert, found, log)) == LiveWith(LiveRows(t), upsert, false, found, log, t.seqNo + 1)
  {
    hide Live;
    forall r ensures Live(IndexedCommit(t, upsert, found, log), r) <==> r in LiveWith(LiveRows(t), upsert, false, found, log, t.seqNo + 1) {
      LiveAfterCommit(t, log, {}, DeleteSet(upsert, found, log), {}, r);
    }
  }

  lemma LiveRowsVectors(t: Table, upsert: bool, found: seq<Option<Location>>, log: seq<Entry>, vecs: set<(PartitionKey, Location)>)
    requires WellFormed(t) && |found| == |log| && VectorsFor(upsert, found, log, vecs)
    ensures LiveRows(Commit(t, log, {}, {}, vecs)) == LiveWith(LiveRows(t), upsert, true, found, log, t.seqNo + 1)
  {
    hide Live, Commit;
    forall r ensures Live(Commit(t, log, {}, {}, vecs), r) <==> r in LiveWith(LiveRows(t), upsert, true, found, log, t.seqNo + 1) {
      LiveAfterCommit(t, log, {}, {}, vecs, r);
    }
  }

  /** A place that some answer or some record names. */
  ghost predicate Known(found: seq<Option<Location>>, log: seq<Entry>, loc: Location) {
    Some(loc) in found || exists e :: e in log && e.loc == loc
  }

  lemma HitIsKnown(found: seq<Option<Location>>, log: seq<Entry>, id: ID, answer: Option<Location>)
    requires answer in found && Hit(log, id, answer).Some?
    ensures Known(found, log, Hit(log, id, answer).value)
  {
    if id in Changes(log) { var e := ChangesAreLogged(log, id); }
  }

  lemma {:induction false} DeletesAreKnown(upsert: bool, found: seq<Option<Location>>, log: seq<Entry>, d: (PartitionKey, Location))
    requires |found| == |log| && d in IndexDeletes(upsert, found, log)
    ensures Known(found, log, d.1)
    decreases |log|
  {
    var n := |log| - 1;
    assert log == log[..n] + [log[n]] && found == found[..n] + [found[n]];
    if d in IndexDeletes(upsert, found[..n], log[..n]) {
      DeletesAreKnown(upsert, found[..n], log[..n], d);
    } else {
      HitIsKnown(found, log[..n], log[n].rec.id, found[n]);
    }
  }

  /** New places are unknown to the index and used once. */
  ghost predicate FreshFor(live0: iset<Stored>, base: map<ID, Location>, log: seq<Entry>) {
    && DistinctLocs(log) && InOwnPartition(log)
    && (forall e :: e in log ==> forall id :: id in base ==> base[id] != e.loc)
    && (forall e, r :: e in log && r in live0 ==> r.loc != e.loc)
  }

  /** Answers name places other than the new ones, and what is live there is of the record's own id. */
  ghost predicate AnswersOk(live0: iset<Stored>, found: seq<Option<Location>>, log: seq<Entry>)
    requires |found| == |log|
  {
    forall k :: 0 <= k < |found| && found[k].Some? ==>
      && (forall e :: e in log ==> e.loc != found[k].value)
      && (forall r :: r in live0 && r.loc == found[k].value ==> r.rec.id == log[k].rec.id)
  }

  ghost predicate Ready(live0: iset<Stored>, base: map<ID, Location>, found: seq<Option<Location>>, log: seq<Entry>) {
    |found| == |log| && FreshFor(live0, base, log) && AnswersOk(live0, found, log)
  }

  lemma ReadyPrefix(live0: iset<Stored>, base: map<ID, Location>, found: seq<Option<Location>>, log: seq<Entry>, answer: Option<Location>, e: Entry)
    requires |found| == |log| && Ready(live0, base, found + [answer], log + [e])
    ensures Ready(live0, base, found, log)
    ensures !Known(found + [answer], log, e.loc)
  {
    var all, answers := log + [e], found + [answer];
    assert forall x :: x in log ==> x in all;
    assert forall j :: 0 <= j < |log| ==> all[j] == log[j] && answers[j] == found[j];
    assert e in all && all[|log|] == e;
    forall x | x in log ensures x.loc != e.loc { var j :| 0 <= j < |log| && log[j] == x; assert all[j] == x; }
  }

  /** What one more record does to the live rows: it adds its own, and removes at most the one it hit. */
  lemma LiveStep(live0: iset<Stored>, upsert: bool, byPath: bool, base: map<ID, Location>, found: seq<Option<Location>>, log: seq<Entry>,
                 answer: Option<Location>, e: Entry, n: nat, r: Stored)
    requires |found| == |log| && Ready(live0, base, found + [answer], log + [e])
    ensures r in LiveWith(live0, upsert, byPath, found + [answer], log + [e], n) <==>
      || r == Stored(e.rec, e.loc, n)
      || (r in LiveWith(live0, upsert, byPath, found, log, n)
          && !(LooksUp(upsert, e.rec.op) && Hit(log, e.rec.id, answer) == Some(r.loc) && (byPath || r.loc.path.part == e.rec.part)))
  {
    hide Ready, Hit, LooksUp;
    var all := log + [e];
    assert e in all && forall x :: x in all <==> x in log || x == e;
    OneMoreDelete(upsert, byPath, found, log, answer, e, r.loc);
    if r == Stored(e.rec, e.loc, n) {
      ReadyPrefix(live0, base, found, log, answer, e);
      NewPlaceUntouched(upsert, byPath, found, log, answer, e);
    }
  }

  lemma OneMoreDelete(upsert: bool, byPath: bool, found: seq<Option<Location>>, log: seq<Entry>, answer: Option<Location>, e: Entry, loc: Location)
    requires |found| == |log|
    ensures Reaches(byPath, IndexDeletes(upsert, found + [answer], log + [e]), loc) <==>
      || Reaches(byPath, IndexDeletes(upsert, found, log), loc)
      || (LooksUp(upsert, e.rec.op) && Hit(log, e.rec.id, answer) == Some(loc) && (byPath || loc.path.part == e.rec.part))
  {
    assert (log + [e])[..|log|] == log && (found + [answer])[..|log|] == found;
    var before, after := IndexDeletes(upsert, found, log), IndexDeletes(upsert, found + [answer], log + [e]);
    var hit := Hit(log, e.rec.id, answer);
    hide Hit;
    if LooksUp(upsert, e.rec.op) && hit.Some? {
      var d := (e.rec.part, hit.value);
      assert after == before + [d] && d in after;
      assert forall x :: x in after <==> x in before || x == d;
    } else {
      assert after == before;
    }
  }

  /** No delete names a place that is only now being written. */
  lemma NewPlaceUntouched(upsert: bool, byPath: bool, found: seq<Option<Location>>, log: seq<Entry>, answer: Option<Location>, e: Entry)
    requires |found| == |log| && !Known(found + [answer], log, e.loc)
    ensures !Reaches(byPath, IndexDeletes(upsert, found + [answer], log + [e]), e.loc)
  {
    hide Hit;
    OneMoreDelete(upsert, byPath, found, log, answer, e, e.loc);
    assert answer in found + [answer] && forall a :: a in found ==> a in found + [answer];
    if d :| d in IndexDeletes(upsert, found, log) && d.1 == e.loc { DeletesAreKnown(upsert, found, log, d); }
    if Hit(log, e.rec.id, answer).Some? { HitIsKnown(found + [answer], log, e.rec.id, answer); }
  }

  /** Before the commit: an exact index over rows in distinct places. */
  ghost predicate Starts(live0: iset<Stored>, base: map<ID, Location>) {
    IndexExact(live0, base) && forall q, r :: q in live0 && r in live0 && q.loc == r.loc ==> q == r
  }

  /** A record never hits a row of another id. */
  lemma OtherIdOtherPlace(live0: iset<Stored>, base: map<ID, Location>, found: seq<Option<Location>>, log: seq<Entry>,
                          answer: Option<Location>, e: Entry, n: nat, r: Stored)
    requires |found| == |log| && Ready(live0, base, found + [answer], log + [e])
    requires (r in live0 || r in NewRows(log, n)) && r.rec.id != e.rec.id
    ensures Hit(log, e.rec.id, answer) != Some(r.loc)
  {
    var all := log + [e];
    assert forall x :: x in log ==> x in all;
    assert (found + [answer])[|log|] == answer && all[|log|] == e;
    if e.rec.id in Changes(log) {
      var x := ChangesAreLogged(log, e.rec.id);
      if r !in live0 {
        var y :| y in log && r == Stored(y.rec, y.loc, n);
        OnePlacePerEntry(all, x, y);
      }
    } else if r !in live0 {
      var y :| y in log && r == Stored(y.rec, y.loc, n);
    }
  }

  lemma OnePlacePerEntry(log: seq<Entry>, x: Entry, y: Entry)
    requires DistinctLocs(log) && x in log && y in log
    ensures x.loc == y.loc ==> x == y
  {
    var j :| 0 <= j < |log| && log[j] == x;
    var k :| 0 <= k < |log| && log[k] == y;
  }

  /** A live row the index does not point at. */
  ghost predicate Stale(live: iset<Stored>, index: map<ID, Location>, r: Stored) {
    r in live && !(r.rec.id in index && index[r.rec.id] == r.loc)
  }

  lemma IndexStep(base: map<ID, Location>, log: seq<Entry>, e: Entry)
    ensures IndexAfter(base, log + [e]) == IndexAfter(base, log)[e.rec.id := e.loc]
  {
    assert (log + [e])[..|log|] == log;
  }

  /** What a looked-up record hits is what the index holds at the commit, if the answer still holds. */
  lemma CurrentHit(base: map<ID, Location>, log: seq<Entry>, answer: Option<Location>, e: Entry)
    requires e.rec.id in IndexAfter(base, log)
    ensures Hit(log, e.rec.id, answer) == Some(IndexAfter(base, log)[e.rec.id]) <==> CurrentAt(base, log, answer, e)
    ensures e.rec.id in Changes(log) ==> Hit(log, e.rec.id, answer) == Some(IndexAfter(base, log)[e.rec.id])
  {
    IndexIsOverlay(base, log);
  }

  /** A clean record with a current answer keeps the index exact. */
  lemma CleanStep(live0: iset<Stored>, upsert: bool, byPath: bool, base: map<ID, Location>, found: seq<Option<Location>>, log: seq<Entry>,
                  answer: Option<Location>, e: Entry, n: nat)
    requires |found| == |log| && Ready(live0, base, found + [answer], log + [e])
    requires IndexExact(LiveWith(live0, upsert, byPath, found, log, n), IndexAfter(base, log))
    requires CleanHit(upsert, byPath, IndexAfter(base, log), e) && CurrentAt(base, log, answer, e)
    ensures IndexExact(LiveWith(live0, upsert, byPath, found + [answer], log + [e], n), IndexAfter(base, log + [e]))
  {
    var live, live' := LiveWith(live0, upsert, byPath, found, log, n), LiveWith(live0, upsert, byPath, found + [answer], log + [e], n);
    var index, index' := IndexAfter(base, log), IndexAfter(base, log + [e]);
    IndexStep(base, log, e);
    if e.rec.id in index { CurrentHit(base, log, answer, e); }
    hide Ready, IndexAfter, Hit, LooksUp, CurrentAt;
    forall r | r in live' ensures r.rec.id in index' && index'[r.rec.id] == r.loc {
      LiveStep(live0, upsert, byPath, base, found, log, answer, e, n, r);
    }
    forall id | id in index' ensures exists r :: r in live' && r.rec.id == id && r.loc == index'[id] {
      if id == e.rec.id {
        LiveStep(live0, upsert, byPath, base, found, log, answer, e, n, Stored(e.rec, e.loc, n));
      } else {
        var r :| r in live && r.rec.id == id && r.loc == index[id];
        OtherIdOtherPlace(live0, base, found, log, answer, e, n, r);
        LiveStep(live0, upsert, byPath, base, found, log, answer, e, n, r);
      }
    }
  }

  /** Once a live row has been missed, no later record can reach it. */
  lemma StaleStays(live0: iset<Stored>, upsert: bool, byPath: bool, base: map<ID, Location>, found: seq<Option<Location>>, log: seq<Entry>,
                   answer: Option<Location>, e: Entry, n: nat, r: Stored)
    requires |found| == |log| && Starts(live0, base) && Ready(live0, base, found + [answer], log + [e])
    requires Stale(LiveWith(live0, upsert, byPath, found, log, n), IndexAfter(base, log), r)
    ensures Stale(LiveWith(live0, upsert, byPath, found + [answer], log + [e], n), IndexAfter(base, log + [e]), r)
  {
    IndexStep(base, log, e);
    ReadyPrefix(live0, base, found, log, answer, e);
    assert r.loc != e.loc by { StaleElsewhere(live0, base, found, log, answer, e, n, r); }
    LiveStep(live0, upsert, byPath, base, found, log, answer, e, n, r);
    if r.rec.id != e.rec.id {
      OtherIdOtherPlace(live0, base, found, log, answer, e, n, r);
    } else {
      StaleIsRewritten(live0, base, log, n, r);
      IndexIsOverlay(base, log);
    }
  }

  lemma StaleElsewhere(live0: iset<Stored>, base: map<ID, Location>, found: seq<Option<Location>>, log: seq<Entry>,
                       answer: Option<Location>, e: Entry, n: nat, r: Stored)
    requires |found| == |log| && Ready(live0, base, found + [answer], log + [e]) && (r in live0 || r in NewRows(log, n))
    ensures r.loc != e.loc
  {
    ReadyPrefix(live0, base, found, log, answer, e);
    assert e in log + [e];
    if r !in live0 { var x :| x in log && r == Stored(x.rec, x.loc, n); }
  }

  /** A row is only ever missed by a record of its own id. */
  lemma StaleIsRewritten(live0: iset<Stored>, base: map<ID, Location>, log: seq<Entry>, n: nat, r: Stored)
    requires Starts(live0, base) && (r in live0 || r in NewRows(log, n))
    requires !(r.rec.id in IndexAfter(base, log) && IndexAfter(base, log)[r.rec.id] == r.loc)
    ensures r.rec.id in Changes(log)
  {
    IndexIsOverlay(base, log);
    if r !in live0 {
      var x :| x in log && r == Stored(x.rec, x.loc, n);
      LoggedIsChanged(log, x);
    }
  }

  /** A record that is not clean, or whose answer is out of date, leaves its predecessor live and unindexed. */
  lemma UncleanStep(live0: iset<Stored>, upsert: bool, byPath: bool, base: map<ID, Location>, found: seq<Option<Location>>, log: seq<Entry>,
                    answer: Option<Location>, e: Entry, n: nat) returns (r: Stored)
    requires |found| == |log| && Ready(live0, base, found + [answer], log + [e])
    requires IndexExact(LiveWith(live0, upsert, byPath, found, log, n), IndexAfter(base, log))
    requires !CleanHit(upsert, byPath, IndexAfter(base, log), e) || !CurrentAt(base, log, answer, e)
    ensures Stale(LiveWith(live0, upsert, byPath, found + [answer], log + [e], n), IndexAfter(base, log + [e]), r)
  {
    var index := IndexAfter(base, log);
    IndexIsOverlay(base, log);
    assert e.rec.id in index;
    CurrentHit(base, log, answer, e);
    r :| r in LiveWith(live0, upsert, byPath, found, log, n) && r.rec.id == e.rec.id && r.loc == index[e.rec.id];
    IndexStep(base, log, e);
    StaleElsewhere(live0, base, found, log, answer, e, n, r);
    LiveStep(live0, upsert, byPath, base, found, log, answer, e, n, r);
  }

  lemma {:induction false} CleanIffNoneStale(live0: iset<Stored>, upsert: bool, byPath: bool, base: map<ID, Location>, found: seq<Option<Location>>, log: seq<Entry>, n: nat)
    requires Starts(live0, base) && Ready(live0, base, found, log)
    ensures CleanHits(upsert, byPath, base, log) && Current(base, found, log) ==>
              IndexExact(LiveWith(live0, upsert, byPath, found, log, n), IndexAfter(base, log))
    ensures !(CleanHits(upsert, byPath, base, log) && Current(base, found, log)) ==>
              exists r :: Stale(LiveWith(live0, upsert, byPath, found, log, n), IndexAfter(base, log), r)
    decreases |log|
  {
    if log == [] {
      assert LiveWith(live0, upsert, byPath, found, log, n) == live0;
    } else {
      var k := |log| - 1;
      var front, e, answers, answer := log[..k], log[k], found[..k], found[k];
      assert log == front + [e] && found == answers + [answer];
      ReadyPrefix(live0, base, answers, front, answer, e);
      hide Ready, IndexExact, Stale, Starts, LiveWith, IndexAfter, CurrentAt, CleanHit;
      CleanIffNoneStale(live0, upsert, byPath, base, answers, front, n);
      CleanPrefix(upsert, byPath, base, answers, front, answer, e);
      if !(CleanHits(upsert, byPath, base, front) && Current(base, answers, front)) {
        var r :| Stale(LiveWith(live0, upsert, byPath, answers, front, n), IndexAfter(base, front), r);
        StaleStays(live0, upsert, byPath, base, answers, front, answer, e, n, r);
      } else if CleanHit(upsert, byPath, IndexAfter(base, front), e) && CurrentAt(base, front, answer, e) {
        CleanStep(live0, upsert, byPath, base, answers, front, answer, e, n);
      } else {
        var r := UncleanStep(live0, upsert, byPath, base, answers, front, answer, e, n);
      }
    }
  }

  lemma CleanPrefix(upsert: bool, byPath: bool, base: map<ID, Location>, found: seq<Option<Location>>, front: seq<Entry>, answer: Option<Location>, e: Entry)
    requires |found| == |front|
    ensures CleanHits(upsert, byPath, base, front + [e]) <==> CleanHits(upsert, byPath, base, front) && CleanHit(upsert, byPath, IndexAfter(base, front), e)
    ensures Current(base, found + [answer], front + [e]) <==> Current(base, found, front) && CurrentAt(base, front, answer, e)
  {
    hide CleanHit, CurrentAt, IndexAfter;
    var log := front + [e];
    assert log[..|front|] == front && log[|front|] == e && (found + [answer])[|front|] == answer;
    forall k | 0 <= k < |front| ensures log[..k] == front[..k] && log[k] == front[k] && (found + [answer])[k] == found[k] { }
  }

  lemma ExactStarts(t: Table, base: map<ID, Location>)
    requires WellFormed(t) && IndexExact(LiveRows(t), base)
    ensures Starts(LiveRows(t), base)
  {
    hide IndexExact, Live;
    LiveLocsDistinct(t);
  }

  lemma StaleNotExact(live: iset<Stored>, index: map<ID, Location>)
    ensures (exists r :: Stale(live, index, r)) ==> !IndexExact(live, index)
  {
  }

  /** Positional delete files refine last-write-wins exactly on the inputs they can: after the commit the
      index points at the one live row of every id if and only if every record that met an indexed id was
      looked up and stayed in that row's partition, and what the lookups had answered still held. */
  lemma IndexedLastWriteWins(t: Table, upsert: bool, base: map<ID, Location>, found: seq<Option<Location>>, log: seq<Entry>)
    requires WellFormed(t) && IndexExact(LiveRows(t), base) && Ready(LiveRows(t), base, found, log)
    ensures IndexExact(LiveRows(IndexedCommit(t, upsert, found, log)), IndexAfter(base, log)) <==>
              CleanHits(upsert, false, base, log) && Current(base, found, log)
  {
    hide FreshFor, AnswersOk, LiveRows, Starts, LiveWith, CleanHits, Current, IndexExact, IndexedCommit, IndexAfter, WellFormed, Stale;
    LiveRowsIndexed(t, upsert, found, log);
    ExactStarts(t, base);
    CleanIffNoneStale(LiveRows(t), upsert, false, base, found, log, t.seqNo + 1);
    StaleNotExact(LiveWith(LiveRows(t), upsert, false, found, log, t.seqNo + 1), IndexAfter(base, log));
  }

  /** Deletion vectors do so if and only if every record that met an indexed id was looked up and what the
      lookups had answered still held: they follow a row across partitions, whatever stamps they carry. */
  lemma VectorLastWriteWins(t: Table, upsert: bool, base: map<ID, Location>, found: seq<Option<Location>>, log: seq<Entry>, vecs: set<(PartitionKey, Location)>)
    requires WellFormed(t) && IndexExact(LiveRows(t), base) && Ready(LiveRows(t), base, found, log)
    requires VectorsFor(upsert, found, log, vecs)
    ensures IndexExact(LiveRows(Commit(t, log, {}, {}, vecs)), IndexAfter(base, log)) <==>
              CleanHits(upsert, true, base, log) && Current(base, found, log)
  {
    hide FreshFor, AnswersOk, LiveRows, Starts, LiveWith, CleanHits, Current, IndexExact, Commit, IndexAfter, VectorsFor, WellFormed, Stale;
    LiveRowsVectors(t, upsert, found, log, vecs);
    ExactStarts(t, base);
    CleanIffNoneStale(LiveRows(t), upsert, true, base, found, log, t.seqNo + 1);
    StaleNotExact(LiveWith(LiveRows(t), upsert, true, found, log, t.seqNo + 1), IndexAfter(base, log));
  }

  lemma LiveLocsDistinct(t: Table)
    requires WellFormed(t)
    ensures forall q, r :: q in LiveRows(t) && r in LiveRows(t) && q.loc == r.loc ==> q == r
  {
  }

  /** An update that moves a row to another partition: a positional delete file misses the old row, a
      deletion vector does not. */
  lemma MovedRowExample(id: ID, p: PartitionKey, q: PartitionKey)
    requires p != q
    ensures var a, b := Location(Path(p, 0), 0), Location(Path(q, 1), 0);
      var before := Table({Stored(Record(id, C, p, 1), a, 1)}, {}, {}, {}, 1);
      var log := [Entry(Record(id, U, q, 2), b)];
      && Live(IndexedCommit(before, true, [Some(a)], log), Stored(Record(id, C, p, 1), a, 1))
      && VectorsFor(true, [Some(a)], log, {(q, a)})
      && !Live(Commit(before, log, {}, {}, {(q, a)}), Stored(Record(id, C, p, 1), a, 1))
  {
    var a, b := Location(Path(p, 0), 0), Location(Path(q, 1), 0);
    var before := Table({Stored(Record(id, C, p, 1), a, 1)}, {}, {}, {}, 1);
    var log := [Entry(Record(id, U, q, 2), b)];
    var r := Stored(Record(id, C, p, 1), a, 1);
    assert IndexDeletes(true, [Some(a)], log) == [(q, a)] by { assert log[..0] == [] && [Some(a)][..0] == []; }
    assert (q, a) in IndexDeletes(true, [Some(a)], log) && (q, a) in {(q, a)};
    LiveAfterCommit(before, log, {}, DeleteSet(true, [Some(a)], log), {}, r);
    LiveAfterCommit(before, log, {}, {}, {(q, a)}, r);
  }

  /** A second create of an id the index already holds leaves two live rows of it. */
  lemma BlindCreateDuplicates(upsert: bool, id: ID, p: PartitionKey)
    ensures var a, b := Location(Path(p, 0), 0), Location(Path(p, 1), 0);
      var before := Table({Stored(Record(id, C, p, 1), a, 1)}, {}, {}, {}, 1);
      var after := IndexedCommit(before, upsert, [Some(a)], [Entry(Record(id, C, p, 2), b)]);
      Live(after, Stored(Record(id, C, p, 1), a, 1)) && Live(after, Stored(Record(id, C, p, 2), b, 2))
  {
    var a, b := Location(Path(p, 0), 0), Location(Path(p, 1), 0);
    var log := [Entry(Record(id, C, p, 2), b)];
    assert IndexDeletes(upsert, [Some(a)], log) == [] by { assert log[..0] == [] && [Some(a)][..0] == []; }
    assert log[0] in log;
  }

  /** `mapChangeKindToOperationType` */
  datatype ChangeKind = Insert | Update | Delete

  function OpOf(kind: ChangeKind, dedupInserts: bool, resolveUpsert: bool): Op {
    if kind.Delete? then D
    else if resolveUpsert then U
    else if kind.Update? then U
    else if dedupInserts then I
    else C
  }

  /** Streams that resolve upserts, and every stream while the overlap window is open, look every id up:
      with deletion vectors their index always stays exact, with positional delete files as soon as no
      indexed id changes partition. */
  lemma LookedUpStreams(base: map<ID, Location>, log: seq<Entry>, kinds: seq<ChangeKind>, dedupInserts: bool, resolveUpsert: bool)
    requires |kinds| == |log| && forall k :: 0 <= k < |log| ==> log[k].rec.op == OpOf(kinds[k], dedupInserts, resolveUpsert)
    requires dedupInserts || resolveUpsert
    ensures forall k :: 0 <= k < |log| ==> log[k].rec.op == (if kinds[k].Delete? then D else if kinds[k].Insert? && !resolveUpsert then I else U)
    ensures CleanHits(true, true, base, log)
    ensures CleanHits(true, false, base, log) <==>
      forall k :: 0 <= k < |log| && log[k].rec.id in IndexAfter(base, log[..k]) ==>
        IndexAfter(base, log[..k])[log[k].rec.id].path.part == log[k].rec.part
  {
    hide IndexAfter;
    forall k | 0 <= k < |log| ensures LooksUp(true, log[k].rec.op) { }
  }
}
