/** The per-stream row index on a sorted key-value store, byte for byte, and the plain map from row id
    to location (plus a checkpoint) that it stands for. */
module IndexStore {
  import opened Wrappers
  import opened ByteCodec

  type Int64 = x: int | -I63 <= x < I63
  type Db = map<Bytes, Bytes>

  datatype Location = Location(path: Bytes, position: Int64)

  /** What the index means to its users. */
  datatype View = View(rows: map<Bytes, Location>, checkpoint: int)

  datatype Found = Missing | At(location: Location) | Corrupt

  const ROW: Byte := 1
  const ID_TO_PATH: Byte := 2
  const PATH_TO_ID: Byte := 3
  const META: Byte := 4

  // "snapshot", "next_file_id" and "format_version"
  const SNAPSHOT: Bytes := [115, 110, 97, 112, 115, 104, 111, 116]
  const NEXT_FILE_ID: Bytes := [110, 101, 120, 116, 95, 102, 105, 108, 101, 95, 105, 100]
  const FORMAT_VERSION: Bytes := [102, 111, 114, 109, 97, 116, 95, 118, 101, 114, 115, 105, 111, 110]

  const FORMAT := 1

  /** The names under which counters and checkpoint are kept. */
  lemma MetaNames()
    ensures |SNAPSHOT| == |"snapshot"| && forall i :: 0 <= i < |SNAPSHOT| ==> SNAPSHOT[i] == "snapshot"[i] as int
    ensures |NEXT_FILE_ID| == |"next_file_id"| && forall i :: 0 <= i < |NEXT_FILE_ID| ==> NEXT_FILE_ID[i] == "next_file_id"[i] as int
    ensures |FORMAT_VERSION| == |"format_version"| && forall i :: 0 <= i < |FORMAT_VERSION| ==> FORMAT_VERSION[i] == "format_version"[i] as int
  {
  }

  // ----- keys -----

  function RowKey(id: Bytes): (k: Bytes)
    ensures |k| > 0 && k[0] == ROW && k[1..] == id
  {
    [ROW] + id
  }

  function FileByID(id: nat): (k: Bytes)
    ensures |k| > 0 && k[0] == ID_TO_PATH && k[1..] == Be64(id)
  {
    [ID_TO_PATH] + Be64(id)
  }

  function FileByPath(path: Bytes): (k: Bytes)
    ensures |k| > 0 && k[0] == PATH_TO_ID && k[1..] == path
  {
    [PATH_TO_ID] + path
  }

  function MetaKey(name: Bytes): (k: Bytes)
    ensures |k| > 0 && k[0] == META && k[1..] == name
  {
    [META] + name
  }

  lemma FileByIDInjective(a: nat, b: nat)
    requires a < U64 && b < U64 && a != b
    ensures FileByID(a) != FileByID(b)
  {
    Be64RoundTrip(a);
    Be64RoundTrip(b);
    assert FileByID(a)[1..] == Be64(a) && FileByID(b)[1..] == Be64(b);
  }

  // ----- reading the store -----

  /** `readMetaKey`: a missing counter is 0, an unreadable one an error. */
  function Counter(db: Db, name: Bytes): Option<nat> {
    if MetaKey(name) !in db then Some(0)
    else match ReadUvarint(db[MetaKey(name)], 0)
         case None => None
         case Some(r) => Some(r.0)
  }

  /** `LastCommittedSnapshot`: a missing checkpoint is 0, an unreadable one an error. */
  function Snapshot(db: Db): Option<int> {
    if MetaKey(SNAPSHOT) !in db then Some(0) else ReadVarint(db[MetaKey(SNAPSHOT)])
  }

  /** A stored row value read back through the file table. */
  function Resolve(db: Db, value: Bytes): Found {
    match DecodeRow(value)
    case None => Corrupt
    case Some(row) =>
      if FileByID(row.0) in db then At(Location(db[FileByID(row.0)], row.1)) else Corrupt
  }

  function Find(db: Db, id: Bytes): Found {
    if RowKey(id) !in db then Missing else Resolve(db, db[RowKey(id)])
  }

  // ----- the abstract index -----

  predicate IsRow(key: Bytes) {
    key != [] && key[0] == ROW
  }

  function RowIds(db: Db): set<Bytes> {
    set k | k in db.Keys && IsRow(k) :: k[1..]
  }

  function Row(db: Db, id: Bytes): Location {
    var r := Find(db, id);
    if r.At? then r.location else Location([], 0)
  }

  function Index(db: Db): map<Bytes, Location> {
    map id | id in RowIds(db) :: Row(db, id)
  }

  function Checkpoint(db: Db): int {
    var s := Snapshot(db);
    if s.Some? then s.value else 0
  }

  function ViewOf(db: Db): View {
    View(Index(db), Checkpoint(db))
  }

  lemma RowIdsExact(db: Db, id: Bytes)
    ensures id in RowIds(db) <==> RowKey(id) in db
  {
    if id in RowIds(db) {
      var k :| k in db.Keys && IsRow(k) && k[1..] == id;
      assert RowKey(id) == k;
    }
    if RowKey(id) in db {
      assert IsRow(RowKey(id)) && RowKey(id)[1..] == id;
    }
  }

  // ----- what every store this code writes satisfies -----

  function NextId(db: Db): nat {
    var n := Counter(db, NEXT_FILE_ID);
    if n.Some? then n.value else 0
  }

  /** Every id below the counter names a path, and that path names it back. */
  ghost predicate IdsNamed(db: Db) {
    forall id: nat :: id < NextId(db) ==>
      FileByID(id) in db && FileByPath(db[FileByID(id)]) in db && db[FileByPath(db[FileByID(id)])] == Be64(id)
  }

  /** Every interned path has an id below the counter that names it. */
  ghost predicate PathsNamed(db: Db) {
    forall path: Bytes :: FileByPath(path) in db ==>
      var value := db[FileByPath(path)];
      |value| == 8 && ReadBe(value) < NextId(db) && value == Be64(ReadBe(value))
      && FileByID(ReadBe(value)) in db && db[FileByID(ReadBe(value))] == path
  }

  /** Rows point at interned files only. */
  predicate RowOk(db: Db, value: Bytes) {
    DecodeRow(value).Some? && DecodeRow(value).value.0 < NextId(db)
  }

  ghost predicate RowsOk(db: Db) {
    forall id: Bytes :: RowKey(id) in db ==> RowOk(db, db[RowKey(id)])
  }

  ghost predicate Sound(db: Db) {
    && Counter(db, FORMAT_VERSION) == Some(FORMAT)
    && Counter(db, NEXT_FILE_ID).Some?
    && NextId(db) < U64
    && IdsNamed(db) && PathsNamed(db) && RowsOk(db) && Snapshot(db).Some?
  }

  /** In a sound store no id and no path is interned twice. */
  lemma InterningInjective(db: Db, a: nat, b: nat)
    requires Sound(db) && a < NextId(db) && b < NextId(db)
    requires db[FileByID(a)] == db[FileByID(b)]
    ensures a == b
  {
    Be64RoundTrip(a);
    Be64RoundTrip(b);
  }

  /** In a sound store a read is never corrupt and is exactly a read of the abstract map. */
  lemma FindIsIndex(db: Db, id: Bytes)
    requires Sound(db)
    ensures Find(db, id) == if id in Index(db) then At(Index(db)[id]) else Missing
  {
    RowIdsExact(db, id);
    if RowKey(id) in db {
      assert RowOk(db, db[RowKey(id)]);
    }
  }

  // ----- one interned path -----

  function Intern(db: Db, id: nat, path: Bytes): Db {
    map[FileByID(id) := path, FileByPath(path) := Be64(id), MetaKey(NEXT_FILE_ID) := Uvarint(id + 1)]
  }

  /** Files known to `a` are still known, under the same id, to `b`. */
  ghost predicate FilesKept(a: Db, b: Db) {
    NextId(a) <= NextId(b) && forall id: nat :: id < NextId(a) ==>
      FileByID(id) in a && FileByID(id) in b && a[FileByID(id)] == b[FileByID(id)]
  }

  lemma CounterReads(db: Db, name: Bytes, value: nat)
    requires value < U64 && MetaKey(name) in db && db[MetaKey(name)] == Uvarint(value)
    ensures Counter(db, name) == Some(value)
  {
    UvarintRoundTrip(value, []);
    assert Uvarint(value) + [] == Uvarint(value);
  }

  lemma MetaKeysDiffer()
    ensures MetaKey(SNAPSHOT) != MetaKey(NEXT_FILE_ID)
    ensures MetaKey(SNAPSHOT) != MetaKey(FORMAT_VERSION)
    ensures MetaKey(NEXT_FILE_ID) != MetaKey(FORMAT_VERSION)
  {
    assert |MetaKey(SNAPSHOT)| == 9 && |MetaKey(NEXT_FILE_ID)| == 13 && |MetaKey(FORMAT_VERSION)| == 15;
  }

  lemma InternMeta(db: Db, path: Bytes)
    requires Sound(db) && NextId(db) + 1 < U64
    ensures var next := db + Intern(db, NextId(db), path);
            Counter(next, NEXT_FILE_ID) == Some(NextId(db) + 1)
            && Counter(next, FORMAT_VERSION) == Counter(db, FORMAT_VERSION)
            && Snapshot(next) == Snapshot(db)
  {
    MetaKeysDiffer();
    CounterReads(db + Intern(db, NextId(db), path), NEXT_FILE_ID, NextId(db) + 1);
  }

  lemma InternKeepsFiles(db: Db, path: Bytes)
    requires Sound(db) && NextId(db) + 1 < U64 && FileByPath(path) !in db
    ensures var next := db + Intern(db, NextId(db), path);
            FilesKept(db, next) && IdsNamed(next)
  {
    hide Be64, Uvarint, ReadUvarint, Counter;
    var n := NextId(db);
    var next := db + Intern(db, n, path);
    InternMeta(db, path);
    assert NextId(next) == n + 1;
    forall id: nat | id < n
      ensures FileByID(id) in next && next[FileByID(id)] == db[FileByID(id)]
      ensures FileByPath(db[FileByID(id)]) in next && next[FileByPath(db[FileByID(id)])] == Be64(id)
    {
      FileByIDInjective(id, n);
      assert FileByPath(db[FileByID(id)]) != FileByPath(path);
    }
  }

  lemma InternKeepsPaths(db: Db, path: Bytes)
    requires Sound(db) && NextId(db) + 1 < U64 && FileByPath(path) !in db
    ensures PathsNamed(db + Intern(db, NextId(db), path))
  {
    hide Be64, Uvarint, ReadUvarint, Counter;
    var n := NextId(db);
    var next := db + Intern(db, n, path);
    InternMeta(db, path);
    InternKeepsFiles(db, path);
    Be64RoundTrip(n);
    forall p: Bytes | FileByPath(p) in next
      ensures var value := next[FileByPath(p)];
              |value| == 8 && ReadBe(value) < NextId(next) && value == Be64(ReadBe(value))
              && FileByID(ReadBe(value)) in next && next[FileByID(ReadBe(value))] == p
    {
      if p != path {
        assert FileByPath(p)[1..] == p && FileByPath(path)[1..] == path;
        assert FileByPath(p) in db;
      }
    }
  }

  /** Rows read the same once the file table has only grown. */
  lemma SameRows(db: Db, next: Db)
    requires RowsOk(db) && FilesKept(db, next)
    requires forall k :: IsRow(k) ==> (k in db <==> k in next) && (k in db ==> db[k] == next[k])
    ensures RowsOk(next) && Index(next) == Index(db)
  {
    hide DecodeRow, NextId;
    forall id: Bytes
      ensures RowKey(id) in next ==> RowOk(next, next[RowKey(id)])
      ensures id in RowIds(next) <==> id in RowIds(db)
      ensures id in RowIds(db) ==> Row(next, id) == Row(db, id)
    {
      RowIdsExact(db, id);
      RowIdsExact(next, id);
      assert IsRow(RowKey(id));
    }
    assert RowIds(next) == RowIds(db);
  }

  /** Interning a path changes nothing a reader of the index can see. */
  lemma InternInvisible(db: Db, path: Bytes)
    requires Sound(db) && NextId(db) + 1 < U64 && FileByPath(path) !in db
    ensures var next := db + Intern(db, NextId(db), path);
            Sound(next) && ViewOf(next) == ViewOf(db) && FilesKept(db, next) && NextId(next) == NextId(db) + 1
  {
    hide Be64, Uvarint, ReadUvarint, Counter, Index, RowsOk, IdsNamed, PathsNamed, Snapshot;
    InternMeta(db, path);
    InternKeepsFiles(db, path);
    InternKeepsPaths(db, path);
    SameRows(db, db + Intern(db, NextId(db), path));
  }

  // ----- one batch of changes -----

  /** The staged batch holds, for the ids done so far, rows that read back as their changes. */
  ghost predicate Staged(db: Db, pending: Db, changes: map<Bytes, Location>, done: set<Bytes>) {
    && done <= changes.Keys
    && (forall k :: k in pending ==> IsRow(k) && k[1..] in done)
    && (forall id :: id in done ==> RowKey(id) in pending && RowOk(db, pending[RowKey(id)])
                                    && Resolve(db, pending[RowKey(id)]) == At(changes[id]))
  }

  lemma StagedKept(db: Db, next: Db, pending: Db, changes: map<Bytes, Location>, done: set<Bytes>)
    requires Staged(db, pending, changes, done) && FilesKept(db, next)
    ensures Staged(next, pending, changes, done)
  {
    hide DecodeRow, NextId;
  }

  /** `stageChange` for an interned file. */
  lemma StagedOneMore(db: Db, pending: Db, changes: map<Bytes, Location>, done: set<Bytes>, id: Bytes, file: nat)
    requires Staged(db, pending, changes, done) && id in changes && changes[id].position >= 0
    requires file < NextId(db) < U64 && FileByID(file) in db && db[FileByID(file)] == changes[id].path
    ensures Staged(db, pending[RowKey(id) := EncodeRow(file, changes[id].position)], changes, done + {id})
  {
    hide DecodeRow, NextId, EncodeRow;
    RowRoundTrip(file, changes[id].position);
    var more := pending[RowKey(id) := EncodeRow(file, changes[id].position)];
    assert RowKey(id)[1..] == id && IsRow(RowKey(id));
    forall other | other in done + {id}
      ensures RowKey(other) in more && RowOk(db, more[RowKey(other)])
              && Resolve(db, more[RowKey(other)]) == At(changes[other])
    {
      if other != id {
        assert RowKey(other)[1..] == other;
      }
    }
  }

  function SnapshotEntry(snapshot: Option<Int64>): Db {
    if snapshot.None? then map[] else map[MetaKey(SNAPSHOT) := Varint(snapshot.value)]
  }

  /** The view a batch asks for: its rows override, its checkpoint (if any) replaces. */
  function Overridden(view: View, changes: map<Bytes, Location>, snapshot: Option<Int64>): View {
    View(view.rows + changes, if snapshot.Some? then snapshot.value else view.checkpoint)
  }

  lemma OverriddenParts(view: View, changes: map<Bytes, Location>, snapshot: Option<Int64>)
    ensures Overridden(view, changes, snapshot).rows == view.rows + changes
    ensures Overridden(view, changes, snapshot).checkpoint == if snapshot.Some? then snapshot.value else view.checkpoint
  {
  }

  lemma CommittedMeta(db: Db, pending: Db, snapshot: Option<Int64>)
    requires Sound(db) && forall k :: k in pending ==> IsRow(k)
    ensures var next := db + pending + SnapshotEntry(snapshot);
            Counter(next, FORMAT_VERSION) == Counter(db, FORMAT_VERSION)
            && Counter(next, NEXT_FILE_ID) == Counter(db, NEXT_FILE_ID)
            && Snapshot(next).Some? && Checkpoint(next) == if snapshot.Some? then snapshot.value else Checkpoint(db)
  {
    hide ReadUvarint, ReadVarint, Varint;
    MetaKeysDiffer();
    assert forall name :: MetaKey(name) !in pending;
    if snapshot.Some? {
      VarintRoundTrip(snapshot.value);
    }
  }

  /** Only row keys and metadata keys were written, so the file tables stand. */
  lemma CommittedFiles(db: Db, next: Db)
    requires IdsNamed(db) && PathsNamed(db) && NextId(next) == NextId(db)
    requires forall k: Bytes :: k != [] && k[0] in {ID_TO_PATH, PATH_TO_ID} ==>
               (k in db <==> k in next) && (k in db ==> db[k] == next[k])
    ensures IdsNamed(next) && PathsNamed(next) && FilesKept(db, next)
  {
    hide NextId, Be64, ReadBe;
    forall id: nat | id < NextId(next)
      ensures FileByID(id) in next && next[FileByID(id)] == db[FileByID(id)]
      ensures FileByPath(next[FileByID(id)]) in next && next[FileByPath(next[FileByID(id)])] == Be64(id)
    {
      assert FileByID(id) in db;
    }
    forall path: Bytes | FileByPath(path) in next
      ensures var value := next[FileByPath(path)];
              |value| == 8 && ReadBe(value) < NextId(next) && value == Be64(ReadBe(value))
              && FileByID(ReadBe(value)) in next && next[FileByID(ReadBe(value))] == path
    {
      assert FileByPath(path) in db;
      assert FileByID(ReadBe(db[FileByPath(path)])) in db;
    }
  }

  /** The rows of `db` overridden by the staged rows. */
  ghost predicate RowsOverridden(db: Db, pending: Db, next: Db) {
    forall k :: IsRow(k) ==> (k in next <==> k in db || k in pending)
                             && (k in pending ==> next[k] == pending[k])
                             && (k in db && k !in pending ==> next[k] == db[k])
  }

  lemma CommittedRow(db: Db, next: Db, pending: Db, changes: map<Bytes, Location>, id: Bytes)
    requires RowsOk(db) && FilesKept(db, next) && Staged(db, pending, changes, changes.Keys)
    requires RowsOverridden(db, pending, next)
    ensures RowKey(id) in next ==> RowOk(next, next[RowKey(id)])
    ensures id in RowIds(next) <==> id in RowIds(db) || id in changes
    ensures id in changes ==> Row(next, id) == changes[id]
    ensures id in RowIds(db) && id !in changes ==> Row(next, id) == Row(db, id)
  {
    hide DecodeRow, NextId, RowIds;
    RowIdsExact(db, id);
    RowIdsExact(next, id);
    assert IsRow(RowKey(id)) && RowKey(id)[1..] == id;
    if id in changes {
      assert RowOk(db, pending[RowKey(id)]) && Resolve(db, pending[RowKey(id)]) == At(changes[id]);
    } else if RowKey(id) in db {
      assert RowOk(db, db[RowKey(id)]);
    }
  }

  lemma CommittedRows(db: Db, next: Db, pending: Db, changes: map<Bytes, Location>)
    requires RowsOk(db) && FilesKept(db, next) && Staged(db, pending, changes, changes.Keys)
    requires RowsOverridden(db, pending, next)
    ensures RowsOk(next) && Index(next) == Index(db) + changes
  {
    hide RowIds, Row, RowOk, Staged, FilesKept, RowsOverridden;
    forall id: Bytes
      ensures RowKey(id) in next ==> RowOk(next, next[RowKey(id)])
      ensures id in RowIds(next) <==> id in RowIds(db) || id in changes
      ensures id in changes ==> Row(next, id) == changes[id]
      ensures id in RowIds(db) && id !in changes ==> Row(next, id) == Row(db, id)
    {
      CommittedRow(db, next, pending, changes, id);
    }
    assert RowIds(next) == RowIds(db) + changes.Keys;
  }

  /** A staged batch consists of rows, so everything else stays. */
  lemma OnlyRowsStaged(db: Db, pending: Db, changes: map<Bytes, Location>, snapshot: Option<Int64>)
    requires Staged(db, pending, changes, changes.Keys)
    ensures var next := db + pending + SnapshotEntry(snapshot);
      && (forall k :: k in pending ==> IsRow(k)) && RowsOverridden(db, pending, next)
      && forall k: Bytes :: k != [] && k[0] in {ID_TO_PATH, PATH_TO_ID} ==> (k in db <==> k in next) && (k in db ==> db[k] == next[k])
  {
  }

  /** Committing a fully staged batch is one atomic override of the abstract map. */
  lemma CommitOverrides(db: Db, pending: Db, changes: map<Bytes, Location>, snapshot: Option<Int64>)
    requires Sound(db) && Staged(db, pending, changes, changes.Keys)
    ensures var next := db + pending + SnapshotEntry(snapshot);
            Sound(next) && NextId(next) == NextId(db) && FilesKept(db, next)
            && ViewOf(next) == Overridden(ViewOf(db), changes, snapshot)
  {
    var next := db + pending + SnapshotEntry(snapshot);
    OnlyRowsStaged(db, pending, changes, snapshot);
    hide Counter, Snapshot, Index, RowsOk, IdsNamed, PathsNamed, Checkpoint, FilesKept, Staged, SnapshotEntry, RowsOverridden, IsRow;
    CommittedMeta(db, pending, snapshot);
    CommittedFiles(db, next);
    CommittedRows(db, next, pending, changes);
  }

  // ----- truncation -----

  function DeleteRange(db: Db, from: Bytes, to: Bytes): Db {
    map k | k in db && !(AtOrAfter(k, from) && Before(k, to)) :: db[k]
  }

  predicate ReservedBelow(key: Bytes, p: int) {
    key != [] && ROW <= key[0] < p
  }

  lemma DeletesOnePrefix(db: Db, p: Byte)
    requires ROW <= p <= META
    ensures EndOf([p]).Some?
    ensures DeleteRange(map k | k in db && !ReservedBelow(k, p) :: db[k], [p], EndOf([p]).value)
            == map k | k in db && !ReservedBelow(k, p + 1) :: db[k]
  {
    assert EndOf([p]) == Some([] + [p + 1]);
    forall k: Bytes
      ensures AtOrAfter(k, [p]) && Before(k, EndOf([p]).value) <==> k != [] && k[0] == p
    {
      PrefixRange([p], k);
    }
  }

  /** Once every reserved key is gone, the format marker alone is a sound, empty index. */
  lemma TruncatedIsEmpty(db: Db)
    requires forall k :: k in db ==> !ReservedBelow(k, META + 1)
    ensures var next := db[MetaKey(FORMAT_VERSION) := Uvarint(FORMAT)];
            Sound(next) && ViewOf(next) == View(map[], 0) && NextId(next) == 0
  {
    var next := db[MetaKey(FORMAT_VERSION) := Uvarint(FORMAT)];
    MetaKeysDiffer();
    CounterReads(next, FORMAT_VERSION, FORMAT);
    assert forall k :: k in next && k != [] && k[0] in {ROW, ID_TO_PATH, PATH_TO_ID} ==> ReservedBelow(k, META + 1);
    assert MetaKey(NEXT_FILE_ID) !in next && MetaKey(SNAPSHOT) !in next by {
      assert ReservedBelow(MetaKey(NEXT_FILE_ID), META + 1) && ReservedBelow(MetaKey(SNAPSHOT), META + 1);
    }
    assert RowIds(next) == {};
  }

  // ----- the index object -----

  /** The store contents recorded since `from` are sound and show one of two views. */
  ghost predicate Recorded(from: seq<Db>, to: seq<Db>, before: View, after: View) {
    && from <= to
    && forall i :: |from| <= i < |to| ==> Sound(to[i]) && (ViewOf(to[i]) == before || ViewOf(to[i]) == after)
  }

  class PebbleIndex {
    var db: Db
    var pathToID: map<Bytes, nat>
    var idToPath: map<nat, Bytes>
    var nextFileID: nat
    /** The durable contents after every committed write; a crash leaves the last of them. */
    ghost var trace: seq<Db>

    /** Cached ids read like the store. */
    ghost predicate IdCacheOk()
      reads this
    {
      forall id :: id in idToPath ==> FileByID(id) in db && db[FileByID(id)] == idToPath[id]
    }

    ghost predicate PathCacheOk()
      reads this
    {
      forall path :: path in pathToID ==>
        pathToID[path] < NextId(db) && FileByID(pathToID[path]) in db && db[FileByID(pathToID[path])] == path
    }

    ghost predicate Valid()
      reads this
    {
      && Sound(db) && nextFileID == NextId(db) && IdCacheOk() && PathCacheOk()
      && forall id :: id in idToPath ==> id < NextId(db)
    }

    constructor (stored: Db)
      ensures db == stored && pathToID == map[] && idToPath == map[] && nextFileID == 0 && trace == []
    {
      db, pathToID, idToPath, nextFileID := stored, map[], map[], 0;
      trace := [];
    }

    /** An atomic batch: durable as a whole or not at all. */
    method Apply(next: Db) returns (ok: bool)
      modifies `db, `trace
      ensures ok ==> db == next && trace == old(trace) + [next]
      ensures !ok ==> db == old(db) && trace == old(trace)
    {
      ok := *;
      if ok {
        db := next;
        trace := trace + [next];
      }
    }

    /** `filePath`. */
    method FilePath(id: nat) returns (path: Option<Bytes>)
      requires IdCacheOk()
      modifies `pathToID, `idToPath
      ensures IdCacheOk()
      ensures path == if FileByID(id) in db then Some(db[FileByID(id)]) else None
      ensures old(Valid()) && id < NextId(db) ==> Valid()
    {
      if id in idToPath {
        return Some(idToPath[id]);
      }
      if FileByID(id) !in db {
        return None;
      }
      path := Some(db[FileByID(id)]);
      idToPath := idToPath[id := path.value];
      pathToID := pathToID[path.value := id];
    }

    /** `Lookup`, on whatever the store holds. */
    method Lookup(key: Bytes) returns (r: Found)
      requires IdCacheOk()
      modifies `pathToID, `idToPath
      ensures IdCacheOk()
      ensures r == Find(db, key)
      ensures old(Valid()) ==> Valid()
    {
      hide DecodeRow, Sound, NextId;
      if RowKey(key) !in db {
        return Missing;
      }
      var row := DecodeRow(db[RowKey(key)]);
      if row.None? {
        return Corrupt;
      }
      ghost var sound := Valid();
      assert sound ==> row.value.0 < NextId(db) by {
        if sound { RowBelowNext(db, key); }
      }
      var path := FilePath(row.value.0);
      if path.None? {
        return Corrupt;
      }
      return At(Location(path.value, row.value.1));
    }

    /** The durable part of `fileID` for a path seen for the first time. */
    method InternPath(path: Bytes) returns (ok: bool)
      requires Valid() && nextFileID + 1 < U64 && FileByPath(path) !in db
      modifies this
      ensures Valid() && ViewOf(db) == old(ViewOf(db)) && FilesKept(old(db), db)
      ensures ok ==> nextFileID == old(nextFileID) + 1
                     && FileByID(old(nextFileID)) in db && db[FileByID(old(nextFileID))] == path
      ensures !ok ==> unchanged(this)
      ensures Recorded(old(trace), trace, old(ViewOf(db)), old(ViewOf(db)))
    {
      hide ViewOf, RowsOk, Counter, Snapshot, Be64, ReadBe, IdsNamed, PathsNamed, NextId;
      assert FilesKept(db, db) by { AllFilesKept(db); }
      InternInvisible(db, path);
      ok := Apply(db + Intern(db, nextFileID, path));
      if ok {
        nextFileID := nextFileID + 1;
      }
    }

    /** `fileID`: the cached, stored or next id of a path. */
    method FileID(path: Bytes) returns (id: Option<nat>)
      requires Valid() && nextFileID + 1 < U64
      modifies this
      ensures Valid() && ViewOf(db) == old(ViewOf(db)) && FilesKept(old(db), db)
      ensures nextFileID <= old(nextFileID) + 1
      ensures id.Some? ==> id.value < NextId(db) && FileByID(id.value) in db && db[FileByID(id.value)] == path
      ensures Recorded(old(trace), trace, old(ViewOf(db)), old(ViewOf(db)))
    {
      hide ViewOf, RowsOk, Counter, Snapshot, Be64, ReadBe, IdsNamed, NextId, FileByID, FileByPath;
      assert FilesKept(db, db) by { AllFilesKept(db); }
      if path in pathToID {
        return Some(pathToID[path]);
      }
      var chosen: nat;
      if FileByPath(path) in db {
        assert |db[FileByPath(path)]| == 8;
        chosen := ReadBe(db[FileByPath(path)]);
      } else {
        chosen := nextFileID;
        var ok := InternPath(path);
        if !ok {
          return None;
        }
      }
      pathToID := pathToID[path := chosen];
      idToPath := idToPath[chosen := path];
      id := Some(chosen);
    }

    /** `stageChange`: one change added to the pending batch. */
    method StageChange(pending: Db, id: Bytes, ghost changes: map<Bytes, Location>, ghost done: set<Bytes>,
                       location: Location) returns (ok: bool, more: Db)
      requires Valid() && nextFileID + 1 < U64
      requires id in changes && changes[id] == location && Staged(db, pending, changes, done)
      modifies this
      ensures Valid() && ViewOf(db) == old(ViewOf(db)) && nextFileID <= old(nextFileID) + 1
      ensures Recorded(old(trace), trace, old(ViewOf(db)), old(ViewOf(db)))
      ensures ok ==> location.position >= 0 && Staged(db, more, changes, done + {id})
    {
      hide ViewOf, Sound, Staged, NextId, FileByID, RowKey, EncodeRow;
      ok, more := false, pending;
      if location.position < 0 {
        return;
      }
      ghost var before := db;
      var file := FileID(location.path);
      if file.None? {
        return;
      }
      StagedKept(before, db, pending, changes, done);
      NextBelow(db);
      StagedOneMore(db, pending, changes, done, id, file.value);
      ok, more := true, pending[RowKey(id) := EncodeRow(file.value, location.position)];
    }

    /** The staging part of `Commit`: every change, in any order. */
    method StageAll(changes: map<Bytes, Location>) returns (ok: bool, pending: Db)
      requires Valid() && nextFileID + |changes| < U64
      modifies this
      ensures Valid() && nextFileID <= old(nextFileID) + |changes| && ViewOf(db) == old(ViewOf(db))
      ensures ok ==> Staged(db, pending, changes, changes.Keys)
      ensures ok ==> forall id :: id in changes ==> changes[id].position >= 0
      ensures Recorded(old(trace), trace, old(ViewOf(db)), old(ViewOf(db)))
    {
      hide ViewOf, Sound, Staged, NextId, FileByID, RowKey;
      ok, pending := true, map[];
      var todo := changes.Keys;
      NothingStaged(db, changes);
      assert changes.Keys - todo == {};
      while todo != {}
        invariant todo <= changes.Keys
        invariant Valid() && nextFileID + |todo| <= old(nextFileID) + |changes|
        invariant ViewOf(db) == old(ViewOf(db)) && Staged(db, pending, changes, changes.Keys - todo)
        invariant Recorded(old(trace), trace, old(ViewOf(db)), old(ViewOf(db)))
        invariant forall id :: id in changes.Keys - todo ==> changes[id].position >= 0
        invariant ok
        decreases todo
      {
        var id :| id in todo;
        assert changes.Keys - todo + {id} == changes.Keys - (todo - {id});
        ok, pending := StageChange(pending, id, changes, changes.Keys - todo, changes[id]);
        if !ok {
          return;
        }
        todo := todo - {id};
      }
      assert changes.Keys - todo == changes.Keys;
    }

    /** A batch that leaves the file tables alone keeps the caches right. */
    method ApplyRows(next: Db) returns (ok: bool)
      requires Valid() && Sound(next) && FilesKept(db, next) && NextId(next) == NextId(db)
      modifies `db, `trace
      ensures Valid()
      ensures ok ==> db == next && trace == old(trace) + [next]
      ensures !ok ==> db == old(db) && trace == old(trace)
    {
      hide Sound, NextId, FileByID;
      ok := Apply(next);
    }

    /** `Commit`: stage every change, then one atomic batch with the checkpoint. */
    method Commit(changes: map<Bytes, Location>, snapshot: Option<Int64>) returns (ok: bool)
      requires Valid() && nextFileID + |changes| < U64
      modifies this
      ensures Valid() && nextFileID <= old(nextFileID) + |changes|
      ensures ViewOf(db) == if ok then Overridden(old(ViewOf(db)), changes, snapshot) else old(ViewOf(db))
      ensures ok ==> forall id :: id in changes ==> changes[id].position >= 0
      ensures Recorded(old(trace), trace, old(ViewOf(db)), Overridden(old(ViewOf(db)), changes, snapshot))
    {
      hide ViewOf, Sound, Staged, NextId, FileByID, RowKey, Overridden, SnapshotEntry, FilesKept, IdCacheOk, PathCacheOk;
      var pending: Db;
      ok, pending := StageAll(changes);
      if !ok {
        return;
      }
      CommitOverrides(db, pending, changes, snapshot);
      if pending == map[] && snapshot.None? {
        EmptyBatch(db, pending, changes, snapshot);
        return true;
      }
      ok := ApplyRows(db + pending + SnapshotEntry(snapshot));
    }

    /** `Truncate`: every reserved key goes in one batch, whatever the store held. */
    method Truncate() returns (ok: bool)
      modifies this
      ensures ok ==> Valid() && ViewOf(db) == View(map[], 0) && nextFileID == 0
      ensures ok ==> forall k :: k in db && k != MetaKey(FORMAT_VERSION) ==> !ReservedBelow(k, META + 1) && k in old(db)
      ensures ok ==> trace == old(trace) + [db]
      ensures !ok ==> unchanged(this)
    {
      hide ViewOf, Sound, NextId;
      var next := db;
      var p := ROW;
      assert next == map k | k in db && !ReservedBelow(k, ROW) :: db[k];
      while p <= META
        invariant ROW <= p <= META + 1 && unchanged(this)
        invariant next == map k | k in db && !ReservedBelow(k, p) :: db[k]
        decreases META - p
      {
        var end := PrefixEnd([p]);
        DeletesOnePrefix(db, p);
        next := DeleteRange(next, [p], end.value);
        p := p + 1;
      }
      TruncatedIsEmpty(next);
      ok := Apply(next[MetaKey(FORMAT_VERSION) := Uvarint(FORMAT)]);
      if ok {
        pathToID, idToPath, nextFileID := map[], map[], 0;
      }
    }

    /** `load` with `checkFormatVersion`: an unknown format is discarded, a known one kept as it is. */
    method Load() returns (ok: bool)
      requires pathToID == map[] && idToPath == map[]
      modifies this
      ensures ok && Counter(old(db), FORMAT_VERSION) == Some(FORMAT) ==>
                db == old(db) && Counter(db, NEXT_FILE_ID) == Some(nextFileID)
      ensures ok && old(Sound(db)) ==> Valid() && ViewOf(db) == old(ViewOf(db))
      ensures ok && Counter(old(db), FORMAT_VERSION) != Some(FORMAT) ==>
                Valid() && ViewOf(db) == View(map[], 0)
      ensures Counter(old(db), FORMAT_VERSION).None? ==> !ok
    {
      hide Counter, ViewOf, IdsNamed, PathsNamed, RowsOk, Snapshot;
      var stored := Counter(db, FORMAT_VERSION);
      if stored.None? {
        return false;
      }
      if stored.value != FORMAT {
        ok := Truncate();
        if !ok {
          return;
        }
      }
      var next := Counter(db, NEXT_FILE_ID);
      if next.None? {
        return false;
      }
      nextFileID := next.value;
      ok := true;
    }
  }

  lemma NextBelow(db: Db)
    requires Sound(db)
    ensures NextId(db) < U64
  {
  }

  lemma NothingStaged(db: Db, changes: map<Bytes, Location>)
    ensures Staged(db, map[], changes, {})
  {
  }

  /** An empty batch changes nothing: the store is not written. */
  lemma EmptyBatch(db: Db, pending: Db, changes: map<Bytes, Location>, snapshot: Option<Int64>)
    requires Staged(db, pending, changes, changes.Keys) && pending == map[] && snapshot.None?
    ensures Overridden(ViewOf(db), changes, snapshot) == ViewOf(db)
  {
    assert changes == map[] by {
      if id :| id in changes { assert RowKey(id) in pending; }
    }
    assert ViewOf(db).rows + changes == ViewOf(db).rows;
  }

  lemma AllFilesKept(db: Db)
    requires Sound(db)
    ensures FilesKept(db, db)
  {
  }

  lemma RowBelowNext(db: Db, key: Bytes)
    requires Sound(db) && RowKey(key) in db
    ensures DecodeRow(db[RowKey(key)]).Some? && DecodeRow(db[RowKey(key)]).value.0 < NextId(db)
  {
    assert RowOk(db, db[RowKey(key)]);
  }
}
