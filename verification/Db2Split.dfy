/** How DB2 tables are split: a walk along the primary key with a parameterised query, or equal ranges
    of physical row ids. */
module Db2Split {
  import opened Wrappers
  import opened Chunking

  // ----- the next-boundary query and its arguments -----

  /** One `column op ?` of the query text. */
  datatype Slot = Slot(column: nat, op: Op)

  function SlotGroup(c: nat): seq<Slot> {
    seq(c, e requires 0 <= e < c => Slot(e, Equal)) + [Slot(c, Greater)]
  }

  /** The WHERE clause over `n` columns, in the order its placeholders are written. */
  function Template(n: nat): seq<seq<Slot>> {
    seq(n, c requires 0 <= c < n => SlotGroup(c))
  }

  function Placeholders(template: seq<seq<Slot>>): nat {
    if template == [] then 0 else Placeholders(template[..|template| - 1]) + |template[|template| - 1]|
  }

  function BindGroup(slots: seq<Slot>, args: Key): seq<Test>
    requires |args| == |slots|
  {
    seq(|slots|, i requires 0 <= i < |slots| => Test(slots[i].column, slots[i].op, args[i]))
  }

  /** Placeholders take the arguments in order, as the driver binds them. */
  function Bind(template: seq<seq<Slot>>, args: Key): seq<seq<Test>>
    requires |args| == Placeholders(template)
    decreases |template|
  {
    if template == [] then []
    else
      var last := template[|template| - 1];
      var cut := |args| - |last|;
      Bind(template[..|template| - 1], args[..cut]) + [BindGroup(last, args[cut..])]
  }

  /** The argument list of one iteration, flat. */
  function Args(n: nat, parts: Key): Key {
    if n == 0 then [] else Args(n - 1, parts) + Cut(parts, n)
  }

  method BuildArgs(n: nat, parts: Key) returns (args: Key)
    ensures args == Args(n, parts)
  {
    args := [];
    for column := 0 to n
      invariant args == Args(column, parts)
    {
      ghost var before := args;
      var part := 0;
      while part <= column && part < |parts|
        invariant 0 <= part <= column + 1 && part <= |parts|
        invariant args == before + parts[..part]
      {
        args := args + [parts[part]];
        part := part + 1;
      }
      assert parts[..part] == Cut(parts, column + 1);
    }
  }

  lemma TemplateLast(n: nat)
    requires n > 0
    ensures Template(n)[..n - 1] == Template(n - 1) && Template(n)[n - 1] == SlotGroup(n - 1)
  {
  }

  /** The list fits the placeholders exactly when the boundary has a part for every column. */
  lemma {:induction false} ArgsFit(n: nat, parts: Key)
    ensures |Args(n, parts)| <= Placeholders(Template(n))
    ensures |Args(n, parts)| == Placeholders(Template(n)) <==> |parts| >= n
    decreases n
  {
    if n > 0 {
      ArgsFit(n - 1, parts);
      TemplateLast(n);
      assert Placeholders(Template(n)) == Placeholders(Template(n - 1)) + n;
    }
  }

  /** The groups one would write by hand: equal before column `c`, greater at it. */
  function After(parts: Key, c: nat): seq<Test>
    requires c < |parts|
  {
    Matches(parts, c) + [Test(c, Greater, parts[c])]
  }

  function AfterGroups(n: nat, parts: Key): seq<seq<Test>>
    requires n <= |parts|
  {
    seq(n, c requires 0 <= c < n => After(parts, c))
  }

  lemma BindAfter(parts: Key, c: nat)
    requires c < |parts|
    ensures BindGroup(SlotGroup(c), parts[..c + 1]) == After(parts, c)
  {
  }

  lemma ArgsLast(n: nat, parts: Key)
    requires 0 < n <= |parts|
    ensures |Args(n, parts)| == |Args(n - 1, parts)| + n
    ensures Args(n, parts)[..|Args(n - 1, parts)|] == Args(n - 1, parts)
    ensures Args(n, parts)[|Args(n - 1, parts)|..] == parts[..n]
  {
  }

  lemma {:induction false} BoundGroups(n: nat, parts: Key)
    requires n <= |parts|
    ensures |Args(n, parts)| == Placeholders(Template(n))
    ensures Bind(Template(n), Args(n, parts)) == AfterGroups(n, parts)
    decreases n
  {
    hide Args, After, SlotGroup, BindGroup, Template;
    ArgsFit(n, parts);
    if n > 0 {
      BoundGroups(n - 1, parts);
      TemplateLast(n);
      ArgsLast(n, parts);
      BindAfter(parts, n - 1);
      assert |Template(n)| == n && |SlotGroup(n - 1)| == n by { TemplateSizes(n); }
      assert AfterGroups(n, parts) == AfterGroups(n - 1, parts) + [After(parts, n - 1)];
    } else {
      TemplateSizes(0);
    }
  }

  lemma TemplateSizes(n: nat)
    ensures |Template(n)| == n && (n > 0 ==> |SlotGroup(n - 1)| == n)
  {
  }

  /** Bound to its flat argument list, the nested clause means: strictly after the current key. */
  lemma WhereIsAfter(n: nat, parts: Key, t: Key)
    requires n <= |parts| && |t| == n
    ensures |Args(n, parts)| == Placeholders(Template(n))
    ensures Holds(Bind(Template(n), Args(n, parts)), t) <==> Below(parts, t)
  {
    BoundGroups(n, parts);
    var groups := Bind(Template(n), Args(n, parts));
    if Holds(groups, t) {
      var g :| g in groups && All(g, t);
      var c :| 0 <= c < n && groups[c] == g;
      AfterMeans(parts, c, t);
      ColumnIsBelow(parts, t, c);
    }
    if Below(parts, t) {
      var c := BelowHasColumn(parts, t);
      AfterMeans(parts, c, t);
      assert groups[c] == After(parts, c);
    }
  }

  lemma AfterMeans(parts: Key, c: nat, t: Key)
    requires c < |parts| && c < |t|
    ensures All(After(parts, c), t) <==> t[..c] == parts[..c] && t[c] > parts[c]
  {
    MatchesIsPrefix(parts, c, t);
    var last := Test(c, Greater, parts[c]);
    assert After(parts, c) == Matches(parts, c) + [last];
    assert last in After(parts, c);
    assert forall test :: test in After(parts, c) <==> test in Matches(parts, c) || test == last;
  }

  // ----- the table -----

  predicate Wide(keys: seq<Key>, n: nat) {
    forall i :: 0 <= i < |keys| ==> |keys[i]| == n
  }

  /** Keys in the order the database returns them. */
  predicate Ordered(keys: seq<Key>) {
    forall i, j :: 0 <= i < j < |keys| ==> !Below(keys[j], keys[i])
  }

  predicate Unique(keys: seq<Key>) {
    forall i, j :: 0 <= i < j < |keys| ==> keys[i] != keys[j]
  }

  function Filter(keys: seq<Key>, groups: seq<seq<Test>>): seq<Key> {
    if keys == [] then []
    else if Holds(groups, keys[0]) then [keys[0]] + Filter(keys[1..], groups)
    else Filter(keys[1..], groups)
  }

  /** The query: matching rows in key order, skip `chunkSize`, take one. */
  function NextChunkEnd(keys: seq<Key>, groups: seq<seq<Test>>, chunkSize: nat): Option<Key> {
    var rows := Filter(keys, groups);
    if chunkSize < |rows| then Some(rows[chunkSize]) else None
  }

  lemma {:induction false} FilterAll(keys: seq<Key>, groups: seq<seq<Test>>)
    requires forall i :: 0 <= i < |keys| ==> Holds(groups, keys[i])
    ensures Filter(keys, groups) == keys
    decreases |keys|
  {
    if keys != [] {
      assert Holds(groups, keys[0]);
      FilterAll(keys[1..], groups);
    }
  }

  /** Rows past a point of an ordered table are its tail. */
  lemma {:induction false} FilterTail(keys: seq<Key>, groups: seq<seq<Test>>, s: nat)
    requires s <= |keys|
    requires forall i :: 0 <= i < |keys| ==> (Holds(groups, keys[i]) <==> s <= i)
    ensures Filter(keys, groups) == keys[s..]
    decreases |keys|
  {
    if s == 0 {
      FilterAll(keys, groups);
    } else {
      assert !Holds(groups, keys[0]);
      FilterTail(keys[1..], groups, s - 1);
      assert keys[1..][s - 1..] == keys[s..];
    }
  }

  /** The first row strictly after `keys[i]`. */
  function FirstAfter(keys: seq<Key>, key: Key, from: nat): (s: nat)
    requires from <= |keys|
    ensures from <= s <= |keys| && (s < |keys| ==> Below(key, keys[s]))
    ensures forall j :: from <= j < s ==> !Below(key, keys[j])
    decreases |keys| - from
  {
    if from == |keys| || Below(key, keys[from]) then from else FirstAfter(keys, key, from + 1)
  }

  lemma AfterIsTail(n: nat, keys: seq<Key>, i: nat, j: nat)
    requires Wide(keys, n) && Ordered(keys) && i < |keys| && j < |keys|
    ensures Below(keys[i], keys[j]) <==> FirstAfter(keys, keys[i], i) <= j
  {
    var s := FirstAfter(keys, keys[i], i);
    BelowTotal(keys[i], keys[j]);
    if s < j {
      BelowTotal(keys[s], keys[j]);
      assert keys[s][..n] == keys[s] && keys[j][..n] == keys[j];
      if Below(keys[s], keys[j]) { BelowTransitive(keys[i], keys[s], keys[j]); }
    }
  }

  /** One query of the walk, by position: skip to the rows after the current key, then `chunkSize` more. */
  lemma NextBoundary(n: nat, keys: seq<Key>, i: nat, chunkSize: nat)
    requires n >= 1 && Wide(keys, n) && Ordered(keys) && i < |keys|
    ensures |Args(n, keys[i])| == Placeholders(Template(n))
    ensures var s := FirstAfter(keys, keys[i], i);
            NextChunkEnd(keys, Bind(Template(n), Args(n, keys[i])), chunkSize)
            == if s + chunkSize < |keys| then Some(keys[s + chunkSize]) else None
  {
    ArgsFit(n, keys[i]);
    var groups := Bind(Template(n), Args(n, keys[i]));
    var s := FirstAfter(keys, keys[i], i);
    forall j | 0 <= j < |keys| ensures Holds(groups, keys[j]) <==> s <= j {
      WhereIsAfter(n, keys[i], keys[j]);
      AfterIsTail(n, keys, i, j);
    }
    FilterTail(keys, groups, s);
  }

  // ----- the walk -----

  function Tiles(bounds: seq<Key>): set<Chunk> {
    set i | 0 <= i <= |bounds| :: ChunkAt(bounds, i)
  }

  /** Boundaries are keys of the table, further and further along. */
  predicate Along(keys: seq<Key>, bounds: seq<Key>, at: seq<nat>) {
    && |at| == |bounds|
    && forall j :: 0 <= j < |at| ==> at[j] < |keys| && bounds[j] == keys[at[j]]
  }

  /** The chunks found so far, all but the last open one. */
  function Closed(bounds: seq<Key>): set<Chunk> {
    set i | 0 <= i < |bounds| :: ChunkAt(bounds, i)
  }

  /** Boundary distances when no two rows share a key. */
  predicate Spaced(keys: seq<Key>, at: seq<nat>, chunkSize: nat) {
    Unique(keys) ==> forall j :: 0 < j < |at| ==> at[j] == at[j - 1] + chunkSize + 1
  }

  lemma UniqueAfter(n: nat, keys: seq<Key>, i: nat)
    requires Wide(keys, n) && Ordered(keys) && Unique(keys) && i < |keys|
    ensures FirstAfter(keys, keys[i], i) == i + 1
  {
    BelowTotal(keys[i], keys[i]);
    if i + 1 < |keys| {
      BelowTotal(keys[i], keys[i + 1]);
      assert keys[i][..n] == keys[i] && keys[i + 1][..n] == keys[i + 1];
    }
  }

  lemma ClosedMore(bounds: seq<Key>, next: Key)
    requires bounds != []
    ensures Closed(bounds + [next]) == Closed(bounds) + {Chunk(Some(bounds[|bounds| - 1]), Some(next))}
  {
    var more := bounds + [next];
    assert forall i :: 0 <= i < |bounds| ==> ChunkAt(more, i) == ChunkAt(bounds, i);
    assert ChunkAt(more, |bounds|) == Chunk(Some(bounds[|bounds| - 1]), Some(next));
    forall c | c in Closed(more) ensures c in Closed(bounds) + {Chunk(Some(bounds[|bounds| - 1]), Some(next))} {
      var i :| 0 <= i < |more| && ChunkAt(more, i) == c;
    }
    forall c | c in Closed(bounds) ensures c in Closed(more) {
      var i :| 0 <= i < |bounds| && ChunkAt(bounds, i) == c;
      assert ChunkAt(more, i) == c;
    }
  }

  /** What the walk has done when it stands on row `i`. */
  predicate Walk(n: nat, keys: seq<Key>, bounds: seq<Key>, at: seq<nat>, i: nat, chunkSize: nat) {
    && at != [] && at[0] == 0 && at[|at| - 1] == i && i < |keys|
    && Along(keys, bounds, at) && Ascending(n, bounds) && Full(bounds, n) && Spaced(keys, at, chunkSize)
  }

  lemma WalkStart(n: nat, keys: seq<Key>, chunkSize: nat)
    requires Wide(keys, n) && keys != []
    ensures Walk(n, keys, [keys[0]], [0], 0, chunkSize)
    ensures Closed([keys[0]]) == {Chunk(None, Some(keys[0]))}
  {
    assert ChunkAt([keys[0]], 0) == Chunk(None, Some(keys[0]));
  }

  lemma WalkGives(n: nat, keys: seq<Key>, bounds: seq<Key>, at: seq<nat>, i: nat, chunkSize: nat)
    requires Walk(n, keys, bounds, at, i, chunkSize)
    ensures at != [] && at[0] == 0 && at[|at| - 1] == i
    ensures Along(keys, bounds, at) && Ascending(n, bounds) && Full(bounds, n) && Spaced(keys, at, chunkSize)
  {
  }

  lemma WalkStep(n: nat, keys: seq<Key>, bounds: seq<Key>, at: seq<nat>, i: nat, j: nat, chunkSize: nat)
    requires Wide(keys, n) && Ordered(keys) && Walk(n, keys, bounds, at, i, chunkSize)
    requires j == FirstAfter(keys, keys[i], i) + chunkSize && j < |keys|
    ensures i < j && Walk(n, keys, bounds + [keys[j]], at + [j], j, chunkSize)
  {
    hide Ordered, Unique, Below, FirstAfter, Wide;
    assert |keys[i]| == n && |keys[j]| == n by { KeyWidth(n, keys, i); KeyWidth(n, keys, j); }
    AfterIsTail(n, keys, i, j);
    NotAfterItself(n, keys, i);
    assert Cut(keys[i], n) == keys[i];
    if Unique(keys) { UniqueAfter(n, keys, i); }
  }

  lemma KeyWidth(n: nat, keys: seq<Key>, i: nat)
    requires Wide(keys, n) && i < |keys|
    ensures |keys[i]| == n
  {
  }

  lemma NotAfterItself(n: nat, keys: seq<Key>, i: nat)
    requires Wide(keys, n) && Ordered(keys) && i < |keys|
    ensures i < FirstAfter(keys, keys[i], i)
  {
    BelowTotal(keys[i], keys[i]);
  }

  /** `splitViaPrimaryKey` from the table's smallest key on, with `chunkSize` rows to skip. */
  method SplitViaPrimaryKey(n: nat, keys: seq<Key>, chunkSize: nat)
    returns (chunks: set<Chunk>, ghost bounds: seq<Key>, ghost at: seq<nat>)
    requires n >= 1 && Wide(keys, n) && Ordered(keys)
    ensures keys == [] ==> chunks == {}
    ensures Along(keys, bounds, at) && Ascending(n, bounds) && Full(bounds, n)
    ensures keys != [] ==> chunks == Tiles(bounds) && at != [] && at[0] == 0
    ensures Spaced(keys, at, chunkSize)
    ensures keys != [] ==> at[|at| - 1] < |keys| && FirstAfter(keys, keys[at[|at| - 1]], at[|at| - 1]) + chunkSize >= |keys|
  {
    hide Filter, Bind, Template, Args, Placeholders, Walk, Closed, Tiles, Unique, Below, Cut;
    chunks, bounds, at := {}, [], [];
    if keys == [] {
      return;
    }
    var current := keys[0];
    chunks := {Chunk(None, Some(current))};
    bounds, at := [current], [0];
    WalkStart(n, keys, chunkSize);
    ghost var i: nat := 0;
    while true
      invariant i < |keys| && Walk(n, keys, bounds, at, i, chunkSize)
      invariant bounds != [] && bounds[|bounds| - 1] == keys[i]
      invariant current == keys[i] && chunks == Closed(bounds)
      decreases |keys| - i
    {
      var args := BuildArgs(n, current);
      NextBoundary(n, keys, i, chunkSize);
      var next := NextChunkEnd(keys, Bind(Template(n), args), chunkSize);
      if next.None? {
        break;
      }
      ghost var s := FirstAfter(keys, current, i);
      WalkStep(n, keys, bounds, at, i, s + chunkSize, chunkSize);
      ClosedMore(bounds, next.value);
      chunks := chunks + {Chunk(Some(current), Some(next.value))};
      bounds, at, i := bounds + [next.value], at + [s + chunkSize], s + chunkSize;
      current := next.value;
    }
    TilesOpen(bounds);
    WalkGives(n, keys, bounds, at, i, chunkSize);
    chunks := chunks + {Chunk(Some(current), None)};
  }

  lemma TilesOpen(bounds: seq<Key>)
    requires bounds != []
    ensures Tiles(bounds) == Closed(bounds) + {Chunk(Some(bounds[|bounds| - 1]), None)}
  {
    assert ChunkAt(bounds, |bounds|) == Chunk(Some(bounds[|bounds| - 1]), None);
  }

  /** The chunks of a split cover every key of the table's width, present or future, exactly once. */
  lemma SplitTiles(n: nat, bounds: seq<Key>, t: Key)
    requires n >= 1 && |t| == n && Ascending(n, bounds) && Full(bounds, n)
    ensures exists c :: c in Tiles(bounds) && InRange(c, t) && forall d :: d in Tiles(bounds) && InRange(d, t) ==> d == c
  {
    hide InRange;
    FullTiles(n, bounds, t);
    var i := Home(bounds, t);
    ExpandedIsRange(n, bounds, t, i);
    assert ChunkAt(bounds, i) in Tiles(bounds);
    forall d | d in Tiles(bounds) && InRange(d, t) ensures d == ChunkAt(bounds, i) {
      var j :| 0 <= j <= |bounds| && ChunkAt(bounds, j) == d;
      ExpandedIsRange(n, bounds, t, j);
      assert SelectedBy(n, bounds, t, j) && SelectedBy(n, bounds, t, i);
    }
  }

  lemma UniqueOrder(n: nat, keys: seq<Key>, i: nat, j: nat)
    requires Wide(keys, n) && Ordered(keys) && Unique(keys) && i < |keys| && j < |keys|
    ensures Below(keys[i], keys[j]) <==> i < j
  {
    UniqueAfter(n, keys, i);
    AfterIsTail(n, keys, i, j);
  }

  /** With unique keys, inner chunk `j` holds the rows from one boundary up to the next: exactly
      `chunkSize + 1` of them. The first chunk holds none, the last at most `chunkSize + 1`. */
  lemma InnerChunkRows(n: nat, keys: seq<Key>, bounds: seq<Key>, at: seq<nat>, chunkSize: nat, j: nat, row: nat)
    requires Wide(keys, n) && Ordered(keys) && Unique(keys)
    requires Along(keys, bounds, at) && Spaced(keys, at, chunkSize) && at != [] && at[0] == 0
    requires FirstAfter(keys, keys[at[|at| - 1]], at[|at| - 1]) + chunkSize >= |keys|
    requires j <= |bounds| && row < |keys|
    ensures 0 < j < |bounds| ==> at[j] - at[j - 1] == chunkSize + 1
    ensures 0 < j < |bounds| ==> (InRange(ChunkAt(bounds, j), keys[row]) <==> at[j - 1] <= row < at[j])
    ensures j == 0 ==> !InRange(ChunkAt(bounds, j), keys[row])
    ensures j == |bounds| ==> (InRange(ChunkAt(bounds, j), keys[row]) <==> at[j - 1] <= row)
                              && 0 < |keys| - at[j - 1] <= chunkSize + 1
  {
    if j > 0 { UniqueOrder(n, keys, row, at[j - 1]); }
    if j < |bounds| { UniqueOrder(n, keys, row, at[j]); }
    if j == |bounds| { UniqueAfter(n, keys, at[j - 1]); }
  }

  // ----- physical row ids -----

  /** `constants.EffectiveParquetSize`. */
  const EFFECTIVE_PARQUET_SIZE := 256 * 1024 * 1024 * 8

  datatype Rids = Rids(start: int, end: int)

  function CeilDiv(a: int, b: int): int
    requires b > 0
  {
    (a + b - 1) / b
  }

  lemma CeilDivBounds(a: int, b: int)
    requires b > 0
    ensures a <= CeilDiv(a, b) * b < a + b
  {
  }

  function AtLeastOne(a: int): int {
    if a <= 0 then 1 else a
  }

  /** How many chunks the page statistics ask for. `ceil` is the rounded-up quotient as the machine computes
      it in floating point; nothing is assumed of it. */
  function NumberOfChunks(ceil: (int, int) -> int, pageSize: int, pages: int): int {
    AtLeastOne(ceil(AtLeastOne(pages), ceil(EFFECTIVE_PARQUET_SIZE, pageSize)))
  }

  function Interval(ceil: (int, int) -> int, minRid: int, maxRid: int, chunks: int): int {
    AtLeastOne(ceil(maxRid - minRid, chunks))
  }

  /** Non-empty ranges, each starting where the one before it ends. */
  predicate Adjoining(chunks: seq<Rids>, from: int, to: int) {
    if chunks == [] then from == to
    else
      var last := chunks[|chunks| - 1];
      last.start < last.end == to && Adjoining(chunks[..|chunks| - 1], from, last.start)
  }

  predicate Holding(chunks: seq<Rids>, rid: int, k: nat) {
    k < |chunks| && chunks[k].start <= rid < chunks[k].end
  }

  /** Adjoining ranges hold every row id in between exactly once, and no other. */
  lemma {:induction false} RidTiles(chunks: seq<Rids>, from: int, to: int, rid: int)
    requires Adjoining(chunks, from, to)
    ensures from <= to
    ensures (exists k: nat :: Holding(chunks, rid, k)) <==> from <= rid < to
    ensures forall j: nat, k: nat :: Holding(chunks, rid, j) && Holding(chunks, rid, k) ==> j == k
    decreases |chunks|
  {
    if chunks != [] {
      var shorter := chunks[..|chunks| - 1];
      var last := chunks[|chunks| - 1];
      RidTiles(shorter, from, last.start, rid);
      assert forall k: nat :: k < |shorter| ==> (Holding(chunks, rid, k) <==> Holding(shorter, rid, k));
      assert Holding(chunks, rid, |shorter|) <==> last.start <= rid < last.end;
      if from <= rid < last.start {
        var k: nat :| Holding(shorter, rid, k);
        assert Holding(chunks, rid, k);
      }
    }
  }

  lemma StepsFit(count: nat, step: int, range: int, limit: int)
    requires step > 0 && count * step <= range <= limit * step
    ensures count <= limit
  {
    assert count > limit ==> count * step >= (limit + 1) * step;
    assert (limit + 1) * step == limit * step + step;
  }

  lemma AdjoiningMore(chunks: seq<Rids>, from: int, mid: int, to: int)
    requires Adjoining(chunks, from, mid) && mid < to
    ensures Adjoining(chunks + [Rids(mid, to)], from, to)
  {
    assert (chunks + [Rids(mid, to)])[..|chunks|] == chunks;
  }

  /** `splitViaRID`: whatever the rounding does, the ranges adjoin from the first to the last row id; if the
      intervals reach, there is at most one more than asked for. `reached` is the largest value computed. */
  method SplitViaRid(ceil: (int, int) -> int, minRid: int, maxRid: int, pageSize: int, pages: int)
    returns (chunks: seq<Rids>, ghost reached: int)
    ensures minRid <= maxRid ==> Adjoining(chunks, minRid, maxRid + 1)
    ensures minRid > maxRid ==> chunks == []
    ensures var n := NumberOfChunks(ceil, pageSize, pages);
            maxRid - minRid <= n * Interval(ceil, minRid, maxRid, n) ==> |chunks| <= n + 1
    ensures minRid <= maxRid ==> maxRid < reached <= maxRid + Interval(ceil, minRid, maxRid, NumberOfChunks(ceil, pageSize, pages))
    ensures forall k :: 0 <= k < |chunks| - 1 ==>
              chunks[k].end - chunks[k].start == Interval(ceil, minRid, maxRid, NumberOfChunks(ceil, pageSize, pages))
  {
    hide Adjoining;
    var pagesPerChunk := ceil(EFFECTIVE_PARQUET_SIZE, pageSize);
    var numberOfChunks := AtLeastOne(ceil(AtLeastOne(pages), pagesPerChunk));
    var interval := AtLeastOne(ceil(maxRid - minRid, numberOfChunks));
    chunks := [];
    var start := minRid;
    ghost var covered := minRid;
    assert Adjoining(chunks, minRid, minRid) by { NothingAdjoins(minRid); }
    while start <= maxRid
      invariant start == minRid + |chunks| * interval
      invariant chunks != [] ==> start - interval <= maxRid
      invariant chunks == [] ==> start == minRid
      invariant covered == if minRid > maxRid then minRid else Min(start, maxRid + 1)
      invariant Adjoining(chunks, minRid, covered)
      invariant forall k :: 0 <= k < |chunks| && (k < |chunks| - 1 || start <= maxRid) ==> chunks[k].end - chunks[k].start == interval
      decreases maxRid + interval - start
    {
      var end := start + interval;
      end := if end > maxRid + 1 then maxRid + 1 else end;
      AdjoiningMore(chunks, minRid, start, end);
      OneMore(|chunks|, interval);
      chunks := chunks + [Rids(start, end)];
      start, covered := start + interval, end;
    }
    reached := start;
    if chunks != [] && maxRid - minRid <= numberOfChunks * interval {
      OneMore(|chunks| - 1, interval);
      StepsFit(|chunks| - 1, interval, maxRid - minRid, numberOfChunks);
    }
  }

  lemma NothingAdjoins(from: int)
    ensures Adjoining([], from, from)
  {
  }

  lemma OneMore(count: nat, step: int)
    ensures (count + 1) * step == count * step + step
  {
  }

  /** With exact rounding: one parquet file holds `k` pages and no fewer would do, the chunks are as many as
      it takes to share out the pages `k` at a time, and the row ids of a chunk but one stand for fewer than
      `k` pages of the table. */
  lemma RidShare(ceil: (int, int) -> int, minRid: int, maxRid: int, pageSize: int, pages: int) returns (k: int, n: int, interval: int)
    requires forall a: int, b: int :: b > 0 ==> ceil(a, b) == CeilDiv(a, b)
    requires pageSize > 0 && minRid < maxRid
    ensures n == NumberOfChunks(ceil, pageSize, pages) && interval == Interval(ceil, minRid, maxRid, n)
    ensures k > 0 && (k - 1) * pageSize < 256 * 1024 * 1024 * 8 <= k * pageSize
    ensures n > 0 && (n - 1) * k < (if pages > 0 then pages else 1) <= n * k
    ensures interval > 0 && (interval - 1) * n < maxRid - minRid <= interval * n
    ensures (interval - 1) * (if pages > 0 then pages else 1) < (maxRid - minRid) * k
  {
    hide CeilDiv;
    var all, range := AtLeastOne(pages), maxRid - minRid;
    k := ceil(EFFECTIVE_PARQUET_SIZE, pageSize);
    CeilIsLeast(EFFECTIVE_PARQUET_SIZE, pageSize);
    n := ceil(all, k);
    CeilIsLeast(all, k);
    interval := ceil(range, n);
    CeilIsLeast(range, n);
    ShareOfPages(interval - 1, n, k, all, range);
  }

  lemma CeilIsLeast(a: int, b: int)
    requires a > 0 && b > 0
    ensures CeilDiv(a, b) > 0 && (CeilDiv(a, b) - 1) * b < a <= CeilDiv(a, b) * b
  {
    var q := CeilDiv(a, b);
    CeilDivBounds(a, b);
    assert (q - 1) * b == q * b - b;
    assert q <= 0 ==> q * b <= 0;
  }

  lemma ShareOfPages(most: nat, n: int, k: int, pages: int, range: int)
    requires k > 0 && n > 0 && most * n < range && pages <= n * k
    ensures most * pages < range * k
  {
    assert most * pages <= most * (n * k);
    assert most * (n * k) == (most * n) * k;
    assert (most * n) * k < range * k;
  }

  /** With exact rounding the intervals do reach. */
  lemma IntervalReaches(range: int, count: int, interval: int)
    requires count > 0 && interval == AtLeastOne(CeilDiv(range, count))
    ensures range <= count * interval
  {
    CeilDivBounds(range, count);
    if CeilDiv(range, count) <= 0 { assert CeilDiv(range, count) * count <= 0 <= count * interval; }
  }
}
