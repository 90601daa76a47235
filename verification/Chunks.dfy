/** Key ranges of a table: the expanded OR-of-ANDs condition over several columns, and when consecutive
    ranges cover every key exactly once. */
module Chunking {
  import opened Wrappers

  /** The key columns of a row, or the parts of a boundary; only the order of values matters. */
  type Key = seq<int>

  datatype Chunk = Chunk(min: Option<Key>, max: Option<Key>)

  function Min(a: int, b: int): int {
    if a <= b then a else b
  }

  // ----- tuple order -----

  /** Less at the first difference within the common length. */
  predicate Below(a: Key, b: Key) {
    if a == [] || b == [] then false
    else a[0] < b[0] || (a[0] == b[0] && Below(a[1..], b[1..]))
  }

  /** `a` and `b` agree before column `i`, where `a` is smaller. */
  predicate BelowAt(a: Key, b: Key, i: nat) {
    i < |a| && i < |b| && a[..i] == b[..i] && a[i] < b[i]
  }

  lemma {:induction false} BelowHasColumn(a: Key, b: Key) returns (i: nat)
    requires Below(a, b)
    ensures BelowAt(a, b, i)
    decreases |a|
  {
    if a[0] < b[0] {
      i := 0;
    } else {
      var j := BelowHasColumn(a[1..], b[1..]);
      i := j + 1;
      assert a[..i] == [a[0]] + a[1..][..j] && b[..i] == [b[0]] + b[1..][..j];
    }
  }

  lemma {:induction false} ColumnIsBelow(a: Key, b: Key, i: nat)
    requires BelowAt(a, b, i)
    ensures Below(a, b)
    decreases i
  {
    if i > 0 {
      assert a[..i][0] == a[0] && b[..i][0] == b[0];
      assert a[1..][..i - 1] == a[..i][1..] && b[1..][..i - 1] == b[..i][1..];
      ColumnIsBelow(a[1..], b[1..], i - 1);
    }
  }

  /** Exactly one of: less, greater, equal on the common length. */
  lemma {:induction false} BelowTotal(a: Key, b: Key)
    ensures var m := Min(|a|, |b|);
            && !(Below(a, b) && Below(b, a))
            && (!Below(a, b) && !Below(b, a) <==> a[..m] == b[..m])
    decreases |a|
  {
    var m := Min(|a|, |b|);
    if a != [] && b != [] {
      BelowTotal(a[1..], b[1..]);
      assert a[..m] == [a[0]] + a[1..][..m - 1] && b[..m] == [b[0]] + b[1..][..m - 1];
      if a[0] != b[0] {
        assert a[..m][0] == a[0] && b[..m][0] == b[0];
      }
    } else {
      assert a[..m] == [] && b[..m] == [];
    }
  }

  lemma {:induction false} BelowTransitive(a: Key, b: Key, c: Key)
    requires Below(a, b) && Below(b, c)
    ensures Min(|a|, |c|) <= |b| ==> Below(a, c)
    ensures |a| == |b| || |b| == |c| || |b| <= Min(|a|, |c|) ==> Below(a, c)
    decreases |a|
  {
    if a[0] == b[0] && b[0] == c[0] {
      BelowTransitive(a[1..], b[1..], c[1..]);
    }
  }

  // ----- conditions -----

  datatype Op = Less | Equal | Greater | AtLeast

  datatype Test = Test(column: nat, op: Op, literal: int)

  predicate Compares(op: Op, value: int, literal: int) {
    match op
    case Less => value < literal
    case Equal => value == literal
    case Greater => value > literal
    case AtLeast => value >= literal
  }

  predicate Passes(test: Test, t: Key) {
    test.column < |t| && Compares(test.op, t[test.column], test.literal)
  }

  predicate All(tests: seq<Test>, t: Key) {
    forall test :: test in tests ==> Passes(test, t)
  }

  /** An OR of ANDs. */
  predicate Holds(groups: seq<seq<Test>>, t: Key) {
    exists g :: g in groups && All(g, t)
  }

  // ----- buildBound -----

  function OpOf(lower: bool, column: nat, n: nat): Op {
    if !lower then Less else if column + 1 == n then AtLeast else Greater
  }

  /** Columns before `k` must match. */
  function Matches(values: Key, k: nat): seq<Test>
    requires k <= |values|
  {
    seq(k, j requires 0 <= j < k => Test(j, Equal, values[j]))
  }

  function Group(n: nat, values: Key, lower: bool, column: nat): seq<Test> {
    if column < |values|
    then Matches(values, column) + [Test(column, OpOf(lower, column, n), values[column])]
    else Matches(values, |values|)
  }

  function Groups(n: nat, values: Key, lower: bool): seq<seq<Test>> {
    seq(n, column requires 0 <= column < n => Group(n, values, lower, column))
  }

  /** `buildBound`: one AND-group per column. */
  method BuildBound(n: nat, values: Key, lower: bool) returns (groups: seq<seq<Test>>)
    requires values != []
    ensures groups == Groups(n, values, lower)
  {
    groups := [];
    for column := 0 to n
      invariant groups == Groups(n, values, lower)[..column]
    {
      var conds: seq<Test> := [];
      for prefix := 0 to column
        invariant conds == Matches(values, Min(prefix, |values|))
      {
        if prefix < |values| {
          conds := conds + [Test(prefix, Equal, values[prefix])];
        }
      }
      var op := Less;
      if lower {
        op := Greater;
        if column == n - 1 {
          op := AtLeast;
        }
      }
      if column < |values| {
        conds := conds + [Test(column, op, values[column])];
      }
      assert conds == Group(n, values, lower, column);
      assert Groups(n, values, lower)[..column + 1] == Groups(n, values, lower)[..column] + [Group(n, values, lower, column)];
      if |conds| > 0 {
        groups := groups + [conds];
      }
    }
  }

  lemma MatchesIsPrefix(values: Key, k: nat, t: Key)
    requires k <= |values| && k <= |t|
    ensures All(Matches(values, k), t) <==> t[..k] == values[..k]
  {
    var tests := Matches(values, k);
    if All(tests, t) {
      forall j | 0 <= j < k ensures t[j] == values[j] {
        assert tests[j] in tests;
      }
    }
    if t[..k] == values[..k] {
      forall test | test in tests ensures Passes(test, t) {
        var j :| 0 <= j < k && tests[j] == test;
        assert t[..k][j] == values[..k][j];
      }
    }
  }

  /** What one AND-group says of a full key. */
  lemma GroupMeans(n: nat, values: Key, lower: bool, column: nat, t: Key)
    requires column < n && |t| == n
    ensures column < |values| ==>
              (All(Group(n, values, lower, column), t) <==>
                t[..column] == values[..column] && Passes(Test(column, OpOf(lower, column, n), values[column]), t))
    ensures column >= |values| ==> (All(Group(n, values, lower, column), t) <==> t[..|values|] == values)
  {
    if column < |values| {
      MatchesIsPrefix(values, column, t);
      var last := Test(column, OpOf(lower, column, n), values[column]);
      assert Group(n, values, lower, column) == Matches(values, column) + [last];
    } else {
      MatchesIsPrefix(values, |values|, t);
      assert values[..|values|] == values;
    }
  }

  lemma SomeGroup(n: nat, values: Key, lower: bool, column: nat, t: Key)
    requires column < n && All(Group(n, values, lower, column), t)
    ensures Holds(Groups(n, values, lower), t)
  {
    assert Groups(n, values, lower)[column] == Group(n, values, lower, column);
  }

  /** The expanded lower bound keeps exactly the tuples not below the boundary, however many parts the
      boundary has. */
  lemma LowerBoundExact(n: nat, values: Key, t: Key)
    requires n >= 1 && |t| == n
    ensures Holds(Groups(n, values, true), t) <==> !Below(t, values)
  {
    BelowTotal(t, values);
    if Holds(Groups(n, values, true), t) {
      var g :| g in Groups(n, values, true) && All(g, t);
      var column :| 0 <= column < n && Groups(n, values, true)[column] == g;
      GroupMeans(n, values, true, column, t);
      LowerGroupNotBelow(n, values, column, t);
    }
    if Below(values, t) {
      var i := BelowHasColumn(values, t);
      GroupMeans(n, values, true, i, t);
      SomeGroup(n, values, true, i, t);
    } else if !Below(t, values) {
      GroupMeans(n, values, true, n - 1, t);
      PrefixShorter(t, values, n - 1);
      SomeGroup(n, values, true, n - 1, t);
    }
  }

  lemma PrefixShorter(t: Key, values: Key, k: nat)
    requires t[..Min(|t|, |values|)] == values[..Min(|t|, |values|)]
    ensures k < |t| && k < |values| ==> t[..k] == values[..k] && t[k] == values[k]
    ensures |values| <= |t| ==> t[..|values|] == values
  {
    var m := Min(|t|, |values|);
    if k < |t| && k < |values| {
      assert t[..k] == t[..m][..k] && values[..k] == values[..m][..k];
      assert t[k] == t[..m][k] && values[k] == values[..m][k];
    }
    if |values| <= |t| {
      assert values[..m] == values;
    }
  }

  lemma LowerGroupNotBelow(n: nat, values: Key, column: nat, t: Key)
    requires column < n && |t| == n && All(Group(n, values, true, column), t)
    ensures !Below(t, values)
  {
    GroupMeans(n, values, true, column, t);
    BelowTotal(t, values);
    if column < |values| && t[column] > values[column] {
      ColumnIsBelow(values, t, column);
    } else if column < |values| {
      assert column == n - 1 && t[..n] == t[..column] + [t[column]] && values[..n] == values[..column] + [values[column]];
    }
  }

  /** The expanded upper bound keeps exactly the tuples below a boundary with a part for every column;
      a boundary with fewer parts also lets the tuples through that agree with it. */
  lemma UpperBoundExact(n: nat, values: Key, t: Key)
    requires n >= 1 && |t| == n
    ensures Holds(Groups(n, values, false), t) <==> if |values| >= n then Below(t, values) else !Below(values, t)
  {
    BelowTotal(t, values);
    if Holds(Groups(n, values, false), t) {
      var g :| g in Groups(n, values, false) && All(g, t);
      var column :| 0 <= column < n && Groups(n, values, false)[column] == g;
      GroupMeans(n, values, false, column, t);
      if column < |values| {
        ColumnIsBelow(t, values, column);
      }
    }
    if Below(t, values) {
      var i := BelowHasColumn(t, values);
      GroupMeans(n, values, false, i, t);
      SomeGroup(n, values, false, i, t);
    } else if !Below(values, t) && |values| < n {
      GroupMeans(n, values, false, n - 1, t);
      SomeGroup(n, values, false, n - 1, t);
    }
  }

  // ----- chunk conditions and tiling -----

  /** `buildLexicographicChunkCondition`, evaluated on a row's key. */
  predicate Selects(n: nat, chunk: Chunk, t: Key) {
    && (chunk.min.Some? ==> Holds(Groups(n, chunk.min.value, true), t))
    && (chunk.max.Some? ==> Holds(Groups(n, chunk.max.value, false), t))
  }

  /** Chunk `i` between consecutive boundaries; the first and the last are open. */
  function ChunkAt(bounds: seq<Key>, i: nat): Chunk
    requires i <= |bounds|
  {
    Chunk(if i == 0 then None else Some(bounds[i - 1]), if i == |bounds| then None else Some(bounds[i]))
  }

  /** The parts that meet a column. */
  function Cut(bound: Key, n: nat): Key {
    bound[..Min(|bound|, n)]
  }

  /** Each boundary is below the next one in some key column. */
  predicate Ascending(n: nat, bounds: seq<Key>) {
    forall i :: 0 < i < |bounds| ==> Below(Cut(bounds[i - 1], n), bounds[i])
  }

  predicate Full(bounds: seq<Key>, n: nat) {
    forall i :: 0 <= i < |bounds| ==> |bounds[i]| >= n
  }

  predicate SelectedBy(n: nat, bounds: seq<Key>, t: Key, i: nat) {
    i <= |bounds| && Selects(n, ChunkAt(bounds, i), t)
  }

  ghost predicate ExactlyOne(n: nat, bounds: seq<Key>, t: Key) {
    exists i: nat :: SelectedBy(n, bounds, t, i) && forall j: nat :: SelectedBy(n, bounds, t, j) ==> j == i
  }

  /** In terms of the order: not below the boundary before, below the boundary after. */
  lemma SelectedExact(n: nat, bounds: seq<Key>, t: Key, i: nat)
    requires n >= 1 && |t| == n && i <= |bounds|
    ensures SelectedBy(n, bounds, t, i) <==>
              && (i > 0 ==> !Below(t, bounds[i - 1]))
              && (i < |bounds| ==> if |bounds[i]| >= n then Below(t, bounds[i]) else !Below(bounds[i], t))
  {
    if i > 0 { LowerBoundExact(n, bounds[i - 1], t); }
    if i < |bounds| { UpperBoundExact(n, bounds[i], t); }
  }

  lemma CutSame(t: Key, bound: Key, n: nat)
    requires |t| <= n
    ensures Below(t, bound) <==> Below(t, Cut(bound, n))
    ensures Below(bound, t) <==> Below(Cut(bound, n), t)
  {
    var cut := Cut(bound, n);
    if Below(t, bound) { var i := BelowHasColumn(t, bound); assert cut[..i] == bound[..i]; ColumnIsBelow(t, cut, i); }
    if Below(t, cut) { var i := BelowHasColumn(t, cut); assert cut[..i] == bound[..i]; ColumnIsBelow(t, bound, i); }
    if Below(bound, t) { var i := BelowHasColumn(bound, t); assert cut[..i] == bound[..i]; ColumnIsBelow(cut, t, i); }
    if Below(cut, t) { var i := BelowHasColumn(cut, t); assert cut[..i] == bound[..i]; ColumnIsBelow(bound, t, i); }
  }

  /** Once below a boundary, below every later one. */
  lemma {:induction false} BelowLater(n: nat, bounds: seq<Key>, t: Key, i: nat, j: nat)
    requires Ascending(n, bounds) && Full(bounds, n) && |t| <= n && i <= j < |bounds| && Below(t, bounds[i])
    ensures Below(t, bounds[j])
    decreases j
  {
    if i < j {
      BelowLater(n, bounds, t, i, j - 1);
      CutSame(t, bounds[j - 1], n);
      assert bounds[j - 1 + 1] == bounds[j];
      BelowTransitive(t, Cut(bounds[j - 1], n), bounds[j]);
    }
  }

  /** The first chunk whose upper boundary a key is below. */
  function Home(bounds: seq<Key>, t: Key): (i: nat)
    ensures i <= |bounds| && (i < |bounds| ==> Below(t, bounds[i]))
    ensures forall j :: 0 <= j < i ==> !Below(t, bounds[j])
  {
    if bounds == [] then 0
    else
      var i := Home(bounds[..|bounds| - 1], t);
      if i < |bounds| - 1 || Below(t, bounds[|bounds| - 1]) then i else |bounds|
  }

  /** With a part for every column, each key, stored or not, is selected by exactly one chunk. */
  lemma FullTiles(n: nat, bounds: seq<Key>, t: Key)
    requires n >= 1 && |t| == n && Ascending(n, bounds) && Full(bounds, n)
    ensures ExactlyOne(n, bounds, t)
    ensures SelectedBy(n, bounds, t, Home(bounds, t))
  {
    hide Selects;
    var i := Home(bounds, t);
    SelectedExact(n, bounds, t, i);
    forall j: nat | SelectedBy(n, bounds, t, j) ensures j == i {
      SelectedExact(n, bounds, t, j);
      if i < j { BelowLater(n, bounds, t, i, j - 1); }
    }
  }

  function Padded(values: Key, n: nat): (t: Key)
    ensures |t| == if |values| < n then n else |values|
    ensures t[..|values|] == values
    decreases n - |values|
  {
    if |values| < n then assert (values + [0])[..|values|] == values; Padded(values + [0], n) else values
  }

  /** A boundary with too few parts is selected from both sides. */
  lemma ShortOverlaps(n: nat, bounds: seq<Key>, i: nat)
    requires n >= 1 && Ascending(n, bounds) && i < |bounds| && |bounds[i]| < n
    ensures var t := Padded(bounds[i], n);
            SelectedBy(n, bounds, t, i) && SelectedBy(n, bounds, t, i + 1)
  {
    var b := bounds[i];
    var t := Padded(b, n);
    assert b[..|b|] == b;
    BelowTotal(t, b);
    if i > 0 {
      var c := BelowHasColumn(Cut(bounds[i - 1], n), b);
      assert t[..c] == t[..|b|][..c] && t[c] == t[..|b|][c];
      ColumnIsBelow(Cut(bounds[i - 1], n), t, c);
      CutSame(t, bounds[i - 1], n);
      BelowTotal(t, bounds[i - 1]);
    }
    SelectedExact(n, bounds, t, i);
    if i + 1 < |bounds| {
      assert Cut(bounds[i + 1 - 1], n) == b;
      var c := BelowHasColumn(b, bounds[i + 1]);
      assert t[..c] == t[..|b|][..c] && t[c] == t[..|b|][c];
      ColumnIsBelow(t, bounds[i + 1], c);
      BelowTotal(t, bounds[i + 1]);
    }
    SelectedExact(n, bounds, t, i + 1);
  }

  /** The chunks tile the key space if and only if every boundary has a part for every column. */
  lemma TilesIffFull(n: nat, bounds: seq<Key>)
    requires n >= 1 && Ascending(n, bounds)
    ensures (forall t: Key :: |t| == n ==> ExactlyOne(n, bounds, t)) <==> Full(bounds, n)
  {
    hide SelectedBy;
    if Full(bounds, n) {
      forall t: Key | |t| == n ensures ExactlyOne(n, bounds, t) {
        FullTiles(n, bounds, t);
      }
    } else {
      var i :| 0 <= i < |bounds| && |bounds[i]| < n;
      ShortOverlaps(n, bounds, i);
      assert !ExactlyOne(n, bounds, Padded(bounds[i], n));
    }
  }

  /** A chunk as a half-open range of key tuples: what a row-value comparison in SQL selects. */
  predicate InRange(chunk: Chunk, t: Key) {
    && (chunk.min.Some? ==> !Below(t, chunk.min.value))
    && (chunk.max.Some? ==> Below(t, chunk.max.value))
  }

  /** With a part for every column, the expanded condition and the row-value comparison agree. */
  lemma ExpandedIsRange(n: nat, bounds: seq<Key>, t: Key, i: nat)
    requires n >= 1 && |t| == n && i <= |bounds| && Full(bounds, n)
    ensures SelectedBy(n, bounds, t, i) <==> InRange(ChunkAt(bounds, i), t)
  {
    SelectedExact(n, bounds, t, i);
  }
}
