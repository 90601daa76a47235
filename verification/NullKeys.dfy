/** Chunk conditions on rows whose key columns may be NULL: a comparison with NULL is not true, so a row can
    fall between all chunks. */
module NullKeys {
  import opened Wrappers
  import opened Chunking

  /** The key columns of a row. */
  type Columns = seq<Option<int>>

  predicate PassesNull(test: Test, t: Columns) {
    test.column < |t| && t[test.column].Some? && Compares(test.op, t[test.column].value, test.literal)
  }

  predicate AllNull(tests: seq<Test>, t: Columns) {
    forall test :: test in tests ==> PassesNull(test, t)
  }

  predicate HoldsNull(groups: seq<seq<Test>>, t: Columns) {
    exists g :: g in groups && AllNull(g, t)
  }

  /** `buildLexicographicChunkCondition`, evaluated on a row. */
  predicate SelectsNull(n: nat, chunk: Chunk, t: Columns) {
    && (chunk.min.Some? ==> HoldsNull(Groups(n, chunk.min.value, true), t))
    && (chunk.max.Some? ==> HoldsNull(Groups(n, chunk.max.value, false), t))
  }

  predicate SelectedByNull(n: nat, bounds: seq<Key>, t: Columns, i: nat) {
    i <= |bounds| && SelectsNull(n, ChunkAt(bounds, i), t)
  }

  ghost predicate ExactlyOneNull(n: nat, bounds: seq<Key>, t: Columns) {
    exists i: nat :: SelectedByNull(n, bounds, t, i) && forall j: nat :: SelectedByNull(n, bounds, t, j) ==> j == i
  }

  /** The columns before the first NULL. */
  function Values(t: Columns): (k: Key)
    ensures |k| <= |t| && (forall j :: 0 <= j < |k| ==> t[j] == Some(k[j])) && (|k| < |t| ==> t[|k|].None?)
  {
    if t == [] || t[0].None? then [] else [t[0].value] + Values(t[1..])
  }

  /** The boundary and the row differ in a column before the row's first NULL, or there is none. */
  predicate Decides(n: nat, bound: Key, t: Columns) {
    Below(Values(t), bound) || Below(bound, Values(t)) || |Values(t)| == n
  }

  lemma MatchesNull(values: Key, k: nat, t: Columns)
    requires k <= |values| && k <= |t|
    ensures AllNull(Matches(values, k), t) <==> k <= |Values(t)| && Values(t)[..k] == values[..k]
  {
    var tests, known := Matches(values, k), Values(t);
    if AllNull(tests, t) {
      forall j | 0 <= j < k ensures t[j] == Some(values[j]) { assert tests[j] in tests; }
    }
    if k <= |known| && known[..k] == values[..k] {
      forall test | test in tests ensures PassesNull(test, t) {
        var j :| 0 <= j < k && tests[j] == test;
        assert known[..k][j] == values[..k][j];
      }
    }
  }

  /** What one AND-group says of a row. */
  lemma GroupNull(n: nat, values: Key, lower: bool, column: nat, t: Columns)
    requires column < n <= |values| && |t| == n
    ensures AllNull(Group(n, values, lower, column), t) <==>
      column < |Values(t)| && Values(t)[..column] == values[..column] && Compares(OpOf(lower, column, n), Values(t)[column], values[column])
  {
    MatchesNull(values, column, t);
    var last := Test(column, OpOf(lower, column, n), values[column]);
    assert Group(n, values, lower, column) == Matches(values, column) + [last];
    assert forall test :: test in Group(n, values, lower, column) <==> test in Matches(values, column) || test == last;
    hide Matches, Compares;
    if column <= |Values(t)| && column < |t| && PassesNull(last, t) { assert column < |Values(t)|; }
  }

  lemma SomeGroupNull(n: nat, values: Key, lower: bool, column: nat, t: Columns)
    requires column < n && AllNull(Group(n, values, lower, column), t)
    ensures HoldsNull(Groups(n, values, lower), t)
  {
    assert Groups(n, values, lower)[column] == Group(n, values, lower, column);
  }

  lemma TheGroupNull(n: nat, values: Key, lower: bool, t: Columns) returns (column: nat)
    requires HoldsNull(Groups(n, values, lower), t)
    ensures column < n && AllNull(Group(n, values, lower, column), t)
  {
    var g :| g in Groups(n, values, lower) && AllNull(g, t);
    column :| 0 <= column < n && Groups(n, values, lower)[column] == g;
  }

  /** The expanded upper bound lets a row through if and only if it is smaller in a column before its first NULL. */
  lemma UpperNull(n: nat, values: Key, t: Columns)
    requires 1 <= n <= |values| && |t| == n
    ensures HoldsNull(Groups(n, values, false), t) <==> Below(Values(t), values)
  {
    hide AllNull, Group, Groups, HoldsNull, Below;
    if HoldsNull(Groups(n, values, false), t) {
      var column := TheGroupNull(n, values, false, t);
      GroupNull(n, values, false, column, t);
      ColumnIsBelow(Values(t), values, column);
    }
    if Below(Values(t), values) {
      var i := BelowHasColumn(Values(t), values);
      GroupNull(n, values, false, i, t);
      SomeGroupNull(n, values, false, i, t);
    }
  }

  /** The expanded lower bound: if and only if the boundary decides about the row and it is not smaller. */
  lemma LowerNull(n: nat, values: Key, t: Columns)
    requires 1 <= n <= |values| && |t| == n
    ensures HoldsNull(Groups(n, values, true), t) <==> Decides(n, values, t) && !Below(Values(t), values)
  {
    hide AllNull, Group, Groups, HoldsNull, Below;
    var k := Values(t);
    BelowTotal(k, values);
    if HoldsNull(Groups(n, values, true), t) {
      var column := TheGroupNull(n, values, true, t);
      LowerGroup(n, values, column, t);
    } else if Below(values, k) {
      var i := BelowHasColumn(values, k);
      GroupNull(n, values, true, i, t);
      SomeGroupNull(n, values, true, i, t);
    } else if |k| == n && !Below(k, values) {
      GroupNull(n, values, true, n - 1, t);
      PrefixShorter(k, values, n - 1);
      SomeGroupNull(n, values, true, n - 1, t);
    }
  }

  lemma LowerGroup(n: nat, values: Key, column: nat, t: Columns)
    requires column < n <= |values| && |t| == n && AllNull(Group(n, values, true, column), t)
    ensures Decides(n, values, t) && !Below(Values(t), values)
  {
    hide AllNull, Group, Below;
    var k := Values(t);
    GroupNull(n, values, true, column, t);
    BelowTotal(k, values);
    if k[column] > values[column] {
      ColumnIsBelow(values, k, column);
    } else {
      assert column == n - 1 && k[..n] == k[..column] + [k[column]] && values[..n] == values[..column] + [values[column]];
    }
  }

  lemma SelectedNull(n: nat, bounds: seq<Key>, t: Columns, i: nat)
    requires n >= 1 && |t| == n && i <= |bounds| && Full(bounds, n)
    ensures SelectedByNull(n, bounds, t, i) <==>
      && (i > 0 ==> Decides(n, bounds[i - 1], t) && !Below(Values(t), bounds[i - 1]))
      && (i < |bounds| ==> Below(Values(t), bounds[i]))
  {
    if i > 0 { LowerNull(n, bounds[i - 1], t); }
    if i < |bounds| { UpperNull(n, bounds[i], t); }
  }

  /** Above a boundary, above every earlier one. */
  lemma {:induction false} AboveEarlier(n: nat, bounds: seq<Key>, k: Key, i: nat, j: nat)
    requires Ascending(n, bounds) && Full(bounds, n) && |k| <= n && i <= j < |bounds| && Below(bounds[j], k)
    ensures Below(bounds[i], k)
    decreases j
  {
    if i < j {
      assert bounds[j - 1 + 1] == bounds[j];
      BelowTransitive(Cut(bounds[j - 1], n), bounds[j], k);
      CutSame(k, bounds[j - 1], n);
      AboveEarlier(n, bounds, k, i, j - 1);
    }
  }

  /** A row that some boundary does not decide about is selected by no chunk. */
  lemma UndecidedIsLost(n: nat, bounds: seq<Key>, t: Columns, i: nat, j: nat)
    requires n >= 1 && |t| == n && Ascending(n, bounds) && Full(bounds, n) && i < |bounds| && !Decides(n, bounds[i], t)
    ensures !SelectedByNull(n, bounds, t, j)
  {
    hide SelectsNull;
    if j <= |bounds| {
      SelectedNull(n, bounds, t, j);
      if j <= i {
        if Below(Values(t), bounds[j]) { BelowLater(n, bounds, Values(t), j, i); }
      } else if Below(bounds[j - 1], Values(t)) {
        AboveEarlier(n, bounds, Values(t), i, j - 1);
      }
    }
  }

  /** A row is selected by exactly one chunk if and only if every boundary decides about it in a column
      before its first NULL, or the row has no NULL; otherwise no chunk selects it. */
  lemma NullTilesIff(n: nat, bounds: seq<Key>, t: Columns)
    requires n >= 1 && |t| == n && Ascending(n, bounds) && Full(bounds, n)
    ensures ExactlyOneNull(n, bounds, t) <==> forall i :: 0 <= i < |bounds| ==> Decides(n, bounds[i], t)
    ensures !ExactlyOneNull(n, bounds, t) ==> forall j: nat :: !SelectedByNull(n, bounds, t, j)
  {
    hide SelectedByNull, Decides;
    if i :| 0 <= i < |bounds| && !Decides(n, bounds[i], t) {
      forall j: nat ensures !SelectedByNull(n, bounds, t, j) { UndecidedIsLost(n, bounds, t, i, j); }
    } else {
      DecidedTiles(n, bounds, t);
    }
  }

  lemma DecidedTiles(n: nat, bounds: seq<Key>, t: Columns)
    requires n >= 1 && |t| == n && Ascending(n, bounds) && Full(bounds, n) && forall i :: 0 <= i < |bounds| ==> Decides(n, bounds[i], t)
    ensures ExactlyOneNull(n, bounds, t)
  {
    hide SelectsNull, Decides;
    var i := Home(bounds, Values(t));
    SelectedNull(n, bounds, t, i);
    forall j: nat | SelectedByNull(n, bounds, t, j) ensures j == i {
      SelectedNull(n, bounds, t, j);
      if i < j { BelowLater(n, bounds, Values(t), i, j - 1); }
    }
  }

  /** With one chunk column and at least one boundary, a row that is NULL there is read by no chunk. */
  lemma NullColumnExample(bounds: seq<Key>, j: nat)
    requires Ascending(1, bounds) && Full(bounds, 1) && bounds != []
    ensures !SelectedByNull(1, bounds, [None], j)
  {
    assert Values([None]) == [];
    UndecidedIsLost(1, bounds, [None], 0, j);
  }
}
