/** Column types discovered from records: each column keeps the set of types it has met. */
module SchemaFields {
  import opened Wrappers
  import opened TypeLattice

  /** A column: the types met so far and, when known, their cached join. */
  datatype Field = Field(dataType: Option<DataType>, occurrence: set<DataType>)

  function NewField(t: DataType): Field {
    Field(Some(t), {t})
  }

  ghost predicate FieldOk(f: Field) {
    f.occurrence != {} && (f.dataType.Some? ==> f.dataType.value == JoinSet(f.occurrence))
  }

  /** `Field.Merge`: new types wipe the cached join. */
  function MergeField(f: Field, other: Field): Field {
    if other.occurrence <= f.occurrence then f else Field(None, f.occurrence + other.occurrence)
  }

  lemma MergeFieldOk(f: Field, other: Field)
    requires FieldOk(f)
    ensures FieldOk(MergeField(f, other)) && MergeField(f, other).occurrence == f.occurrence + other.occurrence
  {
    if other.occurrence <= f.occurrence {
      assert f.occurrence + other.occurrence == f.occurrence;
    }
  }

  lemma NewFieldOk(t: DataType)
    ensures FieldOk(NewField(t))
  {
    JoinSetOne(t);
  }

  /** `getType`: the cached join, or the types folded in whatever order the map gives them. */
  method GetType(f: Field) returns (t: DataType, cached: Field)
    requires FieldOk(f)
    ensures t == JoinSet(f.occurrence)
    ensures cached == Field(Some(t), f.occurrence)
  {
    hide Join;
    if f.dataType.Some? {
      return f.dataType.value, f;
    }
    var todo := f.occurrence;
    var first :| first in todo;
    t, todo := first, todo - {first};
    ghost var done := {first};
    JoinSetOne(first);
    while todo != {}
      invariant done + todo == f.occurrence && done !! todo && done != {}
      invariant t == JoinSet(done)
      decreases todo
    {
      var next :| next in todo;
      JoinSetMore(done, next);
      t := Join(t, next);
      todo, done := todo - {next}, done + {next};
    }
    assert done == f.occurrence;
    cached := Field(Some(t), f.occurrence);
  }

  /** `Property.DataType`: nulls are dropped, the rest joined. */
  method PropertyType(types: seq<DataType>) returns (t: DataType)
    requires forall i, j :: 0 <= i < j < |types| ==> types[i] != types[j]
    ensures var some := (set x | x in types) - {Null};
            t == if some == {} then Null else JoinSet(some)
  {
    hide Join, JoinSet;
    ghost var some := (set x | x in types) - {Null};
    var rest := types;
    if Null in types {
      var i :| 0 <= i < |types| && types[i] == Null;
      rest := types[..i] + types[i + 1..];
      DroppedNull(types, i);
    } else {
      assert some == set x | x in types;
    }
    assert some == set x | x in rest;
    if rest == [] {
      return Null;
    }
    t := FoldTypes(rest);
    assert rest[0] in some;
    DistinctIsSet(rest);
    JoinSetAny(rest, some);
  }

  method FoldTypes(types: seq<DataType>) returns (t: DataType)
    requires types != []
    ensures t == JoinAll(types)
  {
    hide Join;
    t := types[0];
    for n := 1 to |types|
      invariant t == JoinAll(types[..n])
    {
      assert types[..n + 1][..n] == types[..n];
      t := Join(t, types[n]);
    }
    assert types[..|types|] == types;
  }

  lemma DroppedNull(types: seq<DataType>, i: nat)
    requires forall a, b :: 0 <= a < b < |types| ==> types[a] != types[b]
    requires i < |types| && types[i] == Null
    ensures var rest := types[..i] + types[i + 1..];
            (set x | x in rest) == (set x | x in types) - {Null}
            && forall a, b :: 0 <= a < b < |rest| ==> rest[a] != rest[b]
  {
    var rest := types[..i] + types[i + 1..];
    forall x | x in types && x != Null ensures x in rest {
      var j :| 0 <= j < |types| && types[j] == x;
      if j < i { assert rest[j] == x; } else { assert rest[j - 1] == x; }
    }
    assert forall a :: 0 <= a < |rest| ==> rest[a] == types[if a < i then a else a + 1];
  }

  lemma {:induction false} DistinctIsSet(list: seq<DataType>)
    requires forall i, j :: 0 <= i < j < |list| ==> list[i] != list[j]
    ensures multiset(list) == multiset(set x | x in list)
    decreases |list|
  {
    if list != [] {
      var n := |list| - 1;
      var front := list[..n];
      DistinctIsSet(front);
      assert list == front + [list[n]];
      assert (set x | x in list) == (set x | x in front) + {list[n]};
    }
  }

  // ----- one column over time -----

  /** The types a column keeps after meeting `history`, in order. */
  ghost function Met(history: seq<DataType>): (types: set<DataType>)
    ensures history != [] ==> types != {}
    decreases |history|
  {
    if history == [] then {}
    else
      var before, t := Met(history[..|history| - 1]), history[|history| - 1];
      if |history| == 1 then {t}
      else if t == Null || t == JoinSet(before) then before
      else before + {t}
  }

  function NonNull(history: seq<DataType>): (types: set<DataType>)
    ensures history != [] && history[0] != Null ==> history[0] in types
  {
    set t | t in history && t != Null
  }

  /** Joining in the join itself changes nothing. */
  lemma Absorbed(types: set<DataType>)
    requires types != {}
    ensures JoinSet(types + {JoinSet(types)}) == JoinSet(types)
  {
    var j := JoinSet(types);
    if j in types {
      assert types + {j} == types;
    } else {
      JoinSetMore(types, j);
      JoinSetSelf(types);
    }
  }

  /** A join of several types is weighted, hence joins with itself to itself. */
  lemma JoinSetSelf(types: set<DataType>)
    requires types != {} && JoinSet(types) !in types
    ensures Join(JoinSet(types), JoinSet(types)) == JoinSet(types)
  {
    hide Join, Weighted;
    var one :| one in types;
    if types == {one} {
      JoinSetOne(one);
    } else {
      var rest := types - {one};
      assert rest + {one} == types;
      assert rest == {} ==> types == {one};
      JoinSetMore(rest, one);
      JoinIdempotent(JoinSet(rest), one);
    }
  }

  lemma JoinIdempotent(a: DataType, b: DataType)
    ensures Join(Join(a, b), Join(a, b)) == Join(a, b)
  {
    hide Join, Weighted, Widens;
    if Weighted(a) && Weighted(b) {
      JoinIsLeast(a, b, a);
      var j := Join(a, b);
      JoinIsLeast(j, j, j);
      WidensSelf(j);
      SameWidth(Join(j, j), j);
    } else {
      JoinUnweighted(a, b);
      StringTops(String);
    }
  }

  lemma WidensSelf(a: DataType)
    requires Weighted(a)
    ensures Widens(a, a)
  {
    hide Join, Weight;
    JoinIsLeast(a, a, a);
    SelfAtMost(a);
  }

  lemma SelfAtMost(a: DataType)
    requires Weighted(a)
    ensures AtMost(RANKS, Weight(a), Weight(a))
  {
    hide Weight, AtMost, SearchTree, InTree, Lowest;
    TypecastTree();
    WeightRange(a);
    LowestIsLeast(RANKS, Weight(a), Weight(a), Weight(a));
    LowestSelf(RANKS, Weight(a));
  }

  lemma JoinTwice(a: DataType, t: DataType)
    ensures Join(Join(a, t), t) == Join(a, t)
  {
    hide Join, Weighted, Widens;
    if Weighted(a) && Weighted(t) {
      var j := Join(a, t);
      JoinIsLeast(a, t, j);
      JoinIsLeast(j, t, j);
      WidensSelf(j);
      SameWidth(Join(j, t), j);
    } else {
      JoinUnweighted(a, t);
      StringTops(t);
    }
  }

  /** A smaller set with the same join stays as good when one more type is met. */
  lemma AddSame(some: set<DataType>, all: set<DataType>, t: DataType)
    requires some != {} && some <= all && JoinSet(some) == JoinSet(all)
    ensures JoinSet(some + {t}) == JoinSet(all + {t})
  {
    hide Join;
    if t in some {
      assert some + {t} == some && all + {t} == all;
    } else if t !in all {
      JoinSetMore(some, t);
      JoinSetMore(all, t);
    } else {
      var rest := all - {t};
      assert rest + {t} == all && all + {t} == all && some <= rest;
      JoinSetMore(some, t);
      JoinSetMore(rest, t);
      JoinTwice(JoinSet(rest), t);
    }
  }

  /** The type of a column is the join of its first type and every non-null type after it. */
  lemma {:induction false} ColumnType(history: seq<DataType>)
    requires history != []
    ensures Met(history) <= {history[0]} + NonNull(history)
    ensures JoinSet(Met(history)) == JoinSet({history[0]} + NonNull(history)) == JoinSet({history[0]} + (set t | t in history && t != Null))
    decreases |history|
  {
    hide JoinSet;
    var n := |history| - 1;
    var t := history[n];
    if n == 0 {
      assert {t} + NonNull(history) == {t};
    } else {
      var front := history[..n];
      ColumnType(front);
      var before, all := Met(front), {front[0]} + NonNull(front);
      assert {history[0]} + NonNull(history) == if t == Null then all else all + {t} by { OneMoreType(history); }
      if t != Null {
        if t == JoinSet(before) { Absorbed(all); } else { AddSame(before, all, t); }
      }
    }
  }

  lemma OneMoreType(history: seq<DataType>)
    requires |history| > 1
    ensures var n := |history| - 1; var front := history[..n];
            front[0] == history[0]
            && NonNull(history) == if history[n] == Null then NonNull(front) else NonNull(front) + {history[n]}
  {
    var n := |history| - 1;
    assert history == history[..n] + [history[n]];
  }

  /** When the first value is not null, the type is the join of all non-null types met, so it does not
      depend on the order or the batching of the records. */
  lemma AnyRecordOrder(history: seq<DataType>, other: seq<DataType>)
    requires history != [] && other != [] && history[0] != Null && other[0] != Null
    requires NonNull(history) == NonNull(other)
    ensures JoinSet(Met(history)) == JoinSet(Met(other)) == JoinSet(NonNull(history))
  {
    ColumnType(history);
    ColumnType(other);
    assert {history[0]} + NonNull(history) == NonNull(history);
    assert {other[0]} + NonNull(other) == NonNull(other);
  }

  /** A leading null stays in the set and drags the type to the root: the column has the join of its
      non-null types if and only if it did not start with null or that join is already `String`. */
  lemma NullFirstIff(history: seq<DataType>)
    requires history != [] && NonNull(history) != {}
    ensures JoinSet(Met(history)) == JoinSet(NonNull(history))
            <==> history[0] != Null || JoinSet(NonNull(history)) == String
  {
    hide Join, JoinSet;
    ColumnType(history);
    var some := NonNull(history);
    if history[0] == Null {
      assert {Null} + some == some + {Null};
      JoinSetMore(some, Null);
      JoinUnweighted(JoinSet(some), Null);
    } else {
      assert {history[0]} + some == some;
    }
  }

  /** An integer column whose first value is null is typed as a string. */
  lemma NullFirstExample()
    ensures JoinSet(Met([Null, Int32])) == String && JoinSet(NonNull([Null, Int32])) == Int32
  {
    assert NonNull([Null, Int32]) == {Int32};
    JoinSetOne(Int32);
    NullFirstIff([Null, Int32]);
    ColumnType([Null, Int32]);
    assert {Null} + NonNull([Null, Int32]) == {Int32} + {Null};
    JoinSetMore({Int32}, Null);
    JoinUnweighted(Int32, Null);
  }

  ghost predicate AllWeighted(history: seq<DataType>) {
    && history != [] && Weighted(history[0])
    && forall t :: t in history ==> t == Null || Weighted(t)
  }

  /** Column types only widen. */
  lemma {:induction false} OnlyWidens(history: seq<DataType>, n: nat)
    requires AllWeighted(history) && 0 < n <= |history|
    ensures Weighted(JoinSet(Met(history)))
    ensures Widens(JoinSet(Met(history[..n])), JoinSet(Met(history)))
    decreases |history|
  {
    hide JoinSet, Join, Weighted, Widens;
    var last := |history| - 1;
    if last == 0 {
      assert history[..n] == history;
      JoinSetOne(history[0]);
      WidensSelf(history[0]);
    } else {
      var front, t := history[..last], history[last];
      assert t in history && front[0] == history[0];
      OnlyWidens(front, if n == |history| then last else n);
      assert front[..last] == front;
      WidensOnce(Met(front), t);
      if n == |history| {
        assert history[..n] == history;
        WidensSelf(JoinSet(Met(history)));
      } else {
        assert history[..n] == front[..n];
        WidensTransitive(JoinSet(Met(front[..n])), JoinSet(Met(front)), JoinSet(Met(history)));
      }
    }
  }

  lemma WidensOnce(before: set<DataType>, t: DataType)
    requires before != {} && Weighted(JoinSet(before)) && (t == Null || Weighted(t))
    ensures var after := if t == Null || t == JoinSet(before) then before else before + {t};
            Weighted(JoinSet(after)) && Widens(JoinSet(before), JoinSet(after))
  {
    hide JoinSet, Join, Weighted, Widens;
    WidensSelf(JoinSet(before));
    if t != Null {
      if t in before {
        assert before + {t} == before;
      } else {
        JoinSetMore(before, t);
        JoinIsLeast(JoinSet(before), t, t);
      }
    }
  }

  /** Adding a whole batch to a set with the same join. */
  lemma {:induction false} AddAllSame(some: set<DataType>, all: set<DataType>, more: set<DataType>)
    requires some != {} && some <= all && JoinSet(some) == JoinSet(all)
    ensures JoinSet(some + more) == JoinSet(all + more)
    decreases more
  {
    hide JoinSet;
    if more == {} {
      assert some + more == some && all + more == all;
    } else {
      var t :| t in more;
      AddSame(some, all, t);
      AddAllSame(some + {t}, all + {t}, more - {t});
      assert some + {t} + (more - {t}) == some + more && all + {t} + (more - {t}) == all + more;
    }
  }

  /** Columns discovered separately and merged have the type of all their records together. */
  lemma MergedBatches(history: seq<DataType>, other: seq<DataType>)
    requires history != [] && other != [] && history[0] != Null && other[0] != Null
    ensures JoinSet(Met(history) + Met(other)) == JoinSet(NonNull(history) + NonNull(other))
  {
    hide JoinSet, Met;
    ColumnType(history);
    ColumnType(other);
    assert {history[0]} + NonNull(history) == NonNull(history);
    assert {other[0]} + NonNull(other) == NonNull(other);
    AddAllSame(Met(history), NonNull(history), Met(other));
    AddAllSame(Met(other), NonNull(other), NonNull(history));
    assert NonNull(history) + Met(other) == Met(other) + NonNull(history);
    assert NonNull(other) + NonNull(history) == NonNull(history) + NonNull(other);
  }

  // ----- all columns -----

  type Histories = map<string, seq<DataType>>

  function Appended(seen: Histories, record: map<string, DataType>): Histories {
    map k | k in seen.Keys + record.Keys ::
      (if k in seen then seen[k] else []) + (if k in record then [record[k]] else [])
  }

  /** Meeting one more type gives the column another type. */
  ghost predicate Retypes(history: seq<DataType>, t: DataType) {
    history != [] && JoinSet(Met(history + [t])) != JoinSet(Met(history))
  }

  lemma MetStep(history: seq<DataType>, t: DataType)
    ensures Met(history + [t]) ==
              if history == [] then {t}
              else if t == Null || t == JoinSet(Met(history)) then Met(history)
              else Met(history) + {t}
  {
    assert (history + [t])[..|history|] == history;
  }

  /** A column holds the types of its history. */
  ghost predicate ColumnOk(f: Field, history: seq<DataType>) {
    FieldOk(f) && history != [] && f.occurrence == Met(history)
  }

  /** `Process` for a column that exists. */
  method ProcessColumn(f: Field, t: DataType, ghost history: seq<DataType>) returns (g: Field, retyped: bool)
    requires ColumnOk(f, history)
    ensures ColumnOk(g, history + [t])
    ensures retyped <==> Retypes(history, t)
    ensures retyped ==> t in g.occurrence
  {
    hide JoinSet, Met;
    MetStep(history, t);
    var current;
    current, g := GetType(f);
    retyped := false;
    if t != Null && current != t {
      MergeFieldOk(g, NewField(t));
      var updated;
      updated, g := GetType(MergeField(g, NewField(t)));
      retyped := updated != current;
    }
  }

  /** `Fields.Merge`, column by column. */
  method MergeFields(f: map<string, Field>, other: map<string, Field>) returns (g: map<string, Field>)
    ensures g.Keys == f.Keys + other.Keys
    ensures forall k :: k in f && k in other ==> g[k] == MergeField(f[k], other[k])
    ensures forall k :: k in f && k !in other ==> g[k] == f[k]
    ensures forall k :: k !in f && k in other ==> g[k] == other[k]
  {
    hide MergeField;
    g := f;
    var todo := other.Keys;
    while todo != {}
      invariant todo <= other.Keys && g.Keys == f.Keys + (other.Keys - todo)
      invariant forall k :: k in f && k in other && k !in todo ==> g[k] == MergeField(f[k], other[k])
      invariant forall k :: k in f && (k !in other || k in todo) ==> g[k] == f[k]
      invariant forall k :: k !in f && k in other && k !in todo ==> g[k] == other[k]
      decreases todo
    {
      var k :| k in todo;
      g := g[k := if k in g then MergeField(g[k], other[k]) else other[k]];
      todo := todo - {k};
    }
  }

  /** The columns after the keys in `done` of a record have been looked at. */
  ghost predicate Looked(before: map<string, Field>, seen: Histories, record: map<string, DataType>,
                         done: set<string>, fields: map<string, Field>, mutations: map<string, Field>) {
    && fields.Keys == before.Keys == seen.Keys && done <= record.Keys
    && (forall k :: k in fields && k in done ==> ColumnOk(fields[k], seen[k] + [record[k]]))
    && (forall k :: k in fields && k !in done ==> fields[k] == before[k])
    && (forall k :: k in mutations ==> k in done && mutations[k] == NewField(record[k]))
    && (forall k :: k in done && k in fields ==>
          (k in mutations <==> Retypes(seen[k], record[k])) && (k in mutations ==> record[k] in fields[k].occurrence))
    && (forall k :: k in done && k !in fields ==> k in mutations)
  }

  lemma FreshColumn(t: DataType)
    ensures ColumnOk(NewField(t), [] + [t])
  {
    NewFieldOk(t);
    MetStep([], t);
  }

  lemma LookedFound(before: map<string, Field>, seen: Histories, record: map<string, DataType>, done: set<string>,
                    fields: map<string, Field>, mutations: map<string, Field>, k: string, f: Field, retyped: bool)
    requires Looked(before, seen, record, done, fields, mutations)
    requires k in fields && k in record && k !in done && ColumnOk(f, seen[k] + [record[k]])
    requires retyped <==> Retypes(seen[k], record[k])
    requires retyped ==> record[k] in f.occurrence
    ensures Looked(before, seen, record, done + {k}, fields[k := f],
                   if retyped then mutations[k := NewField(record[k])] else mutations)
  {
    hide ColumnOk, Retypes, NewField;
  }

  lemma LookedNew(before: map<string, Field>, seen: Histories, record: map<string, DataType>, done: set<string>,
                  fields: map<string, Field>, mutations: map<string, Field>, k: string)
    requires Looked(before, seen, record, done, fields, mutations)
    requires k !in fields && k in record && k !in done
    ensures Looked(before, seen, record, done + {k}, fields, mutations[k := NewField(record[k])])
  {
    hide ColumnOk, Retypes, NewField;
  }

  lemma LookedAll(before: map<string, Field>, seen: Histories, record: map<string, DataType>,
                  fields: map<string, Field>, mutations: map<string, Field>, merged: map<string, Field>, k: string)
    requires Looked(before, seen, record, record.Keys, fields, mutations)
    requires forall c :: c in before ==> ColumnOk(before[c], seen[c])
    requires merged.Keys == fields.Keys + mutations.Keys
    requires k in merged
    requires k in fields && k in mutations ==> merged[k] == MergeField(fields[k], mutations[k])
    requires k in fields && k !in mutations ==> merged[k] == fields[k]
    requires k !in fields ==> merged[k] == mutations[k]
    ensures k in Appended(seen, record) && ColumnOk(merged[k], Appended(seen, record)[k])
  {
    hide ColumnOk, Retypes;
    if k !in fields {
      FreshColumn(record[k]);
    } else if k !in record {
      assert seen[k] + [] == seen[k];
    }
  }

  class Fields {
    var fields: map<string, Field>
    /** The types each column has met, in order. */
    ghost var seen: Histories

    ghost predicate Valid()
      reads this
    {
      fields.Keys == seen.Keys && forall k :: k in fields ==> ColumnOk(fields[k], seen[k])
    }

    constructor ()
      ensures Valid() && fields == map[] && seen == map[]
    {
      fields, seen := map[], map[];
    }

    /** `Process`: columns in whatever order the record gives them. */
    method Process(record: map<string, DataType>) returns (changed: bool, typeChanged: bool, mutations: map<string, Field>)
      requires Valid()
      modifies this
      ensures Valid() && seen == Appended(old(seen), record)
      ensures changed <==> exists k :: k in record && k !in old(fields)
      ensures typeChanged <==> exists k :: k in record && k in old(seen) && Retypes(old(seen)[k], record[k])
      ensures forall k :: k in mutations <==>
                k in record && (k !in old(fields) || (k in old(seen) && Retypes(old(seen)[k], record[k])))
      ensures forall k :: k in mutations ==> mutations[k] == Field(Some(record[k]), {record[k]})
      ensures seen.Keys == old(seen).Keys + record.Keys
      ensures forall k :: k in record ==> seen[k] == if k in old(seen) then old(seen)[k] + [record[k]] else [record[k]]
      ensures forall k :: k in old(seen) && k !in record ==> seen[k] == old(seen)[k]
    {
      hide Looked, Retypes, MergeField, NewField, Appended, ColumnOk;
      changed, typeChanged, mutations := false, false, map[];
      var todo := record.Keys;
      ghost var done: set<string> := {};
      LookedNone(fields, seen, record);
      while todo != {}
        invariant done + todo == record.Keys && done !! todo && seen == old(seen) && fields.Keys == seen.Keys
        invariant Looked(old(fields), seen, record, done, fields, mutations)
        invariant forall k :: k in todo && k in fields ==> fields[k] == old(fields)[k]
        invariant changed <==> exists k :: k in done && k !in old(fields)
        invariant typeChanged <==> exists k :: k in done && k in seen && Retypes(seen[k], record[k])
        decreases todo
      {
        var k :| k in todo;
        if k in fields {
          var retyped: bool, f;
          f, retyped := ProcessColumn(fields[k], record[k], seen[k]);
          LookedFound(old(fields), seen, record, done, fields, mutations, k, f, retyped);
          fields := fields[k := f];
          if retyped {
            typeChanged := true;
            mutations := mutations[k := NewField(record[k])];
          }
        } else {
          LookedNew(old(fields), seen, record, done, fields, mutations, k);
          changed := true;
          mutations := mutations[k := NewField(record[k])];
        }
        todo, done := todo - {k}, done + {k};
      }
      assert done == record.Keys;
      LookedMutations(old(fields), seen, record, fields, mutations);
      var merged := MergeFields(fields, mutations);
      forall k | k in merged ensures k in Appended(seen, record) && ColumnOk(merged[k], Appended(seen, record)[k]) {
        LookedAll(old(fields), seen, record, fields, mutations, merged, k);
      }
      AppendedKeys(seen, record);
      NewFields(record, mutations);
      fields := merged;
      seen := Appended(seen, record);
    }
  }

  lemma AppendedKeys(seen: Histories, record: map<string, DataType>)
    ensures Appended(seen, record).Keys == seen.Keys + record.Keys
    ensures forall k :: k in record ==> Appended(seen, record)[k] == if k in seen then seen[k] + [record[k]] else [record[k]]
    ensures forall k :: k in seen && k !in record ==> Appended(seen, record)[k] == seen[k]
  {
    forall k | k in seen && k !in record ensures Appended(seen, record)[k] == seen[k] { assert seen[k] + [] == seen[k]; }
    forall k | k in record && k !in seen ensures Appended(seen, record)[k] == [record[k]] { assert [] + [record[k]] == [record[k]]; }
  }

  lemma NewFields(record: map<string, DataType>, mutations: map<string, Field>)
    requires forall k :: k in mutations ==> k in record && mutations[k] == NewField(record[k])
    ensures forall k :: k in mutations ==> mutations[k] == Field(Some(record[k]), {record[k]})
  {
  }

  lemma LookedNone(before: map<string, Field>, seen: Histories, record: map<string, DataType>)
    requires before.Keys == seen.Keys
    ensures Looked(before, seen, record, {}, before, map[])
  {
  }

  lemma LookedMutations(before: map<string, Field>, seen: Histories, record: map<string, DataType>,
                        fields: map<string, Field>, mutations: map<string, Field>)
    requires Looked(before, seen, record, record.Keys, fields, mutations)
    ensures seen.Keys + mutations.Keys == seen.Keys + record.Keys && before.Keys == seen.Keys
    ensures forall k :: k in mutations <==> k in record && (k !in seen || Retypes(seen[k], record[k]))
    ensures forall k :: k in mutations ==> mutations[k] == NewField(record[k])
  {
    hide Retypes, ColumnOk;
  }
}
