/** Schema change detection of the Iceberg writer: a first pass looks for differences against the thread
    schema, a second pass evolves a copy of it. */
module IcebergSchema {
  import opened Wrappers
  import opened TypeLattice

  /** Iceberg type names; the writer itself only produces the first seven. */
  datatype Ice = IBoolean | IInt | ILong | IFloat | IDouble | ITimestamp | IString | IOther(name: string)

  type Schema = map<string, Ice>

  /** Detected types of a flattened record's values. */
  type Record = map<string, DataType>

  /** `DataType.ToIceberg`. */
  function ToIceberg(t: DataType): (ice: Ice)
    ensures !ice.IOther?
  {
    match t
    case Bool => IBoolean
    case Int32 => IInt
    case Int64 => ILong
    case Float32 => IFloat
    case Float64 => IDouble
    case Timestamp => ITimestamp
    case TimestampMilli => ITimestamp
    case TimestampMicro => ITimestamp
    case TimestampNano => ITimestamp
    case _ => IString
  }

  /** `IcebergTypeToDatatype`. */
  function FromIceberg(ice: Ice): DataType {
    match ice
    case IBoolean => Bool
    case IInt => Int32
    case ILong => Int64
    case IFloat => Float32
    case IDouble => Float64
    case ITimestamp => TimestampMicro
    case _ => String
  }

  /** `getCommonAncestorType`. */
  function IceJoin(a: Ice, b: Ice): Ice {
    ToIceberg(Join(FromIceberg(a), FromIceberg(b)))
  }

  /** `validTypeTransitions`. */
  predicate Listed(old_: Ice, new_: Ice) {
    match old_
    case IInt => new_ == IInt || new_ == ILong
    case ILong => new_ == ILong || new_ == IInt
    case IFloat => new_ == IFloat || new_ == IDouble
    case IDouble => new_ == IDouble || new_ == IFloat
    case IOther(_) => false
    case _ => new_ == old_
  }

  /** `isValidTransition`. */
  predicate ValidTransition(old_: Ice, new_: Ice) {
    old_ == new_ || Listed(old_, new_) || IceJoin(old_, new_) == old_
  }

  /** `isPromotionRequired`. */
  predicate Promotes(old_: Ice, new_: Ice) {
    (old_ == IInt && new_ == ILong) || (old_ == IFloat && new_ == IDouble)
  }

  // ----- the table of joins -----

  /** Number types join as numbers, time types only with each other. */
  function JoinTable(a: Ice, b: Ice): Ice {
    if a == b && !a.IOther? then a
    else if a in {IString, ITimestamp} || b in {IString, ITimestamp} || a.IOther? || b.IOther? then IString
    else if {a, b} <= {IBoolean, IInt, ILong} then (if ILong in {a, b} then ILong else IInt)
    else IDouble
  }

  lemma NumberTable(a: Ice, b: Ice)
    requires a in {IBoolean, IInt, ILong} && b in {IBoolean, IInt, ILong, IFloat, IDouble}
    ensures IceJoin(a, b) == JoinTable(a, b)
  {
  }

  lemma FloatTable(a: Ice, b: Ice)
    requires a in {IFloat, IDouble} && b in {IFloat, IDouble}
    ensures IceJoin(a, b) == JoinTable(a, b)
  {
  }

  lemma OtherTable(a: Ice, b: Ice)
    requires a.IOther? || a in {IString, ITimestamp}
    ensures IceJoin(a, b) == JoinTable(a, b)
  {
  }

  lemma IceJoinCommutes(a: Ice, b: Ice)
    ensures IceJoin(a, b) == IceJoin(b, a)
  {
    hide Join;
    JoinCommutes(FromIceberg(a), FromIceberg(b));
  }

  lemma IceJoinTable(a: Ice, b: Ice)
    ensures IceJoin(a, b) == JoinTable(a, b)
  {
    hide IceJoin;
    IceJoinCommutes(a, b);
    if a.IOther? || a in {IString, ITimestamp} {
      OtherTable(a, b);
    } else if b.IOther? || b in {IString, ITimestamp} {
      OtherTable(b, a);
    } else if a in {IBoolean, IInt, ILong} {
      NumberTable(a, b);
    } else if b in {IBoolean, IInt, ILong} {
      NumberTable(b, a);
    } else {
      FloatTable(a, b);
    }
  }

  lemma IceJoinAssociates(a: Ice, b: Ice, c: Ice)
    ensures IceJoin(IceJoin(a, b), c) == IceJoin(a, IceJoin(b, c))
  {
    hide Join, FromIceberg, ToIceberg;
    JoinStaysIce(a, b);
    JoinStaysIce(b, c);
    JoinAssociates(FromIceberg(a), FromIceberg(b), FromIceberg(c));
  }

  lemma IceJoinAbsorbs(a: Ice, b: Ice)
    ensures IceJoin(IceJoin(a, b), b) == IceJoin(a, b)
  {
    hide IceJoin;
    IceJoinTable(a, b);
    IceJoinTable(IceJoin(a, b), b);
  }

  lemma IceJoinSelf(a: Ice)
    requires !a.IOther?
    ensures IceJoin(a, a) == a
  {
    hide IceJoin;
    IceJoinTable(a, a);
  }

  /** A joined column accepts what it joined. */
  lemma JoinedAccepts(a: Ice, b: Ice, c: Ice)
    requires ValidTransition(a, c) && IceJoin(a, c) == a
    ensures IceJoin(IceJoin(a, b), c) == IceJoin(a, b)
  {
    hide IceJoin, ValidTransition;
    IceJoinAssociates(a, b, c);
    IceJoinCommutes(b, c);
    IceJoinAssociates(a, c, b);
  }

  /** Promotion keeps every transition that was valid. */
  lemma PromotedAccepts(old_: Ice, new_: Ice, t: Ice)
    requires Promotes(old_, new_) && ValidTransition(old_, t)
    ensures ValidTransition(new_, t) && !Promotes(new_, t)
  {
    hide IceJoin;
    IceJoinTable(old_, t);
    IceJoinTable(new_, t);
  }

  /** Which values a column takes, type by type. */
  lemma ValidTable(c: Ice, t: DataType)
    ensures ValidTransition(c, ToIceberg(t)) <==>
      match c
      case IBoolean => t == Bool
      case IInt => t in {Bool, Int32, Int64}
      case ILong => t in {Bool, Int32, Int64}
      case IFloat => t in {Float32, Float64}
      case IDouble => t in {Bool, Int32, Int64, Float32, Float64}
      case ITimestamp => t in {Timestamp, TimestampMilli, TimestampMicro, TimestampNano}
      case IString => true
      case IOther(_) => false
  {
    hide IceJoin;
    IceJoinTable(c, ToIceberg(t));
  }

  // ----- one column over a batch -----

  /** The column after one more value: `thread` is its type in the thread schema, if it has one there. */
  function Evolve(thread: Option<Ice>, now: Option<Ice>, t: Ice): Option<Ice> {
    if now.None? then Some(t)
    else if thread.Some? then (if Promotes(now.value, t) then Some(t) else now)
    else Some(IceJoin(now.value, t))
  }

  function Evolved(thread: Option<Ice>, values: seq<Ice>): Option<Ice> {
    if values == [] then thread
    else Evolve(thread, Evolved(thread, values[..|values| - 1]), values[|values| - 1])
  }

  predicate Accepts(thread: Option<Ice>, now: Option<Ice>, t: Ice) {
    thread.Some? && now.Some? ==> ValidTransition(now.value, t)
  }

  /** Every value is valid when its turn comes. */
  predicate Passes(thread: Option<Ice>, values: seq<Ice>) {
    values == [] ||
    (Passes(thread, values[..|values| - 1])
     && Accepts(thread, Evolved(thread, values[..|values| - 1]), values[|values| - 1]))
  }

  /** Every value of the batch is a valid transition for the column's final type. */
  lemma {:induction false} FinalTypeAccepts(thread: Option<Ice>, values: seq<Ice>, i: nat)
    requires Passes(thread, values) && i < |values| && forall t :: t in values ==> !t.IOther?
    ensures Evolved(thread, values).Some? && ValidTransition(Evolved(thread, values).value, values[i])
    ensures thread.None? ==> IceJoin(Evolved(thread, values).value, values[i]) == Evolved(thread, values).value
    decreases |values|
  {
    hide IceJoin, ValidTransition, Promotes;
    var n := |values| - 1;
    var front, t := values[..n], values[n];
    var before := Evolved(thread, front);
    assert values[i] in values && t in values;
    if i < n {
      FinalTypeAccepts(thread, front, i);
      if thread.Some? {
        if Promotes(before.value, t) { PromotedAccepts(before.value, t, values[i]); }
      } else {
        JoinedAccepts(before.value, t, values[i]);
        JoinIsValid(IceJoin(before.value, t), values[i]);
      }
    } else {
      LastIsValid(thread, before, t);
    }
  }

  lemma JoinIsValid(a: Ice, b: Ice)
    ensures IceJoin(a, b) == a ==> ValidTransition(a, b)
  {
    hide IceJoin;
  }

  lemma LastIsValid(thread: Option<Ice>, before: Option<Ice>, t: Ice)
    requires Accepts(thread, before, t) && !t.IOther? && (thread.Some? ==> before.Some?)
    ensures Evolve(thread, before, t).Some? && ValidTransition(Evolve(thread, before, t).value, t)
    ensures thread.None? ==> IceJoin(Evolve(thread, before, t).value, t) == Evolve(thread, before, t).value
  {
    hide IceJoin;
    IceJoinSelf(t);
    if before.Some? {
      IceJoinAbsorbs(before.value, t);
    }
  }

  lemma {:induction false} ThreadColumnStays(c: Ice, values: seq<Ice>)
    ensures Evolved(Some(c), values).Some?
    ensures Evolved(Some(c), values).value ==
              if exists t :: t in values && Promotes(c, t) then (if c == IInt then ILong else IDouble) else c
    decreases |values|
  {
    if values != [] {
      var front := values[..|values| - 1];
      ThreadColumnStays(c, front);
      assert values == front + [values[|values| - 1]];
    }
  }

  // ----- independence of order -----

  /** The type of an existing column does not depend on the order of a batch that passes. */
  lemma ThreadColumnAnyOrder(c: Ice, values: seq<Ice>, other: seq<Ice>)
    requires multiset(values) == multiset(other)
    ensures Evolved(Some(c), values) == Evolved(Some(c), other)
  {
    ThreadColumnStays(c, values);
    ThreadColumnStays(c, other);
    forall t ensures t in values <==> t in other {
      assert t in multiset(values) <==> t in multiset(other);
    }
  }

  function FromAll(values: seq<Ice>): seq<DataType> {
    seq(|values|, i requires 0 <= i < |values| => FromIceberg(values[i]))
  }

  lemma JoinStaysIce(a: Ice, b: Ice)
    ensures FromIceberg(IceJoin(a, b)) == Join(FromIceberg(a), FromIceberg(b))
  {
    hide Join;
    JoinOfIce(a, b);
  }

  /** Joins of types that Iceberg names come back unchanged from Iceberg. */
  lemma JoinOfIce(a: Ice, b: Ice)
    ensures Join(FromIceberg(a), FromIceberg(b)) in {Bool, Int32, Int64, Float32, Float64, TimestampMicro, String}
  {
    hide Join;
    var j := Join(FromIceberg(a), FromIceberg(b));
    TableOfTypes(FromIceberg(a), FromIceberg(b));
  }

  lemma TableOfTypes(a: DataType, b: DataType)
    requires a in {Bool, Int32, Int64, Float32, Float64, TimestampMicro, String}
    requires b in {Bool, Int32, Int64, Float32, Float64, TimestampMicro, String}
    ensures Join(a, b) in {Bool, Int32, Int64, Float32, Float64, TimestampMicro, String}
  {
  }

  lemma {:induction false} NewColumnIsJoin(values: seq<Ice>)
    requires values != [] && forall t :: t in values ==> !t.IOther?
    ensures Evolved(None, values).Some? && !Evolved(None, values).value.IOther?
    ensures FromIceberg(Evolved(None, values).value) == JoinAll(FromAll(values))
    decreases |values|
  {
    hide Join, IceJoin;
    var n := |values| - 1;
    var front, t := values[..n], values[n];
    assert t in values;
    if n > 0 {
      assert forall x :: x in front ==> x in values;
      NewColumnIsJoin(front);
      assert FromAll(values)[..n] == FromAll(front);
      JoinStaysIce(Evolved(None, front).value, t);
      NotOther(Evolved(None, front).value, t);
    }
  }

  lemma NotOther(a: Ice, b: Ice)
    ensures !IceJoin(a, b).IOther?
  {
    hide Join;
  }

  lemma FromIcebergInjective(a: Ice, b: Ice)
    requires !a.IOther? && !b.IOther? && FromIceberg(a) == FromIceberg(b)
    ensures a == b
  {
  }

  lemma FromAllSplit(left: seq<Ice>, t: Ice, right: seq<Ice>)
    ensures FromAll(left + [t] + right) == FromAll(left) + [FromIceberg(t)] + FromAll(right)
    ensures FromAll(left + right) == FromAll(left) + FromAll(right)
  {
    hide FromIceberg;
  }

  lemma Taken<T>(left: seq<T>, t: T, right: seq<T>)
    ensures multiset(left + [t] + right) == multiset(left + right) + multiset{t}
  {
  }

  lemma Cancelled<T>(a: multiset<T>, b: multiset<T>, t: T)
    requires a + multiset{t} == b + multiset{t}
    ensures a == b
  {
    assert a == a + multiset{t} - multiset{t};
    assert b == b + multiset{t} - multiset{t};
  }

  lemma Around(values: seq<Ice>, t: Ice) returns (left: seq<Ice>, right: seq<Ice>)
    requires t in multiset(values)
    ensures values == left + [t] + right
  {
    var i :| 0 <= i < |values| && values[i] == t;
    left, right := values[..i], values[i + 1..];
  }

  lemma FromAllTaken(left: seq<Ice>, t: Ice, right: seq<Ice>)
    ensures multiset(FromAll(left + [t] + right)) == multiset(FromAll(left + right)) + multiset{FromIceberg(t)}
    ensures multiset(left + [t] + right) == multiset(left + right) + multiset{t}
  {
    hide FromIceberg, FromAll;
    FromAllSplit(left, t, right);
    Taken(FromAll(left), FromIceberg(t), FromAll(right));
    Taken(left, t, right);
  }

  lemma {:induction false} FromAllMultiset(values: seq<Ice>, other: seq<Ice>)
    requires multiset(values) == multiset(other)
    ensures multiset(FromAll(values)) == multiset(FromAll(other))
    decreases |values|
  {
    hide FromIceberg, FromAll;
    assert |values| == |multiset(values)| == |multiset(other)| == |other|;
    if values != [] {
      var front, t := values[..|values| - 1], values[|values| - 1];
      assert t in multiset(other);
      var left, right := Around(other, t);
      assert values == front + [t] + [] && front + [] == front;
      FromAllTaken(left, t, right);
      FromAllTaken(front, t, []);
      Cancelled(multiset(front), multiset(left + right), t);
      FromAllMultiset(front, left + right);
    } else {
      assert values == other;
    }
  }

  /** The type of a new column is the join of its values, in any order. */
  lemma NewColumnAnyOrder(values: seq<Ice>, other: seq<Ice>)
    requires values != [] && multiset(values) == multiset(other) && forall t :: t in values ==> !t.IOther?
    ensures Evolved(None, values) == Evolved(None, other)
  {
    hide Join, IceJoin, FromIceberg;
    forall t | t in other ensures !t.IOther? {
      assert t in multiset(other);
    }
    assert |values| == |multiset(values)| == |multiset(other)| == |other|;
    NewColumnIsJoin(values);
    NewColumnIsJoin(other);
    FromAllMultiset(values, other);
    JoinAnyOrder(FromAll(values), FromAll(other));
    FromIcebergInjective(Evolved(None, values).value, Evolved(None, other).value);
  }

  /** Whether a batch passes can depend on its order: a `float` column takes an `int` only after a
      `double` has promoted it. */
  lemma FloatOrderExample()
    ensures Passes(Some(IFloat), [IDouble, IInt]) && !Passes(Some(IFloat), [IInt, IDouble])
  {
    IceJoinTable(IFloat, IInt);
    IceJoinTable(IDouble, IInt);
    TwoValues(Some(IFloat), IDouble, IInt);
    TwoValues(Some(IFloat), IInt, IDouble);
  }

  lemma TwoValues(thread: Option<Ice>, s: Ice, t: Ice)
    ensures Passes(thread, [s, t]) <==> Accepts(thread, thread, s) && Accepts(thread, Evolve(thread, thread, s), t)
  {
    hide Accepts, Evolve;
    assert [s, t][..1] == [s] && [s][..0] == [];
    assert Evolved(thread, [s]) == Evolve(thread, thread, s);
    assert Passes(thread, [s]) <==> Accepts(thread, thread, s);
  }

  /** It passes in every order if and only if every value is valid for the thread schema's own type. */
  lemma PassesAnyOrderIff(c: Ice, values: seq<Ice>)
    ensures (forall other: seq<Ice> :: multiset(other) == multiset(values) ==> Passes(Some(c), other))
            <==> forall t :: t in values ==> ValidTransition(c, t)
  {
    hide ValidTransition, Passes;
    if forall t :: t in values ==> ValidTransition(c, t) {
      forall other: seq<Ice> | multiset(other) == multiset(values) ensures Passes(Some(c), other) {
        forall t | t in other ensures ValidTransition(c, t) {
          assert t in multiset(other);
        }
        AllValidPasses(c, other);
      }
    } else {
      var i :| 0 <= i < |values| && !ValidTransition(c, values[i]);
      var first := PutFirst(values, i);
      BadFirstFails(c, first);
    }
  }

  lemma PutFirst(values: seq<Ice>, i: nat) returns (first: seq<Ice>)
    requires i < |values|
    ensures multiset(first) == multiset(values) && first != [] && first[0] == values[i]
  {
    first := [values[i]] + (values[..i] + values[i + 1..]);
    assert values == values[..i] + [values[i]] + values[i + 1..];
  }

  lemma {:induction false} AllValidPasses(c: Ice, values: seq<Ice>)
    requires forall t :: t in values ==> ValidTransition(c, t)
    ensures Passes(Some(c), values)
    decreases |values|
  {
    hide ValidTransition;
    if values != [] {
      var front, t := values[..|values| - 1], values[|values| - 1];
      assert t in values;
      AllValidPasses(c, front);
      ThreadColumnStays(c, front);
      if exists p :: p in front && Promotes(c, p) {
        var p :| p in front && Promotes(c, p);
        PromotedAccepts(c, p, t);
      }
    }
  }

  /** For every type but `float`, a batch passes if and only if every value is valid for the type itself, in
      whatever order: only `float` columns depend on it. */
  lemma {:induction false} PassesIffValid(c: Ice, values: seq<Ice>)
    requires c != IFloat
    ensures Passes(Some(c), values) <==> forall t :: t in values ==> ValidTransition(c, t)
    decreases |values|
  {
    hide ValidTransition;
    if values != [] {
      var front, last := values[..|values| - 1], values[|values| - 1];
      PassesIffValid(c, front);
      ThreadColumnStays(c, front);
      SameWhenPromoted(c, Evolved(Some(c), front).value, last);
      assert values == front + [last];
    }
  }

  lemma SameWhenPromoted(c: Ice, now: Ice, t: Ice)
    requires c != IFloat && (now == c || (c == IInt && now == ILong))
    ensures ValidTransition(now, t) <==> ValidTransition(c, t)
  {
    hide IceJoin;
    IceJoinTable(c, t);
    IceJoinTable(now, t);
  }

  lemma {:induction false} BadFirstFails(c: Ice, values: seq<Ice>)
    requires values != [] && !ValidTransition(c, values[0])
    ensures !Passes(Some(c), values)
    decreases |values|
  {
    hide ValidTransition;
    if |values| > 1 {
      BadFirstFails(c, values[..|values| - 1]);
    } else {
      assert values[..0] == [];
    }
  }

  // ----- records -----

  /** A record without its null values. */
  function Clean(record: Record): (cleaned: Record)
    ensures forall k :: k in cleaned <==> k in record && record[k] != Null
    ensures forall k :: k in cleaned ==> cleaned[k] == record[k]
  {
    map k | k in record && record[k] != Null :: record[k]
  }

  function CleanAll(records: seq<Record>): seq<Record> {
    seq(|records|, i requires 0 <= i < |records| => Clean(records[i]))
  }

  function Look(schema: Schema, k: string): Option<Ice> {
    if k in schema then Some(schema[k]) else None
  }

  /** The values of one column over a batch, in order. */
  function Values(records: seq<Record>, k: string): (values: seq<Ice>)
    ensures forall t :: t in values ==> !t.IOther?
  {
    if records == [] then []
    else
      var last := records[|records| - 1];
      Values(records[..|records| - 1], k) + if k in Clean(last) then [ToIceberg(last[k])] else []
  }

  datatype Outcome = Same | Changed | Invalid

  /** Nothing to do for this value. */
  predicate Fits(schema: Schema, k: string, t: DataType) {
    k in schema && ValidTransition(schema[k], ToIceberg(t)) && !Promotes(schema[k], ToIceberg(t))
  }

  predicate Rejected(schema: Schema, k: string, t: DataType) {
    k in schema && !ValidTransition(schema[k], ToIceberg(t))
  }

  predicate Differs(schema: Schema, k: string, t: DataType) {
    k in schema ==> Promotes(schema[k], ToIceberg(t))
  }

  /** Nulls are gone from the keys already visited. */
  predicate Swept(record: Record, todo: set<string>, cleaned: Record) {
    cleaned == map k | k in record && (k in todo || record[k] != Null) :: record[k]
  }

  lemma SweptAll(record: Record, todo: set<string>, cleaned: Record)
    requires Swept(record, todo, cleaned)
    ensures todo == {} ==> cleaned == Clean(record)
    ensures Clean(cleaned) == Clean(record)
  {
  }

  lemma SweptOne(record: Record, todo: set<string>, cleaned: Record, k: string)
    requires Swept(record, todo, cleaned) && k in todo && k in record
    ensures Swept(record, todo - {k}, if record[k] == Null then cleaned - {k} else cleaned)
  {
  }

  /** The first pass over one record, its values in any order. */
  method Detect(record: Record, schema: Schema) returns (outcome: Outcome, cleaned: Record)
    ensures outcome == Same <==> forall k :: k in Clean(record) ==> Fits(schema, k, record[k])
    ensures outcome == Invalid ==> exists k :: k in Clean(record) && Rejected(schema, k, record[k])
    ensures outcome == Changed ==> exists k :: k in Clean(record) && Differs(schema, k, record[k])
    ensures outcome == Same ==> cleaned == Clean(record)
    ensures Clean(cleaned) == Clean(record)
  {
    hide ValidTransition, Promotes, ToIceberg, Swept;
    cleaned := record;
    var todo := record.Keys;
    assert Swept(record, todo, cleaned) by { SweptNone(record); }
    while todo != {}
      invariant todo <= record.Keys && Swept(record, todo, cleaned)
      invariant forall k :: k in Clean(record) && k !in todo ==> Fits(schema, k, record[k])
      decreases todo
    {
      var k :| k in todo;
      SweptOne(record, todo, cleaned, k);
      todo := todo - {k};
      if record[k] == Null {
        cleaned := cleaned - {k};
        continue;
      }
      SweptAll(record, todo, cleaned);
      assert k in Clean(record);
      var t := ToIceberg(record[k]);
      if k in schema {
        if !ValidTransition(schema[k], t) {
          assert Rejected(schema, k, record[k]);
          return Invalid, cleaned;
        }
        if Promotes(schema[k], t) {
          assert Differs(schema, k, record[k]);
          return Changed, cleaned;
        }
      } else {
        assert Differs(schema, k, record[k]);
        return Changed, cleaned;
      }
    }
    SweptAll(record, todo, cleaned);
    outcome := Same;
  }

  lemma SweptNone(record: Record)
    ensures Swept(record, record.Keys, record)
  {
  }

  /** The second pass on one value. */
  method UpdateKey(thread: Schema, schema: Schema, k: string, t: Ice) returns (ok: bool, next: Schema)
    requires thread.Keys <= schema.Keys
    ensures ok <==> Accepts(Look(thread, k), Look(schema, k), t)
    ensures ok ==> schema.Keys <= next.Keys && Look(next, k) == Evolve(Look(thread, k), Look(schema, k), t)
    ensures ok ==> forall other :: other != k ==> Look(next, other) == Look(schema, other)
  {
    hide ValidTransition, IceJoin, Promotes;
    next := schema;
    if k in thread {
      if !ValidTransition(schema[k], t) {
        return false, next;
      }
      if Promotes(schema[k], t) {
        next := schema[k := t];
      }
    } else if k in schema {
      next := schema[k := IceJoin(schema[k], t)];
    } else {
      next := schema[k := t];
    }
    ok := true;
  }

  /** The schema after the second pass over the keys of a record that are not in `todo`. */
  ghost predicate PartlyUpdated(thread: Schema, schema: Schema, record: Record, todo: set<string>, next: Schema) {
    && (forall k :: k in Clean(record) && k !in todo ==>
          Accepts(Look(thread, k), Look(schema, k), ToIceberg(record[k]))
          && Look(next, k) == Evolve(Look(thread, k), Look(schema, k), ToIceberg(record[k])))
    && (forall k :: k !in Clean(record) || k in todo ==> Look(next, k) == Look(schema, k))
  }

  /** The schema after the second pass over one record. */
  ghost predicate Updated(thread: Schema, schema: Schema, record: Record, next: Schema) {
    && (forall k :: k in Clean(record) ==> Look(next, k) == Evolve(Look(thread, k), Look(schema, k), ToIceberg(record[k])))
    && (forall k :: k !in Clean(record) ==> Look(next, k) == Look(schema, k))
  }

  predicate RecordAccepted(thread: Schema, schema: Schema, record: Record) {
    forall k :: k in Clean(record) ==> Accepts(Look(thread, k), Look(schema, k), ToIceberg(record[k]))
  }

  /** The second pass over one record, its values in any order. */
  method Update(record: Record, thread: Schema, schema: Schema) returns (ok: bool, next: Schema, cleaned: Record)
    requires thread.Keys <= schema.Keys
    ensures ok <==> RecordAccepted(thread, schema, record)
    ensures ok ==> Updated(thread, schema, record, next) && cleaned == Clean(record)
    ensures ok ==> schema.Keys <= next.Keys
  {
    hide Accepts, Evolve, Look, ToIceberg, Swept, PartlyUpdated, Updated, Clean;
    ok, next, cleaned := true, schema, record;
    var todo := record.Keys;
    SweptNone(record);
    PartlyNone(thread, schema, record);
    while todo != {}
      invariant ok && todo <= record.Keys && schema.Keys <= next.Keys && Swept(record, todo, cleaned)
      invariant PartlyUpdated(thread, schema, record, todo, next)
      decreases todo
    {
      var k :| k in todo;
      SweptOne(record, todo, cleaned, k);
      if record[k] == Null {
        cleaned := cleaned - {k};
        PartlySkip(thread, schema, record, todo, next, k);
      } else {
        PartlyAt(thread, schema, record, todo, next, k);
        ghost var before := next;
        ok, next := UpdateKey(thread, next, k, ToIceberg(record[k]));
        if !ok {
          return;
        }
        PartlyMore(thread, schema, record, todo, before, next, k);
      }
      todo := todo - {k};
    }
    SweptAll(record, todo, cleaned);
    PartlyAll(thread, schema, record, next);
  }

  lemma PartlyNone(thread: Schema, schema: Schema, record: Record)
    ensures PartlyUpdated(thread, schema, record, record.Keys, schema)
  {
    hide Look;
  }

  lemma PartlySkip(thread: Schema, schema: Schema, record: Record, todo: set<string>, next: Schema, k: string)
    requires PartlyUpdated(thread, schema, record, todo, next) && k in record && record[k] == Null
    ensures PartlyUpdated(thread, schema, record, todo - {k}, next)
  {
    hide Look, Accepts, Evolve, ToIceberg;
    assert k !in Clean(record);
  }

  lemma PartlyAt(thread: Schema, schema: Schema, record: Record, todo: set<string>, next: Schema, k: string)
    requires PartlyUpdated(thread, schema, record, todo, next) && k in record && record[k] != Null && k in todo
    ensures k in Clean(record) && Look(next, k) == Look(schema, k)
  {
    hide Look, Accepts, Evolve, ToIceberg;
  }

  lemma PartlyMore(thread: Schema, schema: Schema, record: Record, todo: set<string>, before: Schema, next: Schema, k: string)
    requires PartlyUpdated(thread, schema, record, todo, before) && k in Clean(record) && k in todo
    requires Accepts(Look(thread, k), Look(schema, k), ToIceberg(record[k]))
    requires Look(next, k) == Evolve(Look(thread, k), Look(schema, k), ToIceberg(record[k]))
    requires forall other :: other != k ==> Look(next, other) == Look(before, other)
    ensures PartlyUpdated(thread, schema, record, todo - {k}, next)
  {
    hide Look, Accepts, Evolve, ToIceberg, Clean;
  }

  lemma PartlyAll(thread: Schema, schema: Schema, record: Record, next: Schema)
    requires PartlyUpdated(thread, schema, record, {}, next)
    ensures Updated(thread, schema, record, next) && RecordAccepted(thread, schema, record)
  {
    hide Look, Accepts, Evolve, ToIceberg, Clean;
  }

  /** The schema after the second pass over the first `n` records. */
  ghost predicate Evolving(thread: Schema, records: seq<Record>, n: nat, final: Schema)
    requires n <= |records|
  {
    forall k :: Look(final, k) == Evolved(Look(thread, k), Values(records[..n], k)) && Passes(Look(thread, k), Values(records[..n], k))
  }

  lemma ValuesMore(records: seq<Record>, n: nat, k: string)
    requires n < |records|
    ensures k in Clean(records[n]) ==>
              k in records[n] && Values(records[..n + 1], k) == Values(records[..n], k) + [ToIceberg(records[n][k])]
    ensures k !in Clean(records[n]) ==> Values(records[..n + 1], k) == Values(records[..n], k)
  {
    hide ToIceberg;
    assert records[..n + 1][..n] == records[..n];
  }

  lemma EvolvedMore(thread: Option<Ice>, values: seq<Ice>, t: Ice)
    ensures Evolved(thread, values + [t]) == Evolve(thread, Evolved(thread, values), t)
    ensures Passes(thread, values + [t]) <==> Passes(thread, values) && Accepts(thread, Evolved(thread, values), t)
  {
    hide Accepts, Evolve;
    assert (values + [t])[..|values|] == values;
  }

  lemma EvolvingMore(thread: Schema, records: seq<Record>, n: nat, final: Schema, next: Schema)
    requires n < |records| && Evolving(thread, records, n, final)
    requires RecordAccepted(thread, final, records[n]) && Updated(thread, final, records[n], next)
    ensures Evolving(thread, records, n + 1, next)
  {
    hide Accepts, Evolve, ToIceberg, Clean, Evolved, Passes, Values, Look;
    forall k
      ensures Look(next, k) == Evolved(Look(thread, k), Values(records[..n + 1], k))
      ensures Passes(Look(thread, k), Values(records[..n + 1], k))
    {
      ValuesMore(records, n, k);
      assert Look(final, k) == Evolved(Look(thread, k), Values(records[..n], k));
      if k in Clean(records[n]) {
        EvolvedMore(Look(thread, k), Values(records[..n], k), ToIceberg(records[n][k]));
      }
    }
  }

  /** A value of the batch is among its column's values. */
  lemma {:induction false} ValueAt(records: seq<Record>, i: nat, k: string)
    requires i < |records| && k in Clean(records[i])
    ensures ToIceberg(records[i][k]) in Values(records, k)
    decreases |records|
  {
    hide ToIceberg;
    if i < |records| - 1 {
      ValueAt(records[..|records| - 1], i, k);
    }
  }

  lemma {:induction false} ValueFrom(records: seq<Record>, k: string, t: Ice) returns (i: nat)
    requires t in Values(records, k)
    ensures i < |records| && k in Clean(records[i]) && ToIceberg(records[i][k]) == t
    decreases |records|
  {
    hide ToIceberg;
    var n := |records| - 1;
    if t in Values(records[..n], k) {
      i := ValueFrom(records[..n], k, t);
    } else {
      i := n;
    }
  }

  /** Every value fits: what the first pass establishes when it reports no change. */
  ghost predicate AllFit(schema: Schema, records: seq<Record>, n: nat)
    requires n <= |records|
  {
    forall i, k :: 0 <= i < n && k in Clean(records[i]) ==> Fits(schema, k, records[i][k])
  }

  /** If the first pass finds no change in any record, the second pass would leave the schema as it is. */
  lemma NoChangeIsIdentity(schema: Schema, records: seq<Record>)
    requires AllFit(schema, records, |records|)
    ensures Evolving(schema, records, |records|, schema)
  {
    hide ValidTransition, Promotes, ToIceberg, Evolved, Passes, Clean;
    assert records[..|records|] == records;
    forall k
      ensures Look(schema, k) == Evolved(Look(schema, k), Values(records, k)) && Passes(Look(schema, k), Values(records, k))
    {
      forall t | t in Values(records, k) ensures k in schema && ValidTransition(schema[k], t) && !Promotes(schema[k], t) {
        var i := ValueFrom(records, k, t);
        assert Fits(schema, k, records[i][k]);
      }
      FittingColumn(Look(schema, k), Values(records, k));
    }
  }

  lemma FittingColumn(thread: Option<Ice>, values: seq<Ice>)
    requires forall t :: t in values ==> thread.Some? && ValidTransition(thread.value, t) && !Promotes(thread.value, t)
    ensures Evolved(thread, values) == thread && Passes(thread, values)
  {
    hide ValidTransition;
    if values != [] {
      assert values[0] in values;
      AllValidPasses(thread.value, values);
      ThreadColumnStays(thread.value, values);
    } else {
      assert Evolved(thread, values) == thread;
    }
  }

  /** A value that made the first pass report a change does change the schema. */
  lemma ChangeIsReal(schema: Schema, records: seq<Record>, i: nat, k: string, final: Schema)
    requires Evolving(schema, records, |records|, final)
    requires i < |records| && k in Clean(records[i]) && Differs(schema, k, records[i][k])
    ensures final != schema
  {
    hide ValidTransition, ToIceberg, Clean, IceJoin;
    assert records[..|records|] == records;
    var values := Values(records, k);
    ValueAt(records, i, k);
    assert Look(final, k) == Evolved(Look(schema, k), values);
    if k in schema {
      ThreadColumnStays(schema[k], values);
    } else {
      NewColumnIsJoin(values);
    }
  }

  /** A batch the second pass refuses holds a value that the thread schema itself refuses. */
  lemma RefusalIsReal(schema: Schema, records: seq<Record>, n: nat, final: Schema)
    requires n < |records| && Evolving(schema, records, n, final) && !RecordAccepted(schema, final, records[n])
    ensures exists k :: k in Clean(records[n]) && Rejected(schema, k, records[n][k])
  {
    hide ValidTransition, ToIceberg, Clean, IceJoin;
    var k :| k in Clean(records[n]) && !Accepts(Look(schema, k), Look(final, k), ToIceberg(records[n][k]));
    var t := ToIceberg(records[n][k]);
    ThreadColumnStays(schema[k], Values(records[..n], k));
    assert Look(final, k) == Evolved(Look(schema, k), Values(records[..n], k));
    if ValidTransition(schema[k], t) && final[k] != schema[k] {
      PromotedAccepts(schema[k], final[k], t);
    }
    assert Rejected(schema, k, records[n][k]);
  }

  ghost predicate SomeRejected(schema: Schema, records: seq<Record>) {
    exists i, k :: 0 <= i < |records| && k in Clean(records[i]) && Rejected(schema, k, records[i][k])
  }

  ghost predicate SomeDiffers(schema: Schema, records: seq<Record>) {
    exists i, k :: 0 <= i < |records| && k in Clean(records[i]) && Differs(schema, k, records[i][k])
  }

  /** The first pass: records are looked at concurrently, and not at all once a change is seen (unless
      the look had already begun). */
  method FirstPass(records: seq<Record>, schema: Schema) returns (ok: bool, changed: bool, cleaned: seq<Record>)
    ensures !ok ==> SomeRejected(schema, records)
    ensures ok && !changed ==> AllFit(schema, records, |records|) && cleaned == CleanAll(records)
    ensures ok && changed ==> SomeDiffers(schema, records)
  {
    hide Fits, Rejected, Differs, Clean;
    ok, changed, cleaned := true, false, [];
    for i := 0 to |records|
      invariant ok && |cleaned| == i
      invariant !changed ==> AllFit(schema, records, i) && forall j :: 0 <= j < i ==> cleaned[j] == Clean(records[j])
      invariant changed ==> SomeDiffers(schema, records)
    {
      var begun: bool := *;
      if changed && !begun {
        cleaned := cleaned + [records[i]];
        continue;
      }
      var outcome, left := Detect(records[i], schema);
      if outcome == Invalid {
        return false, changed, cleaned;
      }
      cleaned := cleaned + [left];
      if outcome == Changed {
        changed := true;
      }
    }
  }

  /** The second pass, over all records in order. */
  method SecondPass(records: seq<Record>, schema: Schema) returns (ok: bool, result: Schema, cleaned: seq<Record>)
    ensures ok ==> Evolving(schema, records, |records|, result) && cleaned == CleanAll(records)
    ensures !ok ==> SomeRejected(schema, records)
  {
    hide Evolving, RecordAccepted, Updated, Clean, Rejected;
    ok, result, cleaned := true, schema, [];
    assert Evolving(schema, records, 0, schema) by { EvolvingNone(schema, records); }
    for n := 0 to |records|
      invariant ok && schema.Keys <= result.Keys && Evolving(schema, records, n, result)
      invariant |cleaned| == n && forall j :: 0 <= j < n ==> cleaned[j] == Clean(records[j])
    {
      var next, left;
      ok, next, left := Update(records[n], schema, result);
      if !ok {
        RefusalIsReal(schema, records, n, result);
        return;
      }
      EvolvingMore(schema, records, n, result, next);
      result, cleaned := next, cleaned + [left];
    }
  }

  lemma EvolvingNone(schema: Schema, records: seq<Record>)
    ensures Evolving(schema, records, 0, schema)
  {
    assert records[..0] == [];
  }

  // ----- what an extraction does, type by type -----

  /** Some record of the batch has a value of this type in the column. */
  ghost predicate Meets(records: seq<Record>, k: string, t: DataType) {
    exists i :: 0 <= i < |records| && k in records[i] && records[i][k] == t
  }

  /** All values of the column, nulls apart, are of these types. */
  ghost predicate Only(records: seq<Record>, k: string, types: set<DataType>) {
    forall t :: Meets(records, k, t) && t != Null ==> t in types
  }

  ghost predicate Within(values: seq<Ice>, types: set<Ice>) {
    forall t :: t in values ==> t in types
  }

  /** The values of a column are the Iceberg types of what its records hold. */
  lemma ValuesMeet(records: seq<Record>, k: string, ice: Ice)
    ensures ice in Values(records, k) <==> exists t :: Meets(records, k, t) && t != Null && ToIceberg(t) == ice
  {
    hide ToIceberg;
    if ice in Values(records, k) {
      var i := ValueFrom(records, k, ice);
      assert Meets(records, k, records[i][k]);
    }
    if t :| Meets(records, k, t) && t != Null && ToIceberg(t) == ice {
      var i :| 0 <= i < |records| && k in records[i] && records[i][k] == t;
      assert k in Clean(records[i]);
      ValueAt(records, i, k);
    }
  }

  lemma WithinIffOnly(records: seq<Record>, k: string, ices: set<Ice>, types: set<DataType>)
    requires forall t :: t != Null ==> (t in types <==> ToIceberg(t) in ices)
    ensures Within(Values(records, k), ices) <==> Only(records, k, types)
  {
    hide ToIceberg, Values, Meets;
    forall ice ensures ice in Values(records, k) <==> exists t :: Meets(records, k, t) && t != Null && ToIceberg(t) == ice {
      ValuesMeet(records, k, ice);
    }
    if Within(Values(records, k), ices) {
      forall t | Meets(records, k, t) && t != Null ensures t in types { assert ToIceberg(t) in Values(records, k); }
    }
  }

  /** The narrowest type for values that are all times, all booleans, and so on. */
  function Narrowest(times: bool, bools: bool, ints: bool, longs: bool, floats: bool, numbers: bool): Ice {
    if times then ITimestamp else if bools then IBoolean else if ints then IInt else if longs then ILong
    else if floats then IFloat else if numbers then IDouble else IString
  }

  lemma NarrowestStep(times: bool, bools: bool, ints: bool, longs: bool, floats: bool, numbers: bool, t: Ice)
    requires (bools ==> ints) && (ints ==> longs) && (longs ==> numbers) && (floats ==> numbers) && !(floats && longs) && !(times && numbers)
    requires !t.IOther?
    ensures JoinTable(Narrowest(times, bools, ints, longs, floats, numbers), t) ==
      Narrowest(times && t in {ITimestamp}, bools && t in {IBoolean}, ints && t in {IBoolean, IInt}, longs && t in {IBoolean, IInt, ILong},
                floats && t in {IFloat}, numbers && t in {IBoolean, IInt, ILong, IFloat, IDouble})
  {
  }

  lemma NarrowestOne(t: Ice)
    requires !t.IOther?
    ensures t == Narrowest(t in {ITimestamp}, t in {IBoolean}, t in {IBoolean, IInt}, t in {IBoolean, IInt, ILong},
                           t in {IFloat}, t in {IBoolean, IInt, ILong, IFloat, IDouble})
  {
  }

  /** The type of a new column is the narrowest that holds all its values. */
  lemma {:induction false} NewColumnTable(values: seq<Ice>)
    requires values != [] && forall t :: t in values ==> !t.IOther?
    ensures Evolved(None, values) ==
      Some(Narrowest(Within(values, {ITimestamp}), Within(values, {IBoolean}), Within(values, {IBoolean, IInt}), Within(values, {IBoolean, IInt, ILong}),
                     Within(values, {IFloat}), Within(values, {IBoolean, IInt, ILong, IFloat, IDouble})))
    decreases |values|
  {
    hide IceJoin, JoinTable, Narrowest;
    var n := |values| - 1;
    var front, t := values[..n], values[n];
    assert values == front + [t] && t in values;
    forall types ensures Within(values, types) <==> Within(front, types) && t in types { WithinMore(front, t, types); }
    if n > 0 {
      assert forall x :: x in front ==> x in values;
      NewColumnTable(front);
      IceJoinTable(Evolved(None, front).value, t);
      NotEmptyWithin(front);
      hide Within;
      NarrowestStep(Within(front, {ITimestamp}), Within(front, {IBoolean}), Within(front, {IBoolean, IInt}), Within(front, {IBoolean, IInt, ILong}),
                    Within(front, {IFloat}), Within(front, {IBoolean, IInt, ILong, IFloat, IDouble}), t);
    } else {
      assert front == [];
      NarrowestOne(t);
    }
  }

  lemma WithinMore(front: seq<Ice>, t: Ice, types: set<Ice>)
    ensures Within(front + [t], types) <==> Within(front, types) && t in types
  {
    if Within(front + [t], types) {
      assert t in front + [t];
      forall x | x in front ensures x in types { assert x in front + [t]; }
    }
  }

  lemma NotEmptyWithin(values: seq<Ice>)
    requires values != []
    ensures !(Within(values, {ITimestamp}) && Within(values, {IBoolean, IInt, ILong, IFloat, IDouble}))
    ensures !(Within(values, {IFloat}) && Within(values, {IBoolean, IInt, ILong}))
    ensures Within(values, {IBoolean}) ==> Within(values, {IBoolean, IInt})
    ensures Within(values, {IBoolean, IInt}) ==> Within(values, {IBoolean, IInt, ILong})
    ensures Within(values, {IBoolean, IInt, ILong}) || Within(values, {IFloat}) ==> Within(values, {IBoolean, IInt, ILong, IFloat, IDouble})
  {
    assert values[0] in values;
  }

  /** The type an extraction gives a column that the thread schema has: a long value makes an int column
      long, a double value a float column double, and no other type changes. */
  lemma ExtractedExisting(schema: Schema, records: seq<Record>, result: Schema, k: string)
    requires Evolving(schema, records, |records|, result) && k in schema
    ensures k in result && result[k] ==
      if schema[k] == IInt && Meets(records, k, Int64) then ILong
      else if schema[k] == IFloat && Meets(records, k, Float64) then IDouble
      else schema[k]
  {
    hide Evolved, Passes, Values, Meets;
    assert records[..|records|] == records;
    assert Look(result, k) == Evolved(Look(schema, k), Values(records, k));
    ThreadColumnStays(schema[k], Values(records, k));
    ValuesMeet(records, k, ILong);
    ValuesMeet(records, k, IDouble);
  }

  /** And one that it does not have: there is one if some value is not null, and its type is the narrowest
      that holds all its values. */
  lemma ExtractedNew(schema: Schema, records: seq<Record>, result: Schema, k: string)
    requires Evolving(schema, records, |records|, result) && k !in schema
    ensures k in result <==> exists t :: Meets(records, k, t) && t != Null
    ensures k !in result || result[k] == (
      if Only(records, k, {Timestamp, TimestampMilli, TimestampMicro, TimestampNano}) then ITimestamp
      else if Only(records, k, {Bool}) then IBoolean
      else if Only(records, k, {Bool, Int32}) then IInt
      else if Only(records, k, {Bool, Int32, Int64}) then ILong
      else if Only(records, k, {Float32}) then IFloat
      else if Only(records, k, {Bool, Int32, Int64, Float32, Float64}) then IDouble
      else IString)
  {
    assert records[..|records|] == records;
    assert Look(result, k) == Evolved(Look(schema, k), Values(records, k)) by { hide Evolved, Passes, Values; }
    var values := Values(records, k);
    WithinIffOnly(records, k, {ITimestamp}, {Timestamp, TimestampMilli, TimestampMicro, TimestampNano});
    WithinIffOnly(records, k, {IBoolean}, {Bool});
    WithinIffOnly(records, k, {IBoolean, IInt}, {Bool, Int32});
    WithinIffOnly(records, k, {IBoolean, IInt, ILong}, {Bool, Int32, Int64});
    WithinIffOnly(records, k, {IFloat}, {Float32});
    WithinIffOnly(records, k, {IBoolean, IInt, ILong, IFloat, IDouble}, {Bool, Int32, Int64, Float32, Float64});
    hide Only, Within, Meets, Evolving, ToIceberg;
    if values != [] {
      NewColumnTable(values);
      ValuesMeet(records, k, values[0]);
    } else {
      forall t ensures !(Meets(records, k, t) && t != Null) { ValuesMeet(records, k, ToIceberg(t)); }
    }
  }

  /** A value that makes an extraction report a change. */
  ghost predicate Changes(schema: Schema, records: seq<Record>, k: string) {
    if k in schema then (schema[k] == IInt && Meets(records, k, Int64)) || (schema[k] == IFloat && Meets(records, k, Float64))
    else exists t :: Meets(records, k, t) && t != Null
  }

  lemma ExtractedChanges(schema: Schema, records: seq<Record>, result: Schema)
    requires Evolving(schema, records, |records|, result)
    ensures result != schema <==> exists k :: Changes(schema, records, k)
  {
    forall k ensures Changes(schema, records, k) <==> Look(result, k) != Look(schema, k) {
      hide Evolving, Only, Meets;
      if k in schema { ExtractedExisting(schema, records, result, k); } else { ExtractedNew(schema, records, result, k); }
    }
    hide Changes, Evolving;
    if forall k :: Look(result, k) == Look(schema, k) { SameLooks(schema, result); }
  }

  lemma SameLooks(schema: Schema, result: Schema)
    requires forall k :: Look(result, k) == Look(schema, k)
    ensures result == schema
  {
    assert forall k :: k in schema <==> Look(schema, k).Some?;
    assert forall k :: k in result <==> Look(result, k).Some?;
    forall k | k in schema ensures k in result && result[k] == schema[k] { assert Look(result, k) == Look(schema, k); }
  }

  /** `extractSchemaFromRecords`. */
  method ExtractSchema(records: seq<Record>, schema: Schema)
    returns (ok: bool, changed: bool, result: Schema, cleaned: seq<Record>)
    ensures ok ==> Evolving(schema, records, |records|, result) && cleaned == CleanAll(records)
    ensures ok ==> (changed <==> result != schema) && (changed <==> exists k :: Changes(schema, records, k))
    ensures ok ==> forall k :: k in schema ==>
      k in result && result[k] == (if schema[k] == IInt && Meets(records, k, Int64) then ILong
                                   else if schema[k] == IFloat && Meets(records, k, Float64) then IDouble
                                   else schema[k])
    ensures !ok ==> SomeRejected(schema, records)
  {
    hide AllFit, Evolving, Rejected, Differs, CleanAll, SomeRejected, Meets, Changes;
    result := schema;
    ok, changed, cleaned := FirstPass(records, schema);
    if ok && changed {
      ok, result, cleaned := SecondPass(records, schema);
      if ok {
        ghost var i, k :| 0 <= i < |records| && k in Clean(records[i]) && Differs(schema, k, records[i][k]);
        ChangeIsReal(schema, records, i, k, result);
      }
    } else if ok {
      NoChangeIsIdentity(schema, records);
    }
    if ok {
      ExtractedChanges(schema, records, result);
      forall k | k in schema ensures k in result && result[k] ==
        if schema[k] == IInt && Meets(records, k, Int64) then ILong
        else if schema[k] == IFloat && Meets(records, k, Float64) then IDouble
        else schema[k]
      {
        ExtractedExisting(schema, records, result, k);
      }
    }
  }

  /** After a successful extraction every value is a valid transition for the resulting schema, and
      columns of the thread schema keep their type or its promotion. */
  lemma ExtractedAccepts(schema: Schema, records: seq<Record>, result: Schema, i: nat, k: string)
    requires Evolving(schema, records, |records|, result) && i < |records| && k in Clean(records[i])
    ensures k in result && ValidTransition(result[k], ToIceberg(records[i][k]))
    ensures k in schema ==> result[k] == schema[k] || Promotes(schema[k], result[k])
  {
    hide ValidTransition, ToIceberg, Clean, IceJoin;
    assert records[..|records|] == records;
    var values := Values(records, k);
    ValueAt(records, i, k);
    var j :| 0 <= j < |values| && values[j] == ToIceberg(records[i][k]);
    assert Look(result, k) == Evolved(Look(schema, k), values);
    FinalTypeAccepts(Look(schema, k), values, j);
    if k in schema {
      ThreadColumnStays(schema[k], values);
    }
  }
}
