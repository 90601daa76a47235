/** The typecast tree of column types: the weight-guided search finds least common ancestors, so joining
    types does not depend on the order in which they are met. */
module TypeLattice {

  datatype DataType =
    | Null | Bool | Int32 | Int64 | Float32 | Float64 | String | Object | Array | Unknown
    | Timestamp | TimestampMilli | TimestampMicro | TimestampNano

  datatype Tree<T> = Leaf | Node(t: T, left: Tree<T>, right: Tree<T>)

  /** `TypeWeights`; types that are not in the table get -1. */
  function Weight(t: DataType): int {
    match t
    case Bool => 0
    case Int32 => 1
    case Int64 => 2
    case Float64 => 3
    case Float32 => 4
    case String => 5
    case Timestamp => 6
    case TimestampMilli => 7
    case TimestampMicro => 8
    case TimestampNano => 9
    case _ => -1
  }

  predicate Weighted(t: DataType) {
    Weight(t) >= 0
  }

  const NUMBERS :=
    Node(Float64, Node(Int64, Node(Int32, Node(Bool, Leaf, Leaf), Leaf), Leaf), Node(Float32, Leaf, Leaf))

  const TIMES :=
    Node(TimestampNano, Node(TimestampMicro, Node(TimestampMilli, Node(Timestamp, Leaf, Leaf), Leaf), Leaf), Leaf)

  /** `typecastTree`. */
  const TREE := Node(String, NUMBERS, TIMES)

  // ----- the search -----

  function Search(tree: Tree<DataType>, a: DataType, b: DataType): DataType {
    match tree
    case Leaf => Unknown
    case Node(t, left, right) =>
      if !Weighted(t) then Unknown
      else if !Weighted(a) || !Weighted(b) then t
      else if Weight(a) > Weight(t) && Weight(b) > Weight(t) then Search(right, a, b)
      else if Weight(a) < Weight(t) && Weight(b) < Weight(t) then Search(left, a, b)
      else t
  }

  /** `lowestCommonAncestor`. */
  method LowestCommonAncestor(root: Tree<DataType>, a: DataType, b: DataType) returns (t: DataType)
    ensures t == Search(root, a, b)
  {
    var node := root;
    while node.Node?
      invariant Search(node, a, b) == Search(root, a, b)
      decreases node
    {
      if !Weighted(node.t) {
        return Unknown;
      }
      if !Weighted(a) || !Weighted(b) {
        return node.t;
      }
      if Weight(a) > Weight(node.t) && Weight(b) > Weight(node.t) {
        node := node.right;
      } else if Weight(a) < Weight(node.t) && Weight(b) < Weight(node.t) {
        node := node.left;
      } else {
        return node.t;
      }
    }
    return Unknown;
  }

  // ----- what it finds, on any search tree of weights -----

  function Lowest(tree: Tree<int>, x: int, y: int): int {
    match tree
    case Leaf => -1
    case Node(w, left, right) =>
      if x > w && y > w then Lowest(right, x, y) else if x < w && y < w then Lowest(left, x, y) else w
  }

  predicate InTree(tree: Tree<int>, w: int) {
    tree.Node? && (tree.t == w || InTree(tree.left, w) || InTree(tree.right, w))
  }

  ghost predicate SearchTree(tree: Tree<int>) {
    tree.Node? ==>
      && (forall w :: InTree(tree.left, w) ==> w < tree.t)
      && (forall w :: InTree(tree.right, w) ==> w > tree.t)
      && SearchTree(tree.left) && SearchTree(tree.right)
  }

  /** `y` is `x` or an ancestor of `x`. */
  predicate AtMost(tree: Tree<int>, x: int, y: int) {
    tree.Node? && ((tree.t == y && InTree(tree, x)) || AtMost(tree.left, x, y) || AtMost(tree.right, x, y))
  }

  lemma {:induction false} AtMostInside(tree: Tree<int>, x: int, y: int)
    requires AtMost(tree, x, y)
    ensures InTree(tree, x) && InTree(tree, y)
    decreases tree
  {
    if AtMost(tree.left, x, y) {
      AtMostInside(tree.left, x, y);
    } else if AtMost(tree.right, x, y) {
      AtMostInside(tree.right, x, y);
    }
  }

  /** An ancestor other than the root sits on one side, with what is below it. */
  lemma AncestorSides(tree: Tree<int>, x: int, z: int)
    requires SearchTree(tree) && AtMost(tree, x, z) && z != tree.t
    ensures AtMost(tree.left, x, z) <==> z < tree.t
    ensures AtMost(tree.right, x, z) <==> z > tree.t
    ensures z < tree.t ==> x < tree.t
    ensures z > tree.t ==> x > tree.t
  {
    if AtMost(tree.left, x, z) { AtMostInside(tree.left, x, z); }
    if AtMost(tree.right, x, z) { AtMostInside(tree.right, x, z); }
  }

  /** On every search tree, the search returns the least common ancestor. */
  lemma {:induction false} LowestIsLeast(tree: Tree<int>, x: int, y: int, z: int)
    requires SearchTree(tree) && InTree(tree, x) && InTree(tree, y)
    ensures AtMost(tree, x, Lowest(tree, x, y)) && AtMost(tree, y, Lowest(tree, x, y))
    ensures AtMost(tree, x, z) && AtMost(tree, y, z) ==> AtMost(tree, Lowest(tree, x, y), z)
    decreases tree
  {
    if x > tree.t && y > tree.t {
      LowestIsLeast(tree.right, x, y, z);
      AtMostInside(tree.right, x, Lowest(tree, x, y));
    } else if x < tree.t && y < tree.t {
      LowestIsLeast(tree.left, x, y, z);
      AtMostInside(tree.left, x, Lowest(tree, x, y));
    }
    if AtMost(tree, x, z) && AtMost(tree, y, z) && z != tree.t {
      AncestorSides(tree, x, z);
      AncestorSides(tree, y, z);
    }
  }

  lemma {:induction false} AtMostAntisymmetric(tree: Tree<int>, x: int, y: int)
    requires SearchTree(tree) && AtMost(tree, x, y) && AtMost(tree, y, x)
    ensures x == y
    decreases tree
  {
    if x != tree.t { AncestorSides(tree, y, x); }
    if y != tree.t { AncestorSides(tree, x, y); }
    if x != tree.t && y != tree.t {
      if x < tree.t { AtMostAntisymmetric(tree.left, x, y); } else { AtMostAntisymmetric(tree.right, x, y); }
    }
  }

  lemma {:induction false} AtMostTransitive(tree: Tree<int>, x: int, y: int, z: int)
    requires SearchTree(tree) && AtMost(tree, x, y) && AtMost(tree, y, z)
    ensures AtMost(tree, x, z)
    decreases tree
  {
    AtMostInside(tree, x, y);
    if z != tree.t {
      AncestorSides(tree, y, z);
      if y != tree.t {
        AncestorSides(tree, x, y);
        if z < tree.t { AtMostTransitive(tree.left, x, y, z); } else { AtMostTransitive(tree.right, x, y, z); }
      }
    }
  }

  // ----- the typecast tree -----

  function Weights(tree: Tree<DataType>): Tree<int> {
    match tree
    case Leaf => Leaf
    case Node(t, left, right) => Node(Weight(t), Weights(left), Weights(right))
  }

  predicate WeightedTree(tree: Tree<DataType>) {
    tree.Node? ==> Weighted(tree.t) && WeightedTree(tree.left) && WeightedTree(tree.right)
  }

  /** Searching types is searching their weights. */
  lemma {:induction false} SearchByWeight(tree: Tree<DataType>, a: DataType, b: DataType)
    requires WeightedTree(tree) && Weighted(a) && Weighted(b)
    ensures Weight(Search(tree, a, b)) == Lowest(Weights(tree), Weight(a), Weight(b))
    decreases tree
  {
    if tree.Node? {
      SearchByWeight(tree.left, a, b);
      SearchByWeight(tree.right, a, b);
    }
  }

  const RANKS: Tree<int> :=
    Node(5, Node(3, Node(2, Node(1, Node(0, Leaf, Leaf), Leaf), Leaf), Node(4, Leaf, Leaf)),
            Node(9, Node(8, Node(7, Node(6, Leaf, Leaf), Leaf), Leaf), Leaf))

  lemma TypecastRanks()
    ensures Weights(TREE) == RANKS && WeightedTree(TREE)
  {
    assert Weights(NUMBERS) == RANKS.left && WeightedTree(NUMBERS) by {
      assert Weights(NUMBERS.left.left) == RANKS.left.left.left;
      assert WeightedTree(NUMBERS.left.left);
    }
    assert Weights(TIMES) == RANKS.right && WeightedTree(TIMES) by {
      assert Weights(TIMES.left.left) == RANKS.right.left.left;
      assert WeightedTree(TIMES.left.left);
    }
  }

  /** A search tree that holds exactly the weights from `lo` to `hi`. */
  ghost predicate Spans(tree: Tree<int>, lo: int, hi: int) {
    SearchTree(tree) && forall w :: InTree(tree, w) <==> lo <= w <= hi
  }

  lemma SpansNode(lo: int, left: Tree<int>, w: int, right: Tree<int>, hi: int)
    requires Spans(left, lo, w - 1) && Spans(right, w + 1, hi) && lo <= w <= hi
    ensures Spans(Node(w, left, right), lo, hi)
  {
  }

  lemma SpansLeaf()
    ensures forall lo, hi :: lo == hi + 1 ==> Spans(Leaf, lo, hi)
  {
  }

  /** The typecast tree is ordered by weight and holds exactly the weights 0 to 9. */
  lemma TypecastTree()
    ensures SearchTree(RANKS)
    ensures forall w :: InTree(RANKS, w) <==> 0 <= w <= 9
  {
    assert Spans(RANKS, 0, 9) by {
      hide Spans;
      SpansLeaf();
      var small, int32, int64 := Node(0, Leaf, Leaf), RANKS.left.left.left, RANKS.left.left;
      SpansNode(0, Leaf, 0, Leaf, 0);
      SpansNode(0, small, 1, Leaf, 1);
      SpansNode(0, int32, 2, Leaf, 2);
      SpansNode(4, Leaf, 4, Leaf, 4);
      SpansNode(0, int64, 3, RANKS.left.right, 4);
      var second, milli, micro := Node(6, Leaf, Leaf), RANKS.right.left.left, RANKS.right.left;
      SpansNode(6, Leaf, 6, Leaf, 6);
      SpansNode(6, second, 7, Leaf, 7);
      SpansNode(6, milli, 8, Leaf, 8);
      SpansNode(6, micro, 9, Leaf, 9);
      SpansNode(0, RANKS.left, 5, RANKS.right, 9);
    }
  }

  /** `GetCommonAncestorType`. */
  function Join(a: DataType, b: DataType): DataType {
    Search(TREE, a, b)
  }

  lemma TimeJoins(a: DataType, b: DataType)
    requires {a, b} <= {Timestamp, TimestampMilli, TimestampMicro, TimestampNano}
    ensures Join(a, b) == if TimestampNano in {a, b} then TimestampNano else if TimestampMicro in {a, b} then TimestampMicro
                          else if TimestampMilli in {a, b} then TimestampMilli else Timestamp
  {
  }

  lemma NumberJoins(a: DataType, b: DataType)
    requires {a, b} <= {Bool, Int32, Int64, Float32, Float64}
    ensures {a, b} <= {Bool, Int32, Int64} ==> Join(a, b) == if Int64 in {a, b} then Int64 else if Int32 in {a, b} then Int32 else Bool
    ensures {a, b} <= {Float32} ==> Join(a, b) == Float32
    ensures !({a, b} <= {Bool, Int32, Int64} || {a, b} <= {Float32}) ==> Join(a, b) == Float64
  {
  }

  lemma StringJoins(a: DataType, b: DataType)
    requires !({a, b} <= {Timestamp, TimestampMilli, TimestampMicro, TimestampNano} || {a, b} <= {Bool, Int32, Int64, Float32, Float64})
    ensures Join(a, b) == String
  {
  }

  /** The joins, type by type: times join to the finer one, integers and booleans to the wider one, a single
      precision float stays one only beside its like, and everything else is a string. */
  lemma JoinLiteral(a: DataType, b: DataType)
    ensures Join(a, b) ==
      if {a, b} <= {Timestamp, TimestampMilli, TimestampMicro, TimestampNano} then
        (if TimestampNano in {a, b} then TimestampNano else if TimestampMicro in {a, b} then TimestampMicro
         else if TimestampMilli in {a, b} then TimestampMilli else Timestamp)
      else if {a, b} <= {Bool, Int32, Int64} then
        (if Int64 in {a, b} then Int64 else if Int32 in {a, b} then Int32 else Bool)
      else if {a, b} <= {Float32} then Float32
      else if {a, b} <= {Bool, Int32, Int64, Float32, Float64} then Float64
      else String
  {
    hide Join;
    if {a, b} <= {Timestamp, TimestampMilli, TimestampMicro, TimestampNano} {
      TimeJoins(a, b);
    } else if {a, b} <= {Bool, Int32, Int64, Float32, Float64} {
      NumberJoins(a, b);
    } else {
      StringJoins(a, b);
    }
  }

  /** Every value of type `a` casts to `b`. */
  predicate Widens(a: DataType, b: DataType) {
    Weighted(a) && Weighted(b) && AtMost(RANKS, Weight(a), Weight(b))
  }

  lemma SameWeight(a: DataType, b: DataType)
    requires Weighted(a) && Weight(a) == Weight(b)
    ensures a == b
  {
  }

  lemma JoinByWeight(a: DataType, b: DataType)
    requires Weighted(a) && Weighted(b)
    ensures Weight(Join(a, b)) == Lowest(RANKS, Weight(a), Weight(b))
  {
    hide Weight, Weighted, Search, Weights, WeightedTree, Lowest;
    TypecastRanks();
    SearchByWeight(TREE, a, b);
  }

  lemma WeightRange(a: DataType)
    ensures Weight(a) <= 9
  {
  }

  /** The join of two weighted types is their least upper bound. */
  lemma JoinIsLeast(a: DataType, b: DataType, c: DataType)
    requires Weighted(a) && Weighted(b)
    ensures Widens(a, Join(a, b)) && Widens(b, Join(a, b)) && Weighted(Join(a, b))
    ensures Widens(a, c) && Widens(b, c) ==> Widens(Join(a, b), c)
  {
    hide Weight, Join, AtMost, SearchTree, InTree, Lowest;
    TypecastTree();
    WeightRange(a);
    WeightRange(b);
    LowestIsLeast(RANKS, Weight(a), Weight(b), Weight(c));
    AtMostInside(RANKS, Weight(a), Lowest(RANKS, Weight(a), Weight(b)));
    JoinByWeight(a, b);
  }

  /** An unweighted type joins to the root, even with itself. */
  lemma JoinUnweighted(a: DataType, b: DataType)
    requires !Weighted(a) || !Weighted(b)
    ensures Join(a, b) == String
  {
  }

  lemma {:induction false} LowestSelf(tree: Tree<int>, x: int)
    requires SearchTree(tree) && InTree(tree, x)
    ensures Lowest(tree, x, x) == x
    decreases tree
  {
    if x < tree.t { LowestSelf(tree.left, x); } else if x > tree.t { LowestSelf(tree.right, x); }
  }

  /** Joining a type with itself gives the type if and only if the type is in the weight table. */
  lemma JoinSelfIff(a: DataType)
    ensures Join(a, a) == a <==> Weighted(a)
    ensures Weighted(a) <==> a in {Bool, Int32, Int64, Float32, Float64, String, Timestamp, TimestampMilli, TimestampMicro, TimestampNano}
  {
    assert Weighted(a) <==> a in {Bool, Int32, Int64, Float32, Float64, String, Timestamp, TimestampMilli, TimestampMicro, TimestampNano};
    hide Weight, Join, SearchTree, InTree, Lowest;
    if Weighted(a) {
      TypecastTree();
      WeightRange(a);
      LowestSelf(RANKS, Weight(a));
      JoinByWeight(a, a);
      SameWeight(a, Join(a, a));
    } else {
      JoinUnweighted(a, a);
      assert Weighted(String) by { StringWeighted(); }
    }
  }

  lemma StringWeighted()
    ensures Weighted(String)
  {
  }

  lemma SameWidth(a: DataType, b: DataType)
    requires Widens(a, b) && Widens(b, a)
    ensures a == b
  {
    hide Weight, AtMost, SearchTree, InTree;
    TypecastTree();
    AtMostAntisymmetric(RANKS, Weight(a), Weight(b));
    SameWeight(a, b);
  }

  lemma WidensTransitive(a: DataType, b: DataType, c: DataType)
    requires Widens(a, b) && Widens(b, c)
    ensures Widens(a, c)
  {
    hide Weight, AtMost, SearchTree, InTree;
    TypecastTree();
    AtMostTransitive(RANKS, Weight(a), Weight(b), Weight(c));
  }

  lemma JoinCommutes(a: DataType, b: DataType)
    ensures Join(a, b) == Join(b, a)
  {
    hide Join, Widens, Weighted;
    if Weighted(a) && Weighted(b) {
      JoinIsLeast(a, b, Join(b, a));
      JoinIsLeast(b, a, Join(a, b));
      SameWidth(Join(a, b), Join(b, a));
    } else {
      JoinUnweighted(a, b);
      JoinUnweighted(b, a);
    }
  }

  /** Both ways of joining three types are the least type above all three. */
  lemma JoinThree(a: DataType, b: DataType, c: DataType, d: DataType)
    requires Weighted(a) && Weighted(b) && Weighted(c)
    ensures var j := Join(Join(a, b), c);
            Widens(a, j) && Widens(b, j) && Widens(c, j) && (Widens(a, d) && Widens(b, d) && Widens(c, d) ==> Widens(j, d))
  {
    hide Join, Widens, Weighted;
    JoinIsLeast(a, b, d);
    JoinIsLeast(Join(a, b), c, d);
    WidensTransitive(a, Join(a, b), Join(Join(a, b), c));
    WidensTransitive(b, Join(a, b), Join(Join(a, b), c));
  }

  lemma StringTops(a: DataType)
    ensures Join(String, a) == String && Join(a, String) == String
  {
  }

  lemma JoinAssociates(a: DataType, b: DataType, c: DataType)
    ensures Join(Join(a, b), c) == Join(a, Join(b, c))
  {
    hide Join, Widens, Weighted;
    if Weighted(a) && Weighted(b) && Weighted(c) {
      var left, right := Join(Join(a, b), c), Join(Join(b, c), a);
      JoinThree(a, b, c, right);
      JoinThree(b, c, a, left);
      SameWidth(left, right);
      JoinCommutes(Join(b, c), a);
    } else {
      if !Weighted(a) || !Weighted(b) { JoinUnweighted(a, b); } else { JoinUnweighted(Join(a, b), c); }
      if !Weighted(b) || !Weighted(c) { JoinUnweighted(b, c); } else { JoinUnweighted(a, Join(b, c)); }
      StringTops(a);
      StringTops(c);
    }
  }

  // ----- joining many -----

  function JoinAll(types: seq<DataType>): DataType
    requires types != []
  {
    if |types| == 1 then types[0] else Join(JoinAll(types[..|types| - 1]), types[|types| - 1])
  }

  function Without(types: seq<DataType>, i: nat): seq<DataType>
    requires i < |types|
  {
    types[..i] + types[i + 1..]
  }

  lemma MovedFirst(types: seq<DataType>, i: nat)
    requires |types| > 1 && i < |types| - 1
    ensures Without(types, i)[..|types| - 2] == Without(types[..|types| - 1], i)
    ensures Without(types, i)[|types| - 2] == types[|types| - 1]
    ensures types[..|types| - 1][i] == types[i]
  {
  }

  /** Any element may be joined last. */
  lemma {:induction false} JoinedLast(types: seq<DataType>, i: nat)
    requires |types| > 1 && i < |types|
    ensures JoinAll(types) == Join(JoinAll(Without(types, i)), types[i])
    decreases |types|
  {
    hide Join;
    var n := |types| - 1;
    if i == n {
      assert Without(types, i) == types[..n];
    } else {
      MovedFirst(types, i);
      var last := types[n];
      if n > 1 {
        JoinedLast(types[..n], i);
        var rest := JoinAll(Without(types[..n], i));
        JoinAssociates(rest, types[i], last);
        JoinCommutes(types[i], last);
        JoinAssociates(rest, last, types[i]);
      } else {
        assert Without(types, 0) == [last];
        assert JoinAll(types[..1]) == types[0];
        JoinCommutes(types[0], last);
      }
    }
  }

  lemma MultisetWithout(types: seq<DataType>, i: nat)
    requires i < |types|
    ensures multiset(Without(types, i)) == multiset(types) - multiset{types[i]}
  {
    assert types == types[..i] + [types[i]] + types[i + 1..];
  }

  /** The join of many types does not depend on their order. */
  lemma {:induction false} JoinAnyOrder(a: seq<DataType>, b: seq<DataType>)
    requires a != [] && multiset(a) == multiset(b)
    ensures b != [] && JoinAll(a) == JoinAll(b)
    decreases |a|
  {
    hide Join;
    assert |a| == |multiset(a)| == |multiset(b)| == |b|;
    var last := a[|a| - 1];
    assert last in multiset(a);
    var i :| 0 <= i < |b| && b[i] == last;
    if |a| > 1 {
      MultisetWithout(a, |a| - 1);
      MultisetWithout(b, i);
      assert Without(a, |a| - 1) == a[..|a| - 1];
      JoinAnyOrder(a[..|a| - 1], Without(b, i));
      JoinedLast(b, i);
    }
  }

  /** Some enumeration of a set. */
  ghost function Listed(types: set<DataType>): seq<DataType> {
    if types == {} then []
    else
      var t :| t in types;
      Listed(types - {t}) + [t]
  }

  lemma {:induction false} ListedAll(types: set<DataType>)
    ensures multiset(Listed(types)) == multiset(types) && (types != {} ==> Listed(types) != [])
    decreases types
  {
    if types != {} {
      var list := Listed(types);
      var t := list[|list| - 1];
      assert t in types && list == Listed(types - {t}) + [t];
      ListedAll(types - {t});
      assert multiset(types) == multiset(types - {t}) + multiset{t};
    }
  }

  /** The join of a set of types. */
  ghost function JoinSet(types: set<DataType>): DataType
    requires types != {}
  {
    ListedAll(types);
    JoinAll(Listed(types))
  }

  /** However the set is enumerated. */
  lemma JoinSetAny(list: seq<DataType>, types: set<DataType>)
    requires types != {} && multiset(list) == multiset(types)
    ensures list != [] && JoinAll(list) == JoinSet(types)
  {
    ListedAll(types);
    assert |list| == |multiset(list)|;
    assert |multiset(types)| == |types| > 0;
    JoinAnyOrder(list, Listed(types));
  }

  lemma JoinSetOne(t: DataType)
    ensures JoinSet({t}) == t
  {
    JoinSetAny([t], {t});
  }

  lemma JoinSetMore(types: set<DataType>, t: DataType)
    requires types != {} && t !in types
    ensures JoinSet(types + {t}) == Join(JoinSet(types), t)
  {
    hide Join;
    ListedAll(types);
    var list := Listed(types) + [t];
    assert multiset(types + {t}) == multiset(types) + multiset{t};
    JoinSetAny(list, types + {t});
    assert list[..|list| - 1] == Listed(types);
  }
}
