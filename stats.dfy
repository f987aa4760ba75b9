/** Tree statistics: `calculateStats`, whose inner `walk` increments a per-type counter
    dictionary in place and raises a running maximum depth. */
module Stats {
  import opened Nodes

  /** `TreeStats`: the node total, the maximum depth and the per-type counts. */
  datatype TreeStats = TreeStats(total: nat, maxDepth: nat, counts: map<NodeType, nat>)

  /** The four type tags in the order the counter dictionary lists them. */
  const AllTypes: seq<NodeType> := [Root, Object, List, Data]

  function Max(a: int, b: int): int {
    if a < b then b else a
  }

  /** The number of nodes of type `t` in a tree. */
  function CountOf(n: Node, t: NodeType): nat
    decreases n
  {
    (if n.Type() == t then 1 else 0) + (if n.DataNode? then 0 else CountList(n.children, t))
  }

  function CountList(cs: seq<Node>, t: NodeType): nat
    decreases cs
  {
    if cs == [] then 0 else CountOf(cs[0], t) + CountList(cs[1..], t)
  }

  /** The height of a tree, a lone node counting 1. */
  function Height(n: Node): nat
    decreases n
  {
    1 + (if n.DataNode? then 0 else HeightList(n.children))
  }

  /** The greatest height among `cs`, 0 when there is none. */
  function HeightList(cs: seq<Node>): nat
    decreases cs
  {
    if cs == [] then 0 else Max(Height(cs[0]), HeightList(cs[1..]))
  }

  /** Every type tag has a counter. */
  predicate Complete(counts: map<NodeType, nat>) {
    forall t: NodeType :: t in counts
  }

  /** The sum of the counters listed in `ts`. */
  function SumOver(counts: map<NodeType, nat>, ts: seq<NodeType>): nat
    requires Complete(counts)
  {
    if ts == [] then 0 else SumOver(counts, ts[..|ts| - 1]) + counts[ts[|ts| - 1]]
  }

  /** The `walk` closure's shared state: the `counts` dictionary and the `maxDepth` variable. */
  class Walker {
    var counts: map<NodeType, nat>
    var maxDepth: nat

    /** All four counters start at 0, and the maximum depth at 0. */
    constructor ()
      ensures counts == map[Root := 0, Object := 0, List := 0, Data := 0]
      ensures Complete(counts) && forall t :: counts[t] == 0
      ensures maxDepth == 0
    {
      counts := map[Root := 0, Object := 0, List := 0, Data := 0];
      maxDepth := 0;
      new;
      forall t: NodeType
        ensures t in counts && counts[t] == 0
      {
        match t
        case Root =>
        case Object =>
        case List =>
        case Data =>
      }
    }

    /** `walk(n, depth)`: counts every node of the tree under its type and raises the
        maximum depth to the depth of the tree's deepest node. */
    method Walk(n: Node, depth: nat)
      requires Complete(counts)
      modifies this
      ensures Complete(counts)
      ensures forall t :: counts[t] == old(counts[t]) + CountOf(n, t)
      ensures maxDepth == Max(old(maxDepth), depth + Height(n) - 1)
      decreases n, 1
    {
      counts := counts[n.Type() := counts[n.Type()] + 1];
      maxDepth := Max(maxDepth, depth);
      if n.HasChildren() {
        WalkChildren(n.children, depth + 1);
      }
    }

    /** `n.children.forEach((c) => walk(c, depth))`, called once the parent one level up
        has been counted, so `maxDepth` already reaches `depth - 1`. */
    method WalkChildren(cs: seq<Node>, depth: nat)
      requires Complete(counts) && depth <= maxDepth + 1
      modifies this
      ensures Complete(counts)
      ensures forall t :: counts[t] == old(counts[t]) + CountList(cs, t)
      ensures maxDepth == Max(old(maxDepth), depth + HeightList(cs) - 1)
      decreases cs, 0
    {
      var i := 0;
      assert cs[..0] == [];
      while i < |cs|
        invariant 0 <= i <= |cs|
        invariant CountedSoFar(counts, old(counts), cs[..i])
        invariant maxDepth == Max(old(maxDepth), depth + HeightList(cs[..i]) - 1)
      {
        ghost var before, mid := maxDepth, counts;
        Walk(cs[i], depth);
        assert cs[..i + 1] == cs[..i] + [cs[i]];
        CountedStep(counts, mid, old(counts), cs[..i], cs[i]);
        HeightListSnoc(cs[..i], cs[i]);
        MaxShift(old(maxDepth), depth, HeightList(cs[..i]), Height(cs[i]));
        i := i + 1;
      }
      assert cs[..i] == cs;
    }
  }

  /** The counters have grown by the trees in `done`. */
  predicate CountedSoFar(now: map<NodeType, nat>, before: map<NodeType, nat>, done: seq<Node>)
  {
    Complete(now) && Complete(before) && forall t :: now[t] == before[t] + CountList(done, t)
  }

  /** Walking one more child `c` extends the counted prefix by `c`. */
  lemma CountedStep(now: map<NodeType, nat>, mid: map<NodeType, nat>, before: map<NodeType, nat>,
                    done: seq<Node>, c: Node)
    requires CountedSoFar(mid, before, done) && Complete(now)
    requires forall t :: now[t] == mid[t] + CountOf(c, t)
    ensures CountedSoFar(now, before, done + [c])
  {
    forall t
      ensures now[t] == before[t] + CountList(done + [c], t)
    {
      CountListSnoc(done, c, t);
    }
  }

  /** `calculateStats(root)`: walks the tree from depth 1, then sums the four counters. */
  method CalculateStats(root: Node) returns (stats: TreeStats)
    ensures Complete(stats.counts)
    ensures forall t :: stats.counts[t] == CountOf(root, t)
    ensures stats.total == Size(root)
    ensures stats.maxDepth == Height(root)
  {
    var w := new Walker();
    w.Walk(root, 1);
    var counts, maxDepth := w.counts, w.maxDepth;
    var total := 0;
    for i := 0 to |AllTypes|
      invariant total == SumOver(counts, AllTypes[..i])
    {
      assert AllTypes[..i + 1][..i] == AllTypes[..i];
      total := total + counts[AllTypes[i]];
    }
    assert AllTypes[..|AllTypes|] == AllTypes;
    SumOverAllTypes(counts);
    CountsSumToSize(root);
    stats := TreeStats(total, maxDepth, counts);
  }

  lemma SumOverAllTypes(counts: map<NodeType, nat>)
    requires Complete(counts)
    ensures SumOver(counts, AllTypes) == counts[Root] + counts[Object] + counts[List] + counts[Data]
  {
    var t1, t2, t3 := [Root], [Root, Object], [Root, Object, List];
    assert t1[..0] == [] && t2[..1] == t1 && t3[..2] == t2 && AllTypes[..3] == t3;
    assert SumOver(counts, t1) == counts[Root];
    assert SumOver(counts, t2) == counts[Root] + counts[Object];
    assert SumOver(counts, t3) == counts[Root] + counts[Object] + counts[List];
  }

  lemma MaxShift(m: int, d: int, a: int, b: int)
    ensures Max(Max(m, d + a - 1), d + b - 1) == Max(m, d + Max(a, b) - 1)
  {
  }

  lemma {:induction false} CountListSnoc(cs: seq<Node>, c: Node, t: NodeType)
    ensures CountList(cs + [c], t) == CountList(cs, t) + CountOf(c, t)
    decreases |cs|
  {
    if cs != [] {
      assert (cs + [c])[1..] == cs[1..] + [c];
      CountListSnoc(cs[1..], c, t);
    }
  }

  lemma {:induction false} HeightListSnoc(cs: seq<Node>, c: Node)
    ensures HeightList(cs + [c]) == Max(HeightList(cs), Height(c))
    decreases |cs|
  {
    if cs != [] {
      assert (cs + [c])[1..] == cs[1..] + [c];
      HeightListSnoc(cs[1..], c);
    }
  }

  /** The per-type counts add up to the number of nodes. */
  lemma {:induction false} CountsSumToSize(n: Node)
    ensures CountOf(n, Root) + CountOf(n, Object) + CountOf(n, List) + CountOf(n, Data) == Size(n)
    decreases n, 1
  {
    if n.HasChildren() {
      CountListsSumToSize(n.children);
    }
  }

  lemma {:induction false} CountListsSumToSize(cs: seq<Node>)
    ensures CountList(cs, Root) + CountList(cs, Object) + CountList(cs, List) + CountList(cs, Data) == SizeList(cs)
    decreases cs, 0
  {
    if cs != [] {
      CountsSumToSize(cs[0]);
      CountListsSumToSize(cs[1..]);
    }
  }

  /** The maximum depth is at least 1 (the root) and at most the number of nodes. */
  lemma {:induction false} HeightBounds(n: Node)
    ensures 1 <= Height(n) <= Size(n)
    decreases n, 1
  {
    if n.HasChildren() {
      HeightListBounds(n.children);
    }
  }

  lemma {:induction false} HeightListBounds(cs: seq<Node>)
    ensures HeightList(cs) <= SizeList(cs)
    ensures cs != [] ==> 1 <= HeightList(cs)
    decreases cs, 0
  {
    if cs != [] {
      HeightBounds(cs[0]);
      HeightListBounds(cs[1..]);
    }
  }

  /** Two trees with the same shape: the same type tags, arranged the same way. Ids, names
      and data values may differ. */
  predicate SameShape(a: Node, b: Node)
    decreases a
  {
    a.Type() == b.Type() && (a.HasChildren() ==> SameShapeList(a.children, b.children))
  }

  predicate SameShapeList(as_: seq<Node>, bs: seq<Node>)
    decreases as_
  {
    |as_| == |bs| && (as_ != [] ==> SameShape(as_[0], bs[0]) && SameShapeList(as_[1..], bs[1..]))
  }

  /** Names (empty, missing or duplicated), ids and values do not affect any statistic. */
  lemma {:induction false} StatsDependOnShapeOnly(a: Node, b: Node)
    requires SameShape(a, b)
    ensures forall t :: CountOf(a, t) == CountOf(b, t)
    ensures Size(a) == Size(b) && Height(a) == Height(b)
    decreases a, 1
  {
    if a.HasChildren() {
      ShapeListStats(a.children, b.children);
    }
  }

  lemma {:induction false} ShapeListStats(as_: seq<Node>, bs: seq<Node>)
    requires SameShapeList(as_, bs)
    ensures forall t :: CountList(as_, t) == CountList(bs, t)
    ensures SizeList(as_) == SizeList(bs) && HeightList(as_) == HeightList(bs)
    decreases as_, 0
  {
    if as_ != [] {
      StatsDependOnShapeOnly(as_[0], bs[0]);
      ShapeListStats(as_[1..], bs[1..]);
    }
  }
}
