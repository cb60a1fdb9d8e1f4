/** Iterator adaptors that visit one edge only, and that visit the children of a node. */
module Adaptors {
  import opened Basics
  import opened Walks
  import opened Edits
  import opened Nodes
  import opened TreeWalks
  import opened Container
  import opened Algorithms

  // ---------------------------------------------------------------------------
  // Edge iterators

  /** The first index from `i` back with edge `e`; before the beginning the circular walk goes on at the end. */
  function FindBack<N>(w: Word<N>, i: nat, e: Edge): (j: nat)
    requires i < |w|
    ensures j < |w|
    decreases i
  {
    if w[i].edge == e then i else if i == 0 then |w| - 1 else FindBack(w, i - 1, e)
  }

  /** Stepping forward to the next visit with edge `e` and then back finds what stepping back at once would. */
  lemma {:induction false} FindBackUndoesFindFrom<N>(w: Word<N>, i: nat, e: Edge)
    requires 0 < i <= |w|
    ensures FindBack(w, Pred(FindFrom(w, i, e), |w|), e) == FindBack(w, i - 1, e)
    decreases |w| - i
  {
    if i < |w| && w[i].edge != e { FindBackUndoesFindFrom(w, i + 1, e); }
  }

  /** `find_edge_reverse` */
  method FindEdgeReverse<T>(x: Position<T>, edge: Edge, ghost f: Forest<T>, ghost i: nat) returns (y: Position<T>)
    requires f.Valid() && i < |f.walk| && x == f.walk[i]
    ensures f.Valid() && y == f.walk[FindBack(f.walk, i, edge)]
  {
    hide Threaded, Filled;
    f.BothEnds();
    y := x;
    ghost var k: nat := i;
    while y.edge != edge
      invariant f.Valid() && k < |f.walk| && y == f.walk[k]
      invariant FindBack(f.walk, k, edge) == FindBack(f.walk, i, edge)
      decreases if y.edge == edge then 0 else k + 1
    {
      StepsFollowRing(f.walk, k);
      y, k := Prev(y), if k == 0 then |f.walk| - 1 else k - 1;
    }
  }

  class EdgeIterator<T> {
    var x: Position<T>
    const edge: Edge

    constructor (x: Position<T>, edge: Edge, ghost f: Forest<T>, ghost i: nat)
      requires f.Valid() && 0 < i < |f.walk| && x == f.walk[i]
      ensures At(f, FindFrom(f.walk, i, edge)) && this.edge == edge
    {
      hide Threaded, Filled, NodesOf;
      ghost var j;
      var start;
      start, j := FindEdge(x, edge, f, i);
      this.x, this.edge := start, edge;
      new;
      ThreadedStays(f.walk);
    }

    ghost predicate At(f: Forest<T>, k: nat)
      reads this, f, NodesOf(f.walk)
    {
      f.Valid() && k < |f.walk| && x == f.walk[k]
    }

    method Increment(ghost f: Forest<T>, ghost k: nat)
      requires At(f, k) && (k == |f.walk| - 1 ==> edge.Leading?)
      modifies this
      ensures At(f, FindFrom(f.walk, k + 1, edge))
    {
      hide Threaded, Filled, NodesOf;
      f.BothEnds();
      StepsFollowRing(f.walk, k);
      ghost var j;
      x, j := FindEdge(Next(x), edge, f, k + 1);
      ThreadedStays(f.walk);
    }

    method Decrement(ghost f: Forest<T>, ghost k: nat)
      requires At(f, k)
      modifies this
      ensures At(f, FindBack(f.walk, Pred(k, |f.walk|), edge))
    {
      hide Threaded, Filled, NodesOf;
      StepsFollowRing(f.walk, k);
      x := FindEdgeReverse(Prev(x), edge, f, Pred(k, |f.walk|));
      ThreadedStays(f.walk);
    }
  }

  /** `--` undoes `++` at every visit with the edge. */
  lemma EdgeDecrementUndoesIncrement<N>(w: Word<N>, k: nat, e: Edge)
    requires k < |w| && w[k].edge == e
    ensures FindBack(w, Pred(FindFrom(w, k + 1, e), |w|), e) == k
  {
    FindBackUndoesFindFrom(w, k + 1, e);
  }

  /** The positions that `edge_iterator` visits from the beginning to the end of a forest. */
  method EdgeRange<T>(f: Forest<T>, edge: Edge) returns (visited: seq<Position<T>>)
    requires f.Valid()
    ensures f.Valid() && visited == OnEdge(Inner(f), edge)
  {
    hide Threaded, Filled, Rooted, OnEdge, FindFrom, Rest, Inner, NodesOf;
    EdgeRangeStarts(f, edge);
    var first := new EdgeIterator(f.Begin(), edge, f, 1);
    var last := new EdgeIterator(f.End(), edge, f, |f.walk| - 1);
    ghost var i, end := FindFrom(f.walk, 1, edge), FindFrom(f.walk, |f.walk| - 1, edge);
    visited := [];
    while first.x != last.x
      invariant first.At(f, i) && last.x == f.walk[end] && first.edge == edge && fresh(first)
      invariant i == end || (0 < i < |f.walk| - 1 && f.walk[i].edge == edge)
      invariant visited + Rest(f.walk, i, end, edge) == OnEdge(Inner(f), edge)
      decreases if i == end then 0 else |f.walk| - i
    {
      EdgeRangeStep(f, i, edge);
      visited := visited + [first.x];
      first.Increment(f, i);
      i := FindFrom(f.walk, i + 1, edge);
    }
    f.OnePlace(i, end);
    RestOfNothing(f.walk, end, edge);
  }

  /** What is still to be visited from index `i`, when the range ends at index `end`. */
  ghost function Rest<N>(w: Word<N>, i: nat, end: nat, e: Edge): Word<N>
    requires |w| >= 2 && i < |w|
  {
    if i == end || i == 0 then [] else OnEdge(w[i..|w| - 1], e)
  }

  lemma RestOfNothing<N>(w: Word<N>, end: nat, e: Edge)
    requires |w| >= 2 && end < |w|
    ensures Rest(w, end, end, e) == []
  {
  }

  /** From index `k` on, before the end, the next visit with the wanted edge comes first. */
  lemma RestFrom<N>(w: Word<N>, k: nat, e: Edge)
    requires Rooted(w) && 0 < k < |w|
    ensures var end := if e.Leading? then 0 else |w| - 1;
      var j := FindFrom(w, k, e);
      && (j == end || (k <= j < |w| - 1 && w[j].edge == e))
      && OnEdge(w[k..|w| - 1], e) == Rest(w, j, end, e)
  {
    var n := |w| - 1;
    var j := FindFrom(w, k, e);
    NothingBeforeFound(w, k, e);
    if e.Leading? {
      assert w[k..] == w[k..n] + [w[n]];
      OnEdgeConcat(w[k..n], [w[n]], e);
      if j != 0 {
        assert w[k..n] == w[k..j] + w[j..n];
        OnEdgeConcat(w[k..j], w[j..n], e);
      }
    } else {
      FoundByEnd(w, k);
      assert w[k..n] == w[k..j] + w[j..n];
      OnEdgeConcat(w[k..j], w[j..n], e);
    }
  }

  lemma FoundByEnd<N>(w: Word<N>, k: nat)
    requires Rooted(w) && 0 < k < |w|
    ensures k <= FindFrom(w, k, Trailing)
    decreases |w| - k
  {
    if w[k].edge.Leading? { FoundByEnd(w, k + 1); }
  }

  lemma EdgeRangeStarts<T>(f: Forest<T>, e: Edge)
    requires f.Valid()
    ensures |f.walk| >= 2 && f.Begin() == f.walk[1] && f.End() == f.walk[|f.walk| - 1]
    ensures var end := FindFrom(f.walk, |f.walk| - 1, e);
      var i := FindFrom(f.walk, 1, e);
      && end == (if e.Leading? then 0 else |f.walk| - 1)
      && (i == end || (0 < i < |f.walk| - 1 && f.walk[i].edge == e))
      && OnEdge(Inner(f), e) == Rest(f.walk, i, end, e)
  {
    hide Threaded, Filled, OnEdge;
    f.BothEnds();
    StepsFollowRing(f.walk, 0);
    RestFrom(f.walk, 1, e);
  }

  lemma EdgeRangeStep<T>(f: Forest<T>, i: nat, e: Edge)
    requires f.Valid() && 0 < i < |f.walk| - 1 && f.walk[i].edge == e
    ensures var end := if e.Leading? then 0 else |f.walk| - 1;
      var j := FindFrom(f.walk, i + 1, e);
      && Next(f.walk[i]) == f.walk[i + 1]
      && (j == end || (i < j < |f.walk| - 1 && f.walk[j].edge == e))
      && i != end && Rest(f.walk, i, end, e) == [f.walk[i]] + Rest(f.walk, j, end, e)
  {
    hide Threaded, Filled, FindFrom;
    f.BothEnds();
    StepsFollowRing(f.walk, i);
    RestFrom(f.walk, i + 1, e);
    assert f.walk[i..|f.walk| - 1][1..] == f.walk[i + 1..|f.walk| - 1];
  }

  /** The leading positions come in preorder, the trailing ones in postorder. */
  lemma EdgeRangeIsOrder<T>(f: Forest<T>)
    requires f.Valid()
    ensures Named(OnEdge(Inner(f), Leading)) == Preorder(f.Shape())
    ensures Named(OnEdge(Inner(f), Trailing)) == Postorder(f.Shape())
  {
    hide Threaded, Filled, Rooted, Named;
    InnerFacts(f);
    assert WalkOf(f.Shape()) == Inner(f);
    EdgesAreOrders(f.Shape());
  }

  // ---------------------------------------------------------------------------
  // The children of a node

  /** The leading visits of the roots. */
  function Tops<N>(ts: Trees<N>): Word<N> {
    if ts.Bare? then [] else [Visit(ts.root, Leading)] + Tops(ts.rest)
  }

  /** Somewhere in `ts` is the node `n` with the children `cs`. */
  ghost predicate Holds<N>(ts: Trees<N>, n: N, cs: Trees<N>) {
    ts.Grow? && ((ts.root == n && ts.children == cs) || Holds(ts.children, n, cs) || Holds(ts.rest, n, cs))
  }

  /** `cs` are the children of the node `n` of the forest, the top trees if `n` is the root. */
  ghost predicate ChildrenAre<T>(f: Forest<T>, n: Node<T>, cs: Trees<Node<T>>)
    requires f.Valid()
    reads f, NodesOf(f.walk)
  {
    if n == f.tail then cs == f.Shape() else Holds(f.Shape(), n, cs)
  }

  /** The child iterators of the node at `x`, from its first child to its own trailing edge. */
  method ChildVisits<T>(f: Forest<T>, x: Position<T>, ghost cs: Trees<Node<T>>) returns (visited: seq<Position<T>>)
    requires f.Valid() && x in f.walk && ChildrenAre(f, x.node, cs)
    ensures f.Valid() && visited == Tops(cs)
  {
    hide Threaded, Filled, Rooted, ChildrenAre, Tops, WalkOf, IndexOf;
    ghost var i, j := ChildStretch(f, x, cs);
    StepsFollowRing(f.walk, i);
    visited := [];
    var first := Next(LeadingOf(x));
    var last := TrailingOf(x);
    ghost var k, ts := i + 1, cs;
    NoChild(f.walk, k, j, ts);
    while first != last
      invariant f.Valid() && 0 < k <= j < |f.walk| && first == f.walk[k] && last == f.walk[j]
      invariant f.walk[k..j] == WalkOf(ts) && k + |WalkOf(ts)| == j
      invariant visited + Tops(ts) == Tops(cs)
      decreases j - k
    {
      f.BothEnds();
      f.OnePlace(k, j);
      NextChild(f.walk, k, j, ts);
      var c, m := TreeAt(f.walk, k, ts);
      StepsFollowRing(f.walk, c);
      visited := visited + [first];
      first := Next(Visit(first.node, Pivot(first.edge)));
      k, ts := c + 1, ts.rest;
    }
    f.OnePlace(k, j);
    NoChild(f.walk, k, j, ts);
  }

  lemma NextChild<N>(w: Word<N>, k: nat, j: nat, ts: Trees<N>)
    requires k < j < |w| && w[k..j] == WalkOf(ts)
    ensures ts.Grow? && Tops(ts) == [w[k]] + Tops(ts.rest) && w[k].edge.Leading?
  {
    assert w[k] == w[k..j][0];
  }

  lemma NoChild<N>(w: Word<N>, k: nat, j: nat, ts: Trees<N>)
    requires k <= j < |w| && w[k..j] == WalkOf(ts)
    ensures k == j ==> Tops(ts) == []
    ensures k + |WalkOf(ts)| == j
  {
  }

  lemma ChildStretch<T>(f: Forest<T>, x: Position<T>, cs: Trees<Node<T>>) returns (i: nat, j: nat)
    requires f.Valid() && x in f.walk && ChildrenAre(f, x.node, cs)
    ensures i < j < |f.walk| && f.walk[i] == LeadingOf(x) && f.walk[j] == TrailingOf(x)
    ensures f.walk[i + 1..j] == WalkOf(cs)
  {
    hide Threaded, Filled, Rooted, WalkOf, Holds;
    f.BothEnds();
    if x.node == f.tail {
      i, j := 0, |f.walk| - 1;
    } else {
      assert f.walk[1..1 + |WalkOf(f.Shape())|] == WalkOf(f.Shape());
      i, j := HeldAt(f.walk, 1, f.Shape(), x.node, cs);
    }
  }

  /** Where a node of `ts` and its children stand in the walk. */
  lemma {:induction false} HeldAt<N>(w: Word<N>, k: nat, ts: Trees<N>, n: N, cs: Trees<N>) returns (i: nat, j: nat)
    requires Rooted(w) && 0 < k && k + |WalkOf(ts)| < |w| && w[k..k + |WalkOf(ts)|] == WalkOf(ts)
    requires Holds(ts, n, cs)
    ensures i < j < |w| && w[i] == Visit(n, Leading) && w[j] == Visit(n, Trailing)
    ensures w[i + 1..j] == WalkOf(cs)
    decreases ts
  {
    hide Rooted, WalkOf;
    var c, m := TreeAt(w, k, ts);
    if Holds(ts.children, n, cs) {
      i, j := HeldAt(w, k + 1, ts.children, n, cs);
    } else if Holds(ts.rest, n, cs) {
      i, j := HeldAt(w, c + 1, ts.rest, n, cs);
    } else {
      i, j := k, c;
    }
  }
}
