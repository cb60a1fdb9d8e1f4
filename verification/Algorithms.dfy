/** Whole-forest algorithms: comparison, flattening, rebuilding, and the iterator adaptors. */
module Algorithms {
  import opened Basics
  import opened Walks
  import opened Edits
  import opened Nodes
  import opened TreeWalks
  import opened Flat
  import opened Container

  /** The visits of a forest, without the root's. */
  ghost function Inner<T>(f: Forest<T>): Word<Node<T>>
    reads f
  {
    if |f.walk| < 2 then [] else f.walk[1..|f.walk| - 1]
  }

  lemma InnerFacts<T>(f: Forest<T>)
    requires f.Valid()
    ensures |f.walk| == |Inner(f)| + 2 && WellNested(Inner(f))
    ensures f.walk == [f.Root()] + Inner(f) + [f.End()]
    ensures Next(f.Root()) == f.walk[1]
    ensures forall i: nat | i + 1 < |f.walk| :: Next(f.walk[i]) == f.walk[i + 1]
    ensures forall i: nat | i < |f.walk| :: f.walk[i] == f.End() <==> i == |f.walk| - 1
  {
    hide Threaded, Filled, Rooted, WellNested;
    f.BothEnds();
    InnerIsWellNested(f.walk);
    forall i: nat | i + 1 < |f.walk| ensures Next(f.walk[i]) == f.walk[i + 1] {
      StepsFollowRing(f.walk, i);
    }
    forall i: nat | i < |f.walk| ensures f.walk[i] == f.End() <==> i == |f.walk| - 1 {
      f.OnePlace(i, |f.walk| - 1);
    }
  }

  // ---------------------------------------------------------------------------
  // flatten

  /** Writes the encoding of a forest. */
  method Flatten<T>(f: Forest<T>) returns (out: seq<Option<T>>)
    requires f.Valid()
    ensures out == FlatOf(Inner(f))
  {
    hide Threaded, Filled, WellNested, Rooted;
    InnerFacts(f);
    out := [];
    var first := f.Begin();
    ghost var i := 1;
    while first != f.End()
      invariant 1 <= i < |f.walk| && first == f.walk[i]
      invariant out == FlatOf(f.walk[1..i])
      decreases |f.walk| - i
    {
      assert f.walk[1..i + 1] == f.walk[1..i] + [f.walk[i]];
      FlatConcat(f.walk[1..i], [f.walk[i]]);
      if first.edge.Leading? {
        out := out + [first.node.data];
      } else {
        out := out + [None];
      }
      first := Next(first);
      i := i + 1;
    }
  }

  // ---------------------------------------------------------------------------
  // operator== and equal_shape

  /** Compares sizes first, then the walks in step. */
  method Equal<T(==)>(x: Forest<T>, y: Forest<T>) returns (same: bool)
    requires x.Valid() && y.Valid()
    modifies x`cachedSize, y`cachedSize
    ensures x.Valid() && y.Valid() && x.walk == old(x.walk) && y.walk == old(y.walk)
    ensures same <==> FlatOf(Inner(x)) == FlatOf(Inner(y))
  {
    hide Threaded, Filled, WellNested, Rooted, FlatOf, NodesOf;
    var xSize := x.Size();
    StillValid(y);
    label Sized:
    var ySize := y.Size();
    StillValid@Sized(x);
    InnerFacts(x);
    InnerFacts(y);
    EvenLength(Inner(x));
    EvenLength(Inner(y));
    FlatLength(Inner(x));
    FlatLength(Inner(y));
    if xSize != ySize { return false; }
    same := SameWalk(x, y);
  }

  /** The loop of `Equal`, for forests of one size. */
  method SameWalk<T(==)>(x: Forest<T>, y: Forest<T>) returns (same: bool)
    requires x.Valid() && y.Valid() && |x.walk| == |y.walk|
    ensures x.Valid() && y.Valid()
    ensures same <==> FlatOf(Inner(x)) == FlatOf(Inner(y))
  {
    hide Threaded, Filled, WellNested, Rooted, FlatOf;
    InnerFacts(x);
    InnerFacts(y);
    var first, pos := x.Begin(), y.Begin();
    ghost var i := 1;
    while first != x.End()
      invariant x.Valid() && y.Valid()
      invariant 1 <= i < |x.walk| && first == x.walk[i] && pos == y.walk[i]
      invariant forall k | 0 <= k < i - 1 :: CodeAt(Inner(x)[k]) == CodeAt(Inner(y)[k])
      decreases |x.walk| - i
    {
      assert x.walk[i] == Inner(x)[i - 1] && y.walk[i] == Inner(y)[i - 1];
      if first.edge != pos.edge || (first.edge.Leading? && first.node.data != pos.node.data) {
        HaveValues(x, i);
        HaveValues(y, i);
        FlatDiffer(Inner(x), Inner(y), i - 1);
        return false;
      }
      first, pos := Next(first), Next(pos);
      i := i + 1;
    }
    FlatAgree(Inner(x), Inner(y));
    same := true;
  }

  twostate lemma StillValid<T>(x: Forest<T>)
    requires old(x.Valid()) && x.walk == old(x.walk) && x.Counted()
    requires forall v | v in x.walk :: v.node.next == old(v.node.next) && v.node.prior == old(v.node.prior)
    ensures x.Valid()
  {
    hide Threaded;
    ThreadedStays(x.walk);
  }

  /** What the encoding has for one visit. */
  function CodeAt<T>(v: Position<T>): Option<T> {
    if v.edge.Leading? then v.node.data else None
  }

  lemma HaveValues<T>(f: Forest<T>, i: nat)
    requires f.Valid() && 0 < i < |f.walk| - 1
    ensures f.walk[i].node.data.Some?
  {
    f.BothEnds();
    f.InnerVisit(i);
  }

  lemma FlatLength<T>(w: Word<Node<T>>)
    ensures |FlatOf(w)| == |w|
  {
  }

  lemma FlatDiffer<T>(a: Word<Node<T>>, b: Word<Node<T>>, i: nat)
    requires i < |a| && i < |b| && CodeAt(a[i]) != CodeAt(b[i])
    ensures FlatOf(a) != FlatOf(b)
  {
    assert FlatOf(a)[i] == CodeAt(a[i]) && FlatOf(b)[i] == CodeAt(b[i]);
  }

  lemma FlatAgree<T>(a: Word<Node<T>>, b: Word<Node<T>>)
    requires |a| == |b| && forall k | 0 <= k < |a| :: CodeAt(a[k]) == CodeAt(b[k])
    ensures FlatOf(a) == FlatOf(b)
  {
    forall k | 0 <= k < |a| ensures FlatOf(a)[k] == FlatOf(b)[k] {
      assert CodeAt(a[k]) == CodeAt(b[k]);
    }
  }

  lemma ShapeHasValues<T>(f: Forest<T>)
    requires f.Valid()
    ensures HasValues(f.Shape()) && WalkOf(f.Shape()) == Inner(f)
  {
    hide Threaded, Rooted;
    InnerFacts(f);
    var w := WalkOf(f.Shape());
    assert w == Inner(f);
    forall v | v in w ensures v.node.data.Some? {
      var k := IndexOf(w, v);
      assert f.walk[k + 1] == v;
      HaveValues(f, k + 1);
    }
    FilledHasValues(f.Shape());
  }

  /** What `Equal` answers is whether the two forests are the same trees of the same values. */
  lemma EqualFlatEqualTrees<T>(x: Forest<T>, y: Forest<T>)
    requires x.Valid() && y.Valid()
    ensures HasValues(x.Shape()) && HasValues(y.Shape())
    ensures FlatOf(Inner(x)) == FlatOf(Inner(y)) <==> Values(x.Shape()) == Values(y.Shape())
  {
    ShapeHasValues(x);
    ShapeHasValues(y);
    SameFlatSameForest(x.Shape(), y.Shape());
  }

  /** The shape of a walk: its edges, without its nodes. */
  function Edges<N>(w: Word<N>): seq<Edge> {
    seq(|w|, i requires 0 <= i < |w| => w[i].edge)
  }

  /** What `EqualShape` answers: whether two walks have one shape, or, when a size is not cached, only whether the
      first walk's shape begins the second's. */
  predicate Answer<M, N>(a: Word<M>, b: Word<N>, counted: bool) {
    if counted then Edges(a) == Edges(b) else Edges(a) <= Edges(b)
  }

  method EqualShape<T, U>(x: Forest<T>, y: Forest<U>) returns (same: bool)
    requires x.Valid() && y.Valid()
    ensures x.Valid() && y.Valid()
    ensures var counted := (x.cachedSize != 0 || |x.walk| == 2) && (y.cachedSize != 0 || |y.walk| == 2);
      && (same <==> Answer(Inner(x), Inner(y), counted))
      && (counted ==> (same <==> Edges(Inner(x)) == Edges(Inner(y))))
  {
    hide Threaded, Filled, WellNested, Rooted;
    ShapeFacts(x);
    ShapeFacts(y);
    if x.SizeValid() && y.SizeValid() && x.cachedSize != y.cachedSize { return false; }
    var pos := y.Begin();
    var first := x.Begin();
    ghost var i := 1;
    while first != x.End()
      invariant x.Valid() && y.Valid()
      invariant 1 <= i < |x.walk| && i < |y.walk| && first == x.walk[i] && pos == y.walk[i]
      invariant forall k | 0 <= k < i - 1 :: Inner(x)[k].edge == Inner(y)[k].edge
      decreases |x.walk| - i
    {
      if i == |y.walk| - 1 { OpensWherePrefixEnds(Inner(x), Inner(y)); }
      if first.edge != pos.edge {
        NotPrefix(Inner(x), Inner(y), i - 1);
        return false;
      }
      first, pos := Next(first), Next(pos);
      i := i + 1;
    }
    same := true;
  }

  lemma NotPrefix<M, N>(a: Word<M>, b: Word<N>, i: nat)
    requires i < |a| && (i < |b| ==> a[i].edge != b[i].edge)
    ensures !(Edges(a) <= Edges(b))
  {
    assert Edges(a)[i] == a[i].edge && (i < |b| ==> Edges(b)[i] == b[i].edge);
  }

  lemma ShapeFacts<T>(f: Forest<T>)
    requires f.Valid()
    ensures |f.walk| == |Inner(f)| + 2 && WellNested(Inner(f))
    ensures Next(f.Root()) == f.walk[1]
    ensures forall i: nat | i + 1 < |f.walk| :: Next(f.walk[i]) == f.walk[i + 1]
    ensures forall i: nat | i < |f.walk| :: f.walk[i] == f.End() <==> i == |f.walk| - 1
    ensures forall k: nat | k < |Inner(f)| :: Inner(f)[k] == f.walk[k + 1]
    ensures f.SizeValid() <==> f.cachedSize != 0 || |f.walk| == 2
    ensures f.SizeValid() ==> 2 * f.cachedSize == |Inner(f)|
  {
    hide Threaded, Filled, WellNested, Rooted;
    InnerFacts(f);
    EvenLength(Inner(f));
    f.SizeValidIff();
  }

  /** Words with the same edges leave stacks of the same height. */
  lemma {:induction false} SameEdgesSameHeight<M, N>(s: seq<M>, a: Word<M>, t: seq<N>, b: Word<N>)
    requires |s| == |t| && |a| == |b| && (forall k | 0 <= k < |a| :: a[k].edge == b[k].edge)
    requires Run(s, a).Some? && Run(t, b).Some?
    ensures |Run(s, a).value| == |Run(t, b).value|
    decreases |a|
  {
    if a != [] {
      assert a[0].edge == b[0].edge;
      if a[0].edge.Leading? {
        SameEdgesSameHeight(s + [a[0].node], a[1..], t + [b[0].node], b[1..]);
      } else {
        SameEdgesSameHeight(s[..|s| - 1], a[1..], t[..|t| - 1], b[1..]);
      }
    }
  }

  /** Where the walk of `b` ends, a longer walk that agreed with it so far opens a node. */
  lemma OpensWherePrefixEnds<M, N>(a: Word<M>, b: Word<N>)
    requires WellNested(a) && WellNested(b) && |b| < |a|
    requires forall k | 0 <= k < |b| :: a[k].edge == b[k].edge
    ensures a[|b|].edge.Leading?
  {
    RunFrom(a, |b|);
    SameEdgesSameHeight([], a[..|b|], [], b);
  }

  /** When the answer of `EqualShape` is right for every second forest of `m` nodes: exactly when both sizes are
      cached, or the first forest has no fewer nodes than that. */
  lemma EqualShapeRightExactly<M>(a: Word<M>, m: nat, counted: bool)
    requires WellNested(a)
    ensures counted || |a| >= 2 * m <==>
      forall b: Word<nat> | WellNested(b) && |b| == 2 * m :: Answer(a, b, counted) <==> Edges(a) == Edges(b)
  {
    hide WellNested, Edges;
    if counted || |a| >= 2 * m {
      forall b: Word<nat> | WellNested(b) && |b| == 2 * m ensures Answer(a, b, counted) <==> Edges(a) == Edges(b) {
        LongEnough(a, b, counted);
      }
    } else {
      var b := Longer(a, m);
    }
  }

  lemma LongEnough<M, N>(a: Word<M>, b: Word<N>, counted: bool)
    requires counted || |a| >= |b|
    ensures Answer(a, b, counted) <==> Edges(a) == Edges(b)
  {
    assert |Edges(a)| == |a| && |Edges(b)| == |b|;
  }

  /** A walk of `m` nodes that goes on where `a` ends, for which the uncounted answer is wrong. */
  lemma Longer<M>(a: Word<M>, m: nat) returns (b: Word<nat>)
    requires WellNested(a) && |a| < 2 * m
    ensures WellNested(b) && |b| == 2 * m && Edges(a) <= Edges(b) && Edges(a) != Edges(b)
  {
    hide WellNested;
    EvenLength(a);
    var z := Nameless(a);
    NamelessIsWellNested(a);
    var pairs := Pairs(m - |a| / 2);
    b := z + pairs;
    Joined(z, pairs);
    assert |Edges(b)| == |b| && |Edges(a)| == |a|;
    assert forall i | 0 <= i < |a| :: Edges(b)[i] == z[i].edge == Edges(a)[i];
    assert Edges(a) == Edges(b)[..|a|];
  }

  /** The same edges on one node only. */
  function Nameless<M>(a: Word<M>): (z: Word<nat>)
    ensures |z| == |a| && forall i | 0 <= i < |a| :: z[i] == Visit(0, a[i].edge)
  {
    seq(|a|, i requires 0 <= i < |a| => Visit(0, a[i].edge))
  }

  lemma NamelessIsWellNested<M>(a: Word<M>)
    requires WellNested(a)
    ensures WellNested(Nameless(a))
  {
    NamelessRun([], a, []);
  }

  lemma {:induction false} NamelessRun<M>(s: seq<M>, a: Word<M>, t: seq<nat>)
    requires Run(s, a).Some? && |s| == |t| && forall n | n in t :: n == 0
    ensures var r := Run(t, Nameless(a));
      r.Some? && |r.value| == |Run(s, a).value|
    decreases a
  {
    if a != [] {
      assert Nameless(a)[1..] == Nameless(a[1..]);
      if a[0].edge.Leading? {
        NamelessRun(s + [a[0].node], a[1..], t + [0]);
      } else {
        assert t[|t| - 1] in t;
        var u := t[..|t| - 1];
        forall n | n in u ensures n == 0 {
          var i: nat :| i < |u| && u[i] == n;
          assert t[i] in t;
        }
        NamelessRun(s[..|s| - 1], a[1..], u);
      }
    }
  }

  function {:induction false} Pairs(n: nat): (b: Word<nat>)
    ensures |b| == 2 * n && WellNested(b)
  {
    if n == 0 then [] else
      var pair := [Visit(0, Leading), Visit(0, Trailing)];
      PairIsWellNested(0);
      Joined(Pairs(n - 1), pair);
      Pairs(n - 1) + pair
  }

  lemma Joined<N>(a: Word<N>, b: Word<N>)
    requires WellNested(a) && WellNested(b)
    ensures WellNested(a + b)
  {
    RunConcat([], a, b);
  }

  /** Two forests for which it is wrong: an empty one, and one that a splice of unknown count has left with a node
      and without a cached size. */
  method EqualShapeGoesWrong<T>(v: T) returns (x: Forest<T>, y: Forest<T>, same: bool)
    ensures x.Valid() && y.Valid() && same && Edges(Inner(x)) != Edges(Inner(y))
    ensures |x.walk| == 2 && |y.walk| == 4 && !y.SizeValid()
  {
    hide Threaded, Filled, Rooted;
    x, y := NoneAndOne(v);
    y.EmptyIffNoNodes();
    same := EqualShape(x, y);
    assert Edges(Inner(x)) == [] && Edges(Inner(x)) <= Edges(Inner(y));
    assert |Edges(Inner(y))| == 2;
  }

  method NoneAndOne<T>(v: T) returns (x: Forest<T>, y: Forest<T>)
    ensures x.Valid() && y.Valid() && |x.walk| == 2 && |y.walk| == 4 && y.cachedSize == 0
  {
    hide Threaded, Filled, WellNested, NodesOf, IndexOf;
    var z, unused := OneNode(v);
    label One:
    y := Uncounted(z);
    label Two:
    x := new Forest();
    StillValid@Two(y);
  }

  /** Moves the only node of `z` to a new forest, without saying that it is one. */
  method Uncounted<T>(z: Forest<T>) returns (y: Forest<T>)
    requires z.Valid() && |z.walk| == 4
    modifies z, NodesOf(z.walk)
    ensures fresh(y) && y.Valid() && |y.walk| == 4 && y.cachedSize == 0
  {
    hide Threaded, Filled, WellNested, NodesOf, Moved, Cut, Between, Paste, Without;
    NodesAllocated(z.walk);
    y := new Forest();
    StillValid(z);
    z.WholeRange();
    y.BothEnds();
    z.BothEnds();
    z.OnePlace(1, 3);
    Pasted(y.walk, y.End(), z.walk[1..3]);
    y.Elsewhere(z, y.End(), z.Begin());
    var unused := y.Splice(y.End(), z, z.Begin(), z.End(), 0);
  }

  lemma Pasted<A>(w: seq<A>, at: A, s: seq<A>)
    ensures |Paste(w, at, s)| == |w| + |s|
  {
  }
}
