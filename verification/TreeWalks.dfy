/** Ordered forests as trees, and their walks. */
module TreeWalks {
  import opened Basics
  import opened Walks
  import opened Edits

  /** A forest: its first tree, given by a root and that root's children, and the trees after it. */
  datatype Trees<+N> = Bare | Grow(root: N, children: Trees<N>, rest: Trees<N>)

  /** The fullorder walk. */
  function WalkOf<N>(ts: Trees<N>): Word<N> {
    match ts
    case Bare => []
    case Grow(n, cs, rest) => [Visit(n, Leading)] + WalkOf(cs) + [Visit(n, Trailing)] + WalkOf(rest)
  }

  /** A node without children. */
  lemma LoneWalk<N>(n: N)
    ensures WalkOf(Grow(n, Bare, Bare)) == [Visit(n, Leading), Visit(n, Trailing)]
  {
  }

  lemma {:induction false} WalkIsWellNested<N>(ts: Trees<N>)
    ensures WellNested(WalkOf(ts))
  {
    if ts.Grow? {
      WalkIsWellNested(ts.children);
      WalkIsWellNested(ts.rest);
      WrapIsWellNested(ts.root, WalkOf(ts.children));
      var tree := [Visit(ts.root, Leading)] + WalkOf(ts.children) + [Visit(ts.root, Trailing)];
      SegmentIsNeutral([], tree, WalkOf(ts.rest), []);
      assert tree + WalkOf(ts.rest) + [] == tree + WalkOf(ts.rest) && tree + [] == tree;
    }
  }

  /** The forest whose walk a well-nested word is. */
  ghost function Parse<N>(w: Word<N>): (ts: Trees<N>)
    requires WellNested(w)
    ensures WalkOf(ts) == w
    decreases |w|
  {
    if w == [] then Bare else
      var k := FirstTree(w);
      assert w == [w[0]] + w[1..k] + [w[k]] + w[k + 1..];
      Grow(w[0].node, Parse(w[1..k]), Parse(w[k + 1..]))
  }

  /** Where the first tree of a walk is closed. */
  ghost function FirstTree<N>(w: Word<N>): (k: nat)
    requires WellNested(w) && w != []
    ensures 0 < k < |w| && w[0].edge.Leading? && w[k] == Visit(w[0].node, Trailing)
    ensures WellNested(w[1..k]) && WellNested(w[k + 1..])
  {
    FirstTreeExists(w);
    var k: nat :| 0 < k < |w| && SplitsAt(w, k);
    k
  }

  ghost predicate SplitsAt<N>(w: Word<N>, k: nat)
    requires 0 < k < |w|
  {
    && w[0].edge.Leading? && w[k] == Visit(w[0].node, Trailing)
    && WellNested(w[1..k]) && WellNested(w[k + 1..])
  }

  lemma FirstTreeExists<N>(w: Word<N>)
    requires WellNested(w) && w != []
    ensures exists k: nat | 0 < k < |w| :: SplitsAt(w, k)
  {
    WellNestedEnds(w);
    var k := Closing(w, 0);
    var s := w[1..k];
    WrapIsWellNested(w[0].node, s);
    var tree := [w[0]] + s + [w[k]];
    assert w == [] + tree + w[k + 1..] && [] + w[k + 1..] == w[k + 1..];
    SegmentIsNeutral([], [], tree, w[k + 1..]);
    assert SplitsAt(w, k);
  }

  lemma WalkUnrolled<N>(ts: Trees<N>, a: Word<N>)
    ensures ts.Bare? ==> WalkOf(ts) + a == a
    ensures ts.Grow? ==>
      WalkOf(ts) + a
      == [Visit(ts.root, Leading)] + (WalkOf(ts.children) + ([Visit(ts.root, Trailing)] + (WalkOf(ts.rest) + a)))
  {
  }

  /** A walk determines its forest, even when more follows that cannot belong to it. */
  lemma {:induction false} WalkIsInjective<N>(ts: Trees<N>, us: Trees<N>, a: Word<N>, b: Word<N>)
    requires WalkOf(ts) + a == WalkOf(us) + b
    requires a == [] || a[0].edge.Trailing?
    requires b == [] || b[0].edge.Trailing?
    ensures ts == us && a == b
    decreases ts
  {
    hide WalkOf;
    WalkUnrolled(ts, a);
    WalkUnrolled(us, b);
    if ts.Grow? && us.Grow? {
      var a' := [Visit(ts.root, Trailing)] + (WalkOf(ts.rest) + a);
      var b' := [Visit(us.root, Trailing)] + (WalkOf(us.rest) + b);
      SameTail(Visit(ts.root, Leading), WalkOf(ts.children) + a', Visit(us.root, Leading), WalkOf(us.children) + b');
      WalkIsInjective(ts.children, us.children, a', b');
      SameTail(Visit(ts.root, Trailing), WalkOf(ts.rest) + a, Visit(us.root, Trailing), WalkOf(us.rest) + b);
      WalkIsInjective(ts.rest, us.rest, a, b);
    }
  }

  lemma SameTail<A>(x: A, a: seq<A>, y: A, b: seq<A>)
    requires [x] + a == [y] + b
    ensures x == y && a == b
  {
    assert ([x] + a)[0] == x && ([y] + b)[0] == y;
    assert ([x] + a)[1..] == a && ([y] + b)[1..] == b;
  }

  ghost predicate IsWalkOf<N>(w: Word<N>, ts: Trees<N>) {
    WalkOf(ts) == w
  }

  /** A word is well nested exactly when it is the walk of a forest, and then of only one. */
  lemma OneForestPerWalk<N>(w: Word<N>)
    ensures WellNested(w) <==> exists ts: Trees<N> :: IsWalkOf(w, ts)
    ensures forall ts: Trees<N>, us: Trees<N> :: IsWalkOf(w, ts) && IsWalkOf(w, us) ==> ts == us
  {
    forall ts: Trees<N> | IsWalkOf(w, ts) ensures WellNested(w) { WalkIsWellNested(ts); }
    if WellNested(w) { assert IsWalkOf(w, Parse(w)); }
    forall ts: Trees<N>, us: Trees<N> | IsWalkOf(w, ts) && IsWalkOf(w, us) ensures ts == us {
      assert w + [] == w;
      WalkIsInjective(ts, us, [], []);
    }
  }

  /** The parts of the first tree of `ts`, where the walk of `ts` stands in `w`. */
  lemma TreeAt<N>(w: Word<N>, k: nat, ts: Trees<N>) returns (j: nat, m: nat)
    requires Rooted(w) && 0 < k && k + |WalkOf(ts)| < |w| && w[k..k + |WalkOf(ts)|] == WalkOf(ts) && ts.Grow?
    ensures m == k + |WalkOf(ts)| && k < j == k + 1 + |WalkOf(ts.children)| < m
    ensures w[k] == Visit(ts.root, Leading) && w[j] == Visit(ts.root, Trailing) && IndexOf(w, w[j]) == j
    ensures w[k + 1..j] == WalkOf(ts.children) && w[j + 1..m] == WalkOf(ts.rest)
    ensures j + 1 + |WalkOf(ts.rest)| == m
  {
    hide Rooted, WalkOf;
    var s := WalkOf(ts);
    m := k + |s|;
    WalkUnrolled(ts, []);
    j := k + 1 + |WalkOf(ts.children)|;
    SplitAt(w[k..m], Visit(ts.root, Leading), WalkOf(ts.children), Visit(ts.root, Trailing), WalkOf(ts.rest));
    SubSlices(w, k, j, m);
    FoundIn(w, j);
  }

  lemma FoundIn<N>(w: Word<N>, j: nat)
    requires Rooted(w) && j < |w|
    ensures IndexOf(w, w[j]) == j
  {
    IndexIsUnique(w, j);
  }

  lemma SplitAt<A>(s: seq<A>, l: A, a: seq<A>, t: A, b: seq<A>)
    requires s + [] == [l] + (a + ([t] + (b + [])))
    ensures var j := 1 + |a|;
      |s| == j + 1 + |b| && s[0] == l && s[j] == t && s[1..j] == a && s[j + 1..] == b
  {
    var r := [l] + (a + ([t] + (b + [])));
    assert s == s + [] == r;
    assert r[1..1 + |a|] == a && r[1 + |a|] == t && r[1 + |a| + 1..] == b;
  }

  lemma SubSlices<A>(w: seq<A>, k: nat, j: nat, m: nat)
    requires k < j < m <= |w|
    ensures var s := w[k..m];
      s[0] == w[k] && s[j - k] == w[j] && s[1..j - k] == w[k + 1..j] && s[j - k + 1..] == w[j + 1..m]
  {
    SliceOfSlice(w, k, m, 1, j - k);
    SliceOfSlice(w, k, m, j - k + 1, m - k);
    assert k + (j - k) == j && k + (j - k + 1) == j + 1 && k + (m - k) == m;
    assert w[k..m][j - k + 1..] == w[k..m][j - k + 1..m - k];
  }

  lemma SliceOfSlice<A>(w: seq<A>, k: nat, m: nat, a: nat, b: nat)
    requires k <= m <= |w| && a <= b <= m - k
    ensures w[k..m][a..b] == w[k + a..k + b]
  {
    var s, t := w[k..m], w[k + a..k + b];
    assert |s[a..b]| == |t|;
    forall i | 0 <= i < |t| ensures s[a..b][i] == t[i] {
      assert s[a + i] == w[k + (a + i)];
    }
  }

  // ---------------------------------------------------------------------------
  // One edge only: preorder and postorder

  function OnEdge<N>(w: Word<N>, e: Edge): Word<N> {
    if w == [] then [] else (if w[0].edge == e then [w[0]] else []) + OnEdge(w[1..], e)
  }

  lemma {:induction false} OnEdgeConcat<N>(a: Word<N>, b: Word<N>, e: Edge)
    ensures OnEdge(a + b, e) == OnEdge(a, e) + OnEdge(b, e)
  {
    if a == [] {
      assert a + b == b;
    } else {
      assert (a + b)[0] == a[0] && (a + b)[1..] == a[1..] + b;
      OnEdgeConcat(a[1..], b, e);
    }
  }

  lemma {:induction false} OnEdgeSize<N>(stack: seq<N>, w: Word<N>)
    requires Run(stack, w).Some?
    ensures |OnEdge(w, Leading)| + |OnEdge(w, Trailing)| == |w|
    ensures |OnEdge(w, Leading)| - |OnEdge(w, Trailing)| == |Run(stack, w).value| - |stack|
    decreases w
  {
    if w != [] {
      OnEdgeSize(if w[0].edge.Leading? then stack + [w[0].node] else stack[..|stack| - 1], w[1..]);
    }
  }

  /** The first index from `i` on with edge `e`; past the end the circular walk goes on at the root. */
  function FindFrom<N>(w: Word<N>, i: nat, e: Edge): (j: nat)
    requires i <= |w| && w != []
    ensures j < |w|
    decreases |w| - i
  {
    if i == |w| then 0 else if w[i].edge == e then i else FindFrom(w, i + 1, e)
  }

  lemma {:induction false} NothingBeforeFound<N>(w: Word<N>, i: nat, e: Edge)
    requires 0 < i <= |w|
    ensures var j := FindFrom(w, i, e);
      if j < i || i == |w| then j == 0 && OnEdge(w[i..], e) == []
      else w[j].edge == e && OnEdge(w[i..j], e) == []
    decreases |w| - i
  {
    if i < |w| && w[i].edge != e {
      NothingBeforeFound(w, i + 1, e);
      var j := FindFrom(w, i, e);
      assert w[i..][1..] == w[i + 1..];
      if i < j { assert w[i..j][1..] == w[i + 1..j]; }
    }
  }

  /** How many visits with edge `e` there are from index `i` on; index 0 means that the walk has come round. */
  function Left<N>(w: Word<N>, i: nat, e: Edge): nat
    requires i <= |w|
  {
    if i == 0 then 0 else |OnEdge(w[i..], e)|
  }

  lemma FoundStep<N>(w: Word<N>, i: nat, e: Edge)
    requires 0 < i <= |w|
    ensures var j := FindFrom(w, i, e);
      && (j == 0 || (i <= j && w[j].edge == e))
      && Left(w, j, e) == Left(w, i, e)
      && (j != 0 ==> Left(w, j + 1, e) == Left(w, j, e) - 1)
  {
    var j := FindFrom(w, i, e);
    NothingBeforeFound(w, i, e);
    if j != 0 {
      assert w[i..] == w[i..j] + w[j..];
      OnEdgeConcat(w[i..j], w[j..], e);
      assert w[j..][1..] == w[j + 1..];
    }
  }

  lemma NextFound<N>(w: Word<N>, i: nat, e: Edge)
    requires 0 < i < |w| && w[i].edge == e
    ensures var j := FindFrom(w, i + 1, e);
      && (j == 0 || (i < j && w[j].edge == e))
      && Left(w, j, e) == Left(w, i, e) - 1
  {
    FoundStep(w, i, e);
    FoundStep(w, i + 1, e);
  }

  lemma LeftAtStart<N>(w: Word<N>)
    requires Rooted(w)
    ensures Left(w, 1, Leading) == (|w| - 2) / 2
  {
    OnEdgeSize([], w);
    assert w == [w[0]] + w[1..];
    OnEdgeConcat([w[0]], w[1..], Leading);
  }

  function Preorder<N>(ts: Trees<N>): seq<N> {
    if ts.Bare? then [] else [ts.root] + Preorder(ts.children) + Preorder(ts.rest)
  }

  function Postorder<N>(ts: Trees<N>): seq<N> {
    if ts.Bare? then [] else Postorder(ts.children) + [ts.root] + Postorder(ts.rest)
  }

  function Named<N>(w: Word<N>): seq<N> {
    seq(|w|, i requires 0 <= i < |w| => w[i].node)
  }

  lemma NamedConcat<N>(a: Word<N>, b: Word<N>)
    ensures Named(a + b) == Named(a) + Named(b)
  {
  }

  lemma {:induction false} EdgesAreOrders<N>(ts: Trees<N>)
    ensures Named(OnEdge(WalkOf(ts), Leading)) == Preorder(ts)
    ensures Named(OnEdge(WalkOf(ts), Trailing)) == Postorder(ts)
  {
    if ts.Grow? {
      EdgesAreOrders(ts.children);
      EdgesAreOrders(ts.rest);
      OneTreeOnEdge(ts, Leading);
      OneTreeOnEdge(ts, Trailing);
    }
  }

  lemma OneTreeOnEdge<N>(ts: Trees<N>, e: Edge)
    requires ts.Grow?
    ensures Named(OnEdge(WalkOf(ts), e)) ==
      (if e.Leading? then [ts.root] else []) + Named(OnEdge(WalkOf(ts.children), e))
      + (if e.Trailing? then [ts.root] else []) + Named(OnEdge(WalkOf(ts.rest), e))
  {
    var l, t := [Visit(ts.root, Leading)], [Visit(ts.root, Trailing)];
    var cs, rest := WalkOf(ts.children), WalkOf(ts.rest);
    SplitOnEdge(l, cs, t, rest, e);
    assert l[1..] == [] && t[1..] == [];
    assert Named(OnEdge(l, e)) == if e.Leading? then [ts.root] else [];
    assert Named(OnEdge(t, e)) == if e.Trailing? then [ts.root] else [];
  }

  lemma SplitOnEdge<N>(a: Word<N>, b: Word<N>, c: Word<N>, d: Word<N>, e: Edge)
    ensures Named(OnEdge(a + b + c + d, e)) ==
      Named(OnEdge(a, e)) + Named(OnEdge(b, e)) + Named(OnEdge(c, e)) + Named(OnEdge(d, e))
  {
    hide OnEdge, Named;
    OnEdgeConcat(a + b + c, d, e);
    OnEdgeConcat(a + b, c, e);
    OnEdgeConcat(a, b, e);
    NamedConcat(OnEdge(a, e) + OnEdge(b, e) + OnEdge(c, e), OnEdge(d, e));
    NamedConcat(OnEdge(a, e) + OnEdge(b, e), OnEdge(c, e));
    NamedConcat(OnEdge(a, e), OnEdge(b, e));
  }
}
