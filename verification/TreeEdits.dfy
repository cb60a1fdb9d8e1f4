/** What the container's operations on its walk mean for the trees that the walk encodes. */
module TreeEdits {
  import opened Basics
  import opened Walks
  import opened Edits
  import opened Laws
  import opened Nodes
  import opened TreeWalks
  import opened Container

  function Append<N>(ts: Trees<N>, us: Trees<N>): Trees<N> {
    match ts
    case Bare => us
    case Grow(n, cs, rest) => Grow(n, cs, Append(rest, us))
  }

  lemma {:induction false} AppendWalk<N>(ts: Trees<N>, us: Trees<N>)
    ensures WalkOf(Append(ts, us)) == WalkOf(ts) + WalkOf(us)
  {
    if ts.Grow? {
      AppendWalk(ts.rest, us);
      WalkUnrolled(ts, WalkOf(us));
    }
  }

  /** Puts the trees `us` before the position `p`: before the tree of its node, or after the last child. */
  function Place<N(==)>(ts: Trees<N>, p: Visit<N>, us: Trees<N>): Trees<N> {
    match ts
    case Bare => Bare
    case Grow(n, cs, rest) =>
      if p == Visit(n, Leading) then Append(us, ts)
      else if p == Visit(n, Trailing) then Grow(n, Append(cs, us), rest)
      else if p in WalkOf(cs) then Grow(n, Place(cs, p, us), rest)
      else Grow(n, cs, Place(rest, p, us))
  }

  lemma PasteRight<A>(x: seq<A>, w: seq<A>, p: A, s: seq<A>)
    requires p !in x && p in w
    ensures Paste(x + w, p, s) == x + Paste(w, p, s)
  {
    IndexRight(x, w, p);
    PutRight(x, w, IndexOf(w, p), s);
  }

  lemma PutRight<A>(x: seq<A>, w: seq<A>, k: nat, s: seq<A>)
    requires k <= |w|
    ensures PutAt(x + w, |x| + k, s) == x + PutAt(w, k, s)
  {
    assert (x + w)[..|x| + k] == x + w[..k];
    assert (x + w)[|x| + k..] == w[k..];
  }

  lemma {:induction false} IndexRight<A>(x: seq<A>, w: seq<A>, p: A)
    requires p !in x && p in w
    ensures IndexOf(x + w, p) == |x| + IndexOf(w, p)
  {
    if x == [] {
      assert x + w == w;
    } else {
      assert (x + w)[1..] == x[1..] + w;
      IndexRight(x[1..], w, p);
    }
  }

  lemma {:induction false} IndexLeft<A>(w: seq<A>, y: seq<A>, p: A)
    requires p in w
    ensures IndexOf(w + y, p) == IndexOf(w, p)
  {
    if w[0] != p {
      assert (w + y)[1..] == w[1..] + y;
      IndexLeft(w[1..], y, p);
    }
  }

  lemma PasteLeft<A>(w: seq<A>, y: seq<A>, p: A, s: seq<A>)
    requires p in w
    ensures Paste(w + y, p, s) == Paste(w, p, s) + y
  {
    IndexLeft(w, y, p);
    var k := IndexOf(w, p);
    assert (w + y)[..k] == w[..k] && (w + y)[k..] == w[k..] + y;
  }

  lemma PasteFirst<A>(p: A, w: seq<A>, s: seq<A>)
    ensures Paste([p] + w, p, s) == s + ([p] + w)
  {
    assert ([p] + w)[0..] == [p] + w;
  }

  /** Pasting a walk is placing its trees. */
  lemma {:induction false} PlaceIsPaste<N>(ts: Trees<N>, p: Visit<N>, us: Trees<N>)
    requires Distinct(WalkOf(ts)) && p in WalkOf(ts)
    ensures WalkOf(Place(ts, p, us)) == Paste(WalkOf(ts), p, WalkOf(us))
    decreases ts
  {
    hide Paste, Distinct, WalkOf;
    WalkUnrolled(ts, []);
    NoTrees(ts);
    var l, t, c, r, u :=
      Visit(ts.root, Leading), Visit(ts.root, Trailing), WalkOf(ts.children), WalkOf(ts.rest), WalkOf(us);
    assert WalkOf(ts) + [] == WalkOf(ts) && r + [] == r;
    assert WalkOf(ts) == [l] + c + ([t] + r);
    Apart([l], c, [t] + r);
    assert [t] + r == [] + [t] + r;
    Apart([], [t], r);
    if p == l {
      PasteFirst(l, c + ([t] + r), u);
      AppendWalk(us, ts);
    } else if p == t {
      assert t in [t] + r;
      TreeWith(ts, Append(ts.children, us), ts.rest);
      AppendWalk(ts.children, us);
      PasteRight([l] + c, [t] + r, t, u);
      PasteFirst(t, r, u);
    } else if p in c {
      TreeWith(ts, Place(ts.children, p, us), ts.rest);
      PlaceIsPaste(ts.children, p, us);
      PasteLeft([l] + c, [t] + r, p, u);
      PasteRight([l], c, p, u);
    } else {
      TreeWith(ts, ts.children, Place(ts.rest, p, us));
      PlaceIsPaste(ts.rest, p, us);
      assert WalkOf(ts) == [l] + c + [t] + r;
      PasteRight([l] + c + [t], r, p, u);
    }
  }

  lemma NoTrees<N>(ts: Trees<N>)
    ensures WalkOf(ts) != [] ==> ts.Grow?
  {
  }

  lemma TreeWith<N>(ts: Trees<N>, cs: Trees<N>, rest: Trees<N>)
    requires ts.Grow?
    ensures WalkOf(Grow(ts.root, cs, rest)) ==
      [Visit(ts.root, Leading)] + WalkOf(cs) + [Visit(ts.root, Trailing)] + WalkOf(rest)
  {
  }

  /** Takes the nodes in `gone` out; their children take their place. */
  function Dissolve<N(==)>(ts: Trees<N>, gone: set<N>): Trees<N> {
    match ts
    case Bare => Bare
    case Grow(n, cs, rest) =>
      if n in gone then Append(Dissolve(cs, gone), Dissolve(rest, gone))
      else Grow(n, Dissolve(cs, gone), Dissolve(rest, gone))
  }

  /** Dropping the visits of nodes is dissolving the nodes. */
  lemma {:induction false} DissolveIsWithout<N>(ts: Trees<N>, gone: set<N>)
    ensures WalkOf(Dissolve(ts, gone)) == Without(WalkOf(ts), gone)
  {
    if ts.Grow? {
      DissolveIsWithout(ts.children, gone);
      DissolveIsWithout(ts.rest, gone);
      AppendWalk(Dissolve(ts.children, gone), Dissolve(ts.rest, gone));
      WithoutTree(ts, gone);
    }
  }

  lemma WithoutTree<N>(ts: Trees<N>, gone: set<N>)
    requires ts.Grow?
    ensures var l, t := [Visit(ts.root, Leading)], [Visit(ts.root, Trailing)];
      var c, r := Without(WalkOf(ts.children), gone), Without(WalkOf(ts.rest), gone);
      Without(WalkOf(ts), gone) == if ts.root in gone then c + r else l + c + t + r
  {
    hide Without;
    var l, t, c, r := [Visit(ts.root, Leading)], [Visit(ts.root, Trailing)], WalkOf(ts.children), WalkOf(ts.rest);
    assert WalkOf(ts) == l + c + t + r;
    WithoutConcat(l + c + t, r, gone);
    WithoutConcat(l + c, t, gone);
    WithoutConcat(l, c, gone);
    WithoutSingle(l[0], gone);
    WithoutSingle(t[0], gone);
  }

  lemma WithoutSingle<N>(v: Visit<N>, gone: set<N>)
    ensures Without([v], gone) == if v.node in gone then [] else [v]
  {
    assert [v][1..] == [];
  }

  // ---------------------------------------------------------------------------
  // Of a container

  /** The forest as one tree under its root. */
  ghost function Whole<T>(f: Forest<T>): (ts: Trees<Node<T>>)
    requires f.Valid()
    reads f, NodesOf(f.walk)
    ensures WalkOf(ts) == f.walk
  {
    hide Threaded, Filled, Rooted;
    Grow(f.tail, f.Shape(), Bare)
  }

  lemma WalkIsWhole<T>(f: Forest<T>, ts: Trees<Node<T>>)
    requires f.Valid() && WalkOf(ts) == f.walk
    ensures ts == Whole(f)
  {
    hide Threaded, Filled, Rooted, WalkOf;
    SameTrees(ts, Whole(f));
  }

  lemma SameTrees<N>(ts: Trees<N>, us: Trees<N>)
    requires WalkOf(ts) == WalkOf(us)
    ensures ts == us
  {
    assert WalkOf(ts) + [] == WalkOf(us) + [];
    WalkIsInjective(ts, us, [], []);
  }

  /** A forest whose walk has been pasted into is the old one with those trees placed there: what `splice` does
      to the forest it moves into. */
  lemma PastedTrees<T>(f: Forest<T>, was: Trees<Node<T>>, position: Position<T>, us: Trees<Node<T>>)
    requires f.Valid() && Distinct(WalkOf(was)) && position in WalkOf(was)
    requires f.walk == Paste(WalkOf(was), position, WalkOf(us))
    ensures Whole(f) == Place(was, position, us)
  {
    hide Threaded, Filled, Rooted, WalkOf, Place, Paste;
    PlaceIsPaste(was, position, us);
    WalkIsWhole(f, Place(was, position, us));
  }

  /** An inserted node stands in the forest without children, at the place of its position. */
  lemma InsertedTrees<T>(f: Forest<T>, was: Trees<Node<T>>, position: Position<T>, n: Node<T>)
    requires f.Valid() && Distinct(WalkOf(was)) && position in WalkOf(was)
    requires f.walk == Paste(WalkOf(was), position, [Visit(n, Leading), Visit(n, Trailing)])
    ensures Whole(f) == Place(was, position, Grow(n, Bare, Bare))
  {
    hide Threaded, Filled, Rooted, WalkOf, Place, Paste;
    LoneWalk(n);
    PastedTrees(f, was, position, Grow(n, Bare, Bare));
  }

  /** What `erase` does for one node, and its range form for all the nodes that the range covers. */
  lemma ErasedTrees<T>(f: Forest<T>, was: Trees<Node<T>>, gone: set<Node<T>>)
    requires f.Valid() && f.walk == Without(WalkOf(was), gone)
    ensures Whole(f) == Dissolve(was, gone)
  {
    hide Threaded, Filled, Rooted, WalkOf, Dissolve, Without;
    DissolveIsWithout(was, gone);
    WalkIsWhole(f, Dissolve(was, gone));
  }

  /** A child range is a row of whole trees `us`: the forest is the rest of it with `us` placed before `last`. */
  lemma RangeIsTrees<N>(ts: Trees<N>, first: Visit<N>, last: Visit<N>) returns (rest: Trees<N>, us: Trees<N>)
    requires Rooted(WalkOf(ts)) && InOrder(WalkOf(ts), first, last) && WellNested(Between(WalkOf(ts), first, last))
    ensures WalkOf(us) == Between(WalkOf(ts), first, last) && WalkOf(rest) == Cut(WalkOf(ts), first, last)
    ensures Distinct(WalkOf(rest)) && last in WalkOf(rest) && ts == Place(rest, last, us)
  {
    hide WalkOf, Place, WellNested, Paste;
    var w := WalkOf(ts);
    RangeCut(w, first, last);
    us, rest := Parse(Between(w, first, last)), Parse(Cut(w, first, last));
    PlaceIsPaste(rest, last, us);
    SpliceToOwnEnd(w, first, last);
    SameTrees(ts, Place(rest, last, us));
  }

  lemma RangeCut<N>(w: Word<N>, first: Visit<N>, last: Visit<N>)
    requires Rooted(w) && InOrder(w, first, last) && WellNested(Between(w, first, last))
    ensures var c := Cut(w, first, last); WellNested(c) && Distinct(c) && last in c
  {
    hide WellNested;
    var i, j := IndexOf(w, first), IndexOf(w, last);
    var a, s, b := w[..i], w[i..j], w[j..];
    assert w == a + s + b && b[0] == last;
    SegmentCut(a, s, b);
  }

  lemma SegmentCut<N>(a: Word<N>, s: Word<N>, b: Word<N>)
    requires WellNested(a + s + b) && Distinct(a + s + b) && WellNested(s)
    ensures WellNested(a + b) && Distinct(a + b)
  {
    SegmentIsNeutral([], a, s, b);
    DistinctCut(a, s, b);
  }

  /** A splice takes whole trees out of `x`, and places the same trees in `f`. */
  lemma SplicedTrees<T>(f: Forest<T>, x: Forest<T>, was: Trees<Node<T>>, xWas: Trees<Node<T>>,
                        position: Position<T>, first: Position<T>, last: Position<T>) returns (us: Trees<Node<T>>)
    requires f.Valid() && x.Valid() && Rooted(WalkOf(was)) && Rooted(WalkOf(xWas)) && position in WalkOf(was)
    requires InOrder(WalkOf(xWas), first, last) && WellNested(Between(WalkOf(xWas), first, last))
    requires x.walk == Cut(WalkOf(xWas), first, last)
    requires f.walk == Paste(WalkOf(was), position, Between(WalkOf(xWas), first, last))
    ensures xWas == Place(Whole(x), last, us) && Whole(f) == Place(was, position, us)
  {
    hide Threaded, Filled, WellNested, WalkOf, Place, Paste, Cut, Between, InOrder;
    var rest;
    rest, us := RangeIsTrees(xWas, first, last);
    WalkIsWhole(x, rest);
    PastedTrees(f, was, position, us);
  }

  /** A splice within one forest takes whole trees from one place to another. */
  lemma MovedTrees<T>(f: Forest<T>, was: Trees<Node<T>>, position: Position<T>, first: Position<T>, last: Position<T>)
    returns (rest: Trees<Node<T>>, us: Trees<Node<T>>)
    requires f.Valid() && Rooted(WalkOf(was))
    requires InOrder(WalkOf(was), first, last) && WellNested(Between(WalkOf(was), first, last))
    requires position in Cut(WalkOf(was), first, last) && f.walk == Moved(WalkOf(was), position, first, last)
    ensures was == Place(rest, last, us) && Whole(f) == Place(rest, position, us)
  {
    hide Threaded, Filled, WellNested, WalkOf, Place, Paste, Cut, Between, InOrder;
    rest, us := RangeIsTrees(was, first, last);
    PastedTrees(f, rest, position, us);
  }

  /** `insert_parent` puts a new node where the row of trees was, with that row as its children. */
  lemma WrappedTrees<T>(f: Forest<T>, was: Trees<Node<T>>, first: Position<T>, last: Position<T>, n: Node<T>)
    returns (rest: Trees<Node<T>>, us: Trees<Node<T>>)
    requires f.Valid() && Rooted(WalkOf(was))
    requires InOrder(WalkOf(was), first, last) && WellNested(Between(WalkOf(was), first, last))
    requires var w := WalkOf(was);
      f.walk == WrapAt(w, IndexOf(w, first), IndexOf(w, last), Visit(n, Leading), Visit(n, Trailing))
    ensures was == Place(rest, last, us) && Whole(f) == Place(rest, last, Grow(n, us, Bare))
  {
    hide Threaded, Filled, WellNested, WalkOf, Place;
    rest, us := RangeIsTrees(was, first, last);
    ParentWalk(n, us);
    WrapIsPaste(WalkOf(was), first, last, Visit(n, Leading), Visit(n, Trailing));
    PastedTrees(f, rest, last, Grow(n, us, Bare));
  }

  lemma ParentWalk<N>(n: N, us: Trees<N>)
    ensures WalkOf(Grow(n, us, Bare)) == [Visit(n, Leading)] + WalkOf(us) + [Visit(n, Trailing)]
  {
  }

  lemma WrapIsPaste<N>(w: Word<N>, first: Visit<N>, last: Visit<N>, l: Visit<N>, t: Visit<N>)
    requires Distinct(w) && InOrder(w, first, last)
    ensures WrapAt(w, IndexOf(w, first), IndexOf(w, last), l, t)
      == Paste(Cut(w, first, last), last, [l] + Between(w, first, last) + [t])
  {
    hide Distinct, IndexOf, WrapAt, PutAt;
    var i, j := IndexOf(w, first), IndexOf(w, last);
    var c := CutAt(w, i, j);
    assert w == w[..i] + w[i..j] + w[j..];
    DistinctCut(w[..i], w[i..j], w[j..]);
    assert c[i] == last;
    IndexIsUnique(c, i);
    PutIsWrap(w, i, j, l, t);
  }

  lemma PutIsWrap<A>(w: seq<A>, i: nat, j: nat, l: A, t: A)
    requires i <= j <= |w|
    ensures PutAt(CutAt(w, i, j), i, [l] + w[i..j] + [t]) == WrapAt(w, i, j, l, t)
  {
    assert CutAt(w, i, j)[..i] == w[..i] && CutAt(w, i, j)[i..] == w[j..];
  }
}
