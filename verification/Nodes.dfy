/** Nodes with four links, and the fullorder iterator that recovers edges from them. */
module Nodes {
  import opened Basics
  import opened Walks
  import opened Edits
  import opened Rings

  /** One link per edge of a node. */
  datatype Ends<T> = Ends(trailing: Node<T>, leading: Node<T>) {
    function At(e: Edge): Node<T> {
      if e.Leading? then leading else trailing
    }

    function With(e: Edge, n: Node<T>): Ends<T> {
      if e.Leading? then Ends(trailing, n) else Ends(n, leading)
    }
  }

  /** A node; the sentinel of a forest has no data.  No link says which edge of its target is meant. */
  class Node<T> {
    const data: Option<T>
    var prior: Ends<T>
    var next: Ends<T>

    constructor (data: Option<T>)
      ensures this.data == data && prior == Ends(this, this) && next == Ends(this, this)
    {
      this.data := data;
      prior := Ends(this, this);
      next := Ends(this, this);
    }
  }

  /** A fullorder iterator: a node and the edge it is visited on. */
  type Position<T> = Visit<Node<T>>

  function LeadingOf<T>(p: Position<T>): Position<T> { Visit(p.node, Leading) }

  function TrailingOf<T>(p: Position<T>): Position<T> { Visit(p.node, Trailing) }

  /** `++`: the edge is recovered by comparing neighbours. */
  function Next<T>(p: Position<T>): Position<T>
    reads p.node, p.node.next.At(p.edge)
  {
    var next := p.node.next.At(p.edge);
    if p.edge.Leading? then
      Visit(next, if next != p.node then Leading else Trailing)
    else
      Visit(next, if next.prior.leading == p.node then Leading else Trailing)
  }

  /** `--` */
  function Prev<T>(p: Position<T>): Position<T>
    reads p.node, p.node.prior.At(p.edge)
  {
    var next := p.node.prior.At(p.edge);
    if p.edge.Leading? then
      Visit(next, if next.next.trailing != p.node then Leading else Trailing)
    else
      Visit(next, if next == p.node then Leading else Trailing)
  }

  predicate HasChildren<T>(p: Position<T>)
    reads p.node, p.node.next.leading
  {
    p.node != Next(LeadingOf(p)).node
  }

  // ---------------------------------------------------------------------------
  // The links in the heap, as a value

  ghost function NodesOf<T>(w: Word<Node<T>>): set<Node<T>> {
    set v | v in w :: v.node
  }

  ghost function ThreadsOn<T>(w: Word<Node<T>>): Threads<Node<T>>
    reads NodesOf(w)
  {
    Threads(map v | v in w :: v.node.next.At(v.edge), map v | v in w :: v.node.prior.At(v.edge))
  }

  /** The only primitive that writes links: after `x` comes `y`.  Any word `w` that holds both sees it. */
  method SetNext<T>(x: Position<T>, y: Position<T>, ghost w: Word<Node<T>>)
    requires x in w && y in w
    modifies x.node`next, y.node`prior
    ensures x.node.next == old(x.node.next).With(x.edge, y.node)
    ensures y.node.prior == old(y.node.prior).With(y.edge, x.node)
    ensures ThreadsOn(w) == old(ThreadsOn(w)).Set(x, y)
  {
    x.node.next := x.node.next.With(x.edge, y.node);
    y.node.prior := y.node.prior.With(y.edge, x.node);
    NextRelinked(Link(w, x, y));
    PriorRelinked(Link(w, x, y));
  }

  twostate lemma ThreadsStay<T>(w: Word<Node<T>>)
    requires forall v | v in w :: v.node.next == old(v.node.next) && v.node.prior == old(v.node.prior)
    ensures ThreadsOn(w) == old(ThreadsOn(w))
  {
  }

  /** A word, and the two of its visits that are linked to each other. */
  datatype Link<T> = Link(w: Word<Node<T>>, x: Position<T>, y: Position<T>)

  twostate lemma NextRelinked<T>(k: Link<T>)
    requires k.x in k.w
    requires k.x.node.next == old(k.x.node.next).With(k.x.edge, k.y.node)
    requires forall v | v in k.w && v.node != k.x.node :: v.node.next == old(v.node.next)
    ensures ThreadsOn(k.w).next == old(ThreadsOn(k.w).next)[k.x := k.y.node]
  {
    forall v | v in k.w
      ensures v.node.next.At(v.edge) == if v == k.x then k.y.node else old(v.node.next.At(v.edge))
    {
    }
  }

  twostate lemma PriorRelinked<T>(k: Link<T>)
    requires k.y in k.w
    requires k.y.node.prior == old(k.y.node.prior).With(k.y.edge, k.x.node)
    requires forall v | v in k.w && v.node != k.y.node :: v.node.prior == old(v.node.prior)
    ensures ThreadsOn(k.w).prior == old(ThreadsOn(k.w).prior)[k.y := k.x.node]
  {
    forall v | v in k.w
      ensures v.node.prior.At(v.edge) == if v == k.y then k.x.node else old(v.node.prior.At(v.edge))
    {
    }
  }

  /** The links of the nodes of `w` encode the rooted walk `w`. */
  ghost predicate Threaded<T>(w: Word<Node<T>>)
    reads NodesOf(w)
  {
    Rooted(w) && ThreadsOn(w).Ring(w)
  }

  /** On a ring that is a rooted walk, `++` and `--` step to the circular neighbours. */
  lemma StepsFollowRing<T>(w: Word<Node<T>>, i: nat)
    requires Threaded(w) && i < |w|
    ensures Next(w[i]) == w[Succ(i, |w|)]
    ensures Prev(w[i]) == w[Pred(i, |w|)]
  {
    var l := ThreadsOn(w);
    var k := Succ(i, |w|);
    var p := Pred(i, |w|);
    l.RingNeighbours(w, i);
    if w[i].edge.Leading? {
      AfterLeading(w, i);
      var t := Matching(w, p);
      if w[p].edge.Trailing? { t := p; }
      l.RingNeighbours(w, t);
      BeforeLeading(w, i, t);
    } else {
      BeforeTrailing(w, i);
      var j := Matching(w, k);
      if w[k].edge.Leading? { j := k; }
      l.RingNeighbours(w, j);
      AfterTrailing(w, i, j);
    }
  }

  // ---------------------------------------------------------------------------
  // Moving segments in and out of a ring

  /** `s` is the walk of detached trees: its inner links are in place, its outer ones are not. */
  ghost predicate Loose<T>(s: Word<Node<T>>)
    reads NodesOf(s)
  {
    s != [] && WellNested(s) && Distinct(s) && ThreadsOn(s).Chain(s)
  }

  lemma ThreadsOnMore<T>(w: Word<Node<T>>, w': Word<Node<T>>)
    requires forall v | v in w :: v in w'
    ensures ThreadsOn(w).Ring(w) ==> ThreadsOn(w').Ring(w)
    ensures ThreadsOn(w).Chain(w) <==> ThreadsOn(w').Chain(w)
  {
    if ThreadsOn(w).Chain(w) { ThreadsOn(w).AgreeingChain(ThreadsOn(w'), w); }
    if ThreadsOn(w').Chain(w) { ThreadsOn(w').AgreeingChain(ThreadsOn(w), w); }
  }

  lemma AttachedRing<T>(w: Word<Node<T>>, at: nat, s: Word<Node<T>>)
    requires Threaded(w) && 0 < at < |w|
    requires Loose(s) && forall v | v in s :: v !in w
    ensures var w' := PutAt(w, at, s);
      Rooted(w') && ThreadsOn(w').Set(w[at - 1], s[0]).Set(s[|s| - 1], w[at]).Ring(w')
  {
    var w' := PutAt(w, at, s);
    PutAtMembers(w, at, s);
    PutAtRooted(w, at, s);
    ThreadsOnMore(w, w');
    ThreadsOnMore(s, w');
    ThreadsOn(w').PutAtRing(w, at, s);
  }

  /** Puts the loose segment from `first` to `back` before `position`. */
  method LinkIn<T>(position: Position<T>, first: Position<T>, back: Position<T>,
                   ghost w: Word<Node<T>>, ghost at: nat, ghost s: Word<Node<T>>, ghost w': Word<Node<T>>)
    requires Threaded(w) && 0 < at < |w| && position == w[at]
    requires Loose(s) && first == s[0] && back == s[|s| - 1]
    requires (forall v | v in s :: v !in w) && w' == PutAt(w, at, s)
    modifies (NodesOf(w) + NodesOf(s))`next, (NodesOf(w) + NodesOf(s))`prior
    ensures Threaded(w')
  {
    ghost var l := ThreadsOn(w');
    AttachedRing(w, at, s);
    StepsFollowRing(w, at);
    PutAtMembers(w, at, s);
    SetNext(Prev(position), first, w');
    SetNext(back, position, w');
    assert ThreadsOn(w') == l.Set(w[at - 1], s[0]).Set(s[|s| - 1], w[at]);
  }

  /** Takes the segment from index `i` up to `j` out of a ring, and leaves its inner links alone. */
  method LinkOut<T>(before: Position<T>, after: Position<T>,
                    ghost w: Word<Node<T>>, ghost i: nat, ghost j: nat, ghost w': Word<Node<T>>)
    requires Distinct(w) && ThreadsOn(w).Ring(w)
    requires 0 < i < j < |w| && before == w[i - 1] && after == w[j] && w' == CutAt(w, i, j)
    modifies NodesOf(w)`next, NodesOf(w)`prior
    ensures Distinct(w') && ThreadsOn(w').Ring(w')
    ensures ThreadsOn(w[i..j]).Chain(w[i..j])
  {
    ghost var s := w[i..j];
    assert w == w[..i] + s + w[j..];
    ThreadsOn(w).Detach(w[..i], s, w[j..]);
    DistinctCut(w[..i], s, w[j..]);
    ghost var l := ThreadsOn(w);
    SetNext(before, after, w);
    assert ThreadsOn(w) == l.Set(before, after);
    ThreadsOnFewer(w, w');
    ThreadsOnMore(s, w);
  }

  lemma ThreadsOnFewer<T>(w: Word<Node<T>>, w': Word<Node<T>>)
    requires forall v | v in w' :: v in w
    requires ThreadsOn(w).Ring(w')
    ensures ThreadsOn(w').Ring(w')
  {
    ThreadsOn(w).AgreeingChain(ThreadsOn(w'), w');
  }

  lemma HasChildrenIff<T>(p: Position<T>, w: Word<Node<T>>, i: nat, j: nat)
    requires Threaded(w) && i < j < |w| && w[i] == LeadingOf(p) && w[j] == TrailingOf(p)
    ensures HasChildren(p) <==> i + 1 < j
  {
    StepsFollowRing(w, i);
    AfterLeading(w, i);
    SamePlace(w, i + 1, j);
  }

  /** Takes two single visits out of a ring, the second of which does not follow the first. */
  method LinkOutBoth<T>(leadingPrior: Position<T>, leadingNext: Position<T>,
                        trailingPrior: Position<T>, trailingNext: Position<T>,
                        ghost w: Word<Node<T>>, ghost i: nat, ghost j: nat, ghost w': Word<Node<T>>)
    requires Distinct(w) && ThreadsOn(w).Ring(w)
    requires 0 < i < j - 1 && j < |w| - 1 && w' == DropAt(w, i, j)
    requires leadingPrior == w[i - 1] && leadingNext == w[i + 1]
    requires trailingPrior == w[j - 1] && trailingNext == w[j + 1]
    modifies NodesOf(w)`next, NodesOf(w)`prior
    ensures ThreadsOn(w').Ring(w')
  {
    hide Distinct, Threads.Ring;
    ghost var w1 := CutAt(w, i, i + 1);
    DropIsCutTwice(w, i, j);
    assert NodesOf(w1) <= NodesOf(w);
    LinkOut(leadingPrior, leadingNext, w, i, i + 1, w1);
    LinkOut(trailingPrior, trailingNext, w1, j - 1, j, w');
  }

  /** Unlinks the node at `position`; its children, if any, take its place. */
  method Unlink<T>(position: Position<T>,
                   ghost w: Word<Node<T>>, ghost i: nat, ghost j: nat, ghost w': Word<Node<T>>)
    returns (result: Position<T>)
    requires Threaded(w) && 0 < i < j < |w| - 1
    requires w[i] == LeadingOf(position) && w[j] == TrailingOf(position) && w' == DropAt(w, i, j)
    modifies NodesOf(w)`next, NodesOf(w)`prior
    ensures Threaded(w')
    ensures result == if position.edge.Leading? then w'[i] else w[j + 1]
  {
    StepsFollowRing(w, i);
    StepsFollowRing(w, j);
    HasChildrenIff(position, w, i, j);
    DropKeepsRooted(w, i, j);
    DropIsCutTwice(w, i, j);
    var leadingPrior := Prev(LeadingOf(position));
    var leadingNext := Next(LeadingOf(position));
    var trailingPrior := Prev(TrailingOf(position));
    var trailingNext := Next(TrailingOf(position));

    if HasChildren(position) {
      LinkOutBoth(leadingPrior, leadingNext, trailingPrior, trailingNext, w, i, j, w');
    } else {
      LinkOut(leadingPrior, trailingNext, w, i, j + 1, w');
    }
    StepsFollowRing(w', i - 1);
    result := if position.edge.Leading? then Next(leadingPrior) else trailingNext;
  }

  lemma CutNodesApart<T>(w: Word<Node<T>>, i: nat, j: nat)
    requires Threaded(w) && Siblings(w, i, j)
    ensures NodesOf(w[i..j]) !! NodesOf(CutAt(w, i, j))
    ensures NodesOf(w) == NodesOf(w[i..j]) + NodesOf(CutAt(w, i, j))
  {
    forall u, v | u in w[i..j] && v in CutAt(w, i, j) ensures u.node != v.node {
      CutSiblingsApart(w, i, j, u, v);
    }
    assert w == w[..i] + w[i..j] + w[j..];
  }

  lemma PutNodes<T>(w: Word<Node<T>>, at: nat, s: Word<Node<T>>)
    requires at <= |w|
    ensures NodesOf(PutAt(w, at, s)) == NodesOf(w) + NodesOf(s)
  {
    PutAtMembers(w, at, s);
  }

  /** What `MoveSiblings` is told about the walks: the segment of `xw` goes before index `at` of `base`,
      which is another forest's walk or what remains of `xw`. */
  ghost predicate CanMove<T>(xw: Word<Node<T>>, i: nat, j: nat, base: Word<Node<T>>, at: nat) {
    && i < j < |xw| && Siblings(xw, i, j) && 0 < at < |base|
    && (base == CutAt(xw, i, j) || NodesOf(base) !! NodesOf(xw))
  }

  /** The links of a splice. */
  method MoveSiblings<T>(position: Position<T>, first: Position<T>, last: Position<T>,
                         ghost xw: Word<Node<T>>, ghost i: nat, ghost j: nat,
                         ghost base: Word<Node<T>>, ghost at: nat,
                         ghost xw': Word<Node<T>>, ghost w': Word<Node<T>>)
    requires Threaded(xw) && CanMove(xw, i, j, base, at)
    requires base != xw' ==> Threaded(base)
    requires xw' == CutAt(xw, i, j) && w' == PutAt(base, at, xw[i..j])
    requires first == xw[i] && last == xw[j] && position == base[at]
    modifies (NodesOf(xw) + NodesOf(base))`next, (NodesOf(xw) + NodesOf(base))`prior
    ensures Threaded(w')
    ensures base != xw' ==> Threaded(xw')
  {
    hide Threaded, Loose, Siblings;
    ghost var s := xw[i..j];
    CutNodesApart(xw, i, j);
    NoCommonVisits(s, base);
    var back := TakeOut(first, last, xw, i, j, xw');
    if base != xw' { ThreadedStays(base); }
    LinkIn(position, first, back, base, at, s, w');
  }

  method TakeOut<T>(first: Position<T>, last: Position<T>,
                    ghost w: Word<Node<T>>, ghost i: nat, ghost j: nat, ghost w': Word<Node<T>>)
    returns (back: Position<T>)
    requires Threaded(w) && Siblings(w, i, j) && i < j && w' == CutAt(w, i, j)
    requires first == w[i] && last == w[j]
    modifies NodesOf(w)`next, NodesOf(w)`prior
    ensures Threaded(w') && Loose(w[i..j]) && back == w[j - 1]
  {
    CutSiblings(w, i, j);
    SiblingsInside(w, i, j);
    StepsFollowRing(w, i);
    StepsFollowRing(w, j);
    back := Prev(last);
    LinkOut(Prev(first), last, w, i, j, w');
  }

  twostate lemma ThreadedStays<T>(w: Word<Node<T>>)
    requires forall v | v in w :: v.node.next == old(v.node.next) && v.node.prior == old(v.node.prior)
    ensures Threaded(w) <==> old(Threaded(w))
  {
    ThreadsStay(w);
  }

  lemma NoCommonVisits<T>(s: Word<Node<T>>, w: Word<Node<T>>)
    requires NodesOf(s) !! NodesOf(w)
    ensures forall v | v in s :: v !in w
  {
    assert forall v | v in s && v in w :: v.node in NodesOf(s) && v.node in NodesOf(w);
  }
}
