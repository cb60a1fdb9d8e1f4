/** The forest container: a sentinel node, whose walk threads every node of the forest. */
module Container {
  import opened Basics
  import opened Walks
  import opened Edits
  import opened Rings
  import opened Nodes
  import opened Ranges
  import opened TreeWalks

  class Forest<T> {
    const tail: Node<T>
    /** The cached size; 0 in a forest with nodes means that the size is not known. */
    var cachedSize: nat
    /** What the links encode: the whole walk, from the root's leading to its trailing visit. */
    ghost var walk: Word<Node<T>>

    /** The cached size, unless 0, is the number of nodes. */
    ghost predicate Counted()
      reads this
    {
      cachedSize != 0 ==> cachedSize == NodeCount(walk)
    }

    ghost predicate Valid()
      reads this, NodesOf(walk)
    {
      Shaped() && Counted()
    }

    /** The links encode the walk. */
    ghost predicate Shaped()
      reads this, NodesOf(walk)
    {
      && Threaded(walk) && walk[0] == Root()
      && tail.data.None? && Filled(walk, tail)
    }

    constructor ()
      ensures Valid() && fresh(NodesOf(walk))
      ensures walk == [Root(), End()]
    {
      var t := new Node<T>(None);
      tail := t;
      cachedSize := 0;
      walk := [Visit(t, Leading), Visit(t, Trailing)];
      new;
      NewRoot(tail);
    }

    function Root(): Position<T> { Visit(tail, Leading) }

    function End(): Position<T> { Visit(tail, Trailing) }

    function Begin(): Position<T>
      reads tail, tail.next.leading
    {
      Next(Root())
    }

    predicate Empty()
      reads tail, tail.next.leading
    {
      Begin() == End()
    }

    predicate SizeValid()
      reads this, tail, tail.next.leading
    {
      cachedSize != 0 || Empty()
    }

    /** The size is known when it is cached, and when there are no nodes. */
    lemma SizeValidIff()
      requires Valid()
      ensures SizeValid() <==> cachedSize != 0 || |walk| == 2
      ensures SizeValid() ==> cachedSize == NodeCount(walk)
    {
      hide Filled;
      EmptyIffNoNodes();
    }

    /** A new node before `position`. */
    method Insert(position: Position<T>, x: T) returns (result: Position<T>)
      requires Valid() && position in walk && position != Root()
      modifies `cachedSize, `walk, NodesOf(walk)`next, NodesOf(walk)`prior
      ensures Valid()
      ensures fresh(NodesOf(walk) - old(NodesOf(walk)))
      ensures fresh(result.node) && result.edge.Leading? && result.node.data == Some(x)
      ensures walk == Paste(old(walk), position, [result, TrailingOf(result)])
      ensures cachedSize == if old(cachedSize != 0 || |walk| == 2) then old(cachedSize) + 1 else 0
    {
      hide Threaded, Loose, NodesOf, IndexOf;
      ghost var w, at, nodes := walk, IndexOf(walk, position), NodesOf(walk);
      NodesAllocated(w);
      EmptyIffNoNodes();
      var n := new Node<T>(Some(x));
      result := Visit(n, Leading);
      ghost var added := {n};
      assert fresh(added) && n !in nodes;
      ghost var pair := [result, TrailingOf(result)];

      if SizeValid() { cachedSize := cachedSize + 1; }

      walk := PutAt(w, at, pair);
      PairNodes(w, at, result, added);
      FilledPutAt(w, at, pair, tail);
      ThreadedStays(w);
      NewPairIsLoose(n);
      NewVisits(w, n);
      LinkIn(position, result, Next(result), w, at, pair, walk);
    }

    /** Drops the node at `position`; its children take its place. */
    method Erase(position: Position<T>) returns (result: Position<T>)
      requires Valid() && position in walk && position.node != tail
      modifies `cachedSize, `walk, NodesOf(walk)`next, NodesOf(walk)`prior
      ensures Valid()
      ensures walk == Without(old(walk), {position.node}) && |walk| == |old(walk)| - 2
      ensures result == AfterErased(old(walk), position)
      ensures var k := old(IndexOf(walk, position)) - if position.edge.Leading? then 0 else 1;
        0 <= k < |walk| && result == walk[k]
      ensures cachedSize == if old(cachedSize) != 0 then NodeCount(walk) else 0
    {
      hide Threaded, Loose, IndexOf, Without, AfterErased, Run;
      ghost var w := walk;
      ghost var i, j := Visits(position);
      ErasedWord(position, i, j);
      EmptyIffNoNodes();

      if SizeValid() { cachedSize := cachedSize - 1; }

      walk := DropAt(w, i, j);
      ThreadsStay(w);
      result := Unlink(position, w, i, j, walk);
    }

    /** The child range `[first, last)` of this forest: whole subtrees, side by side. */
    ghost predicate ChildRange(first: Position<T>, last: Position<T>)
      reads this
    {
      InOrder(walk, first, last) && WellNested(Between(walk, first, last))
    }

    /** Distinct forests own distinct nodes. */
    ghost predicate Separate(x: Forest<T>)
      reads this, x
    {
      x != this ==> NodesOf(walk) !! NodesOf(x.walk)
    }

    /** Moves the child range `[first, last)` of `x`, which may be this forest, before `position`.
        A `count` other than 0 is the number of nodes moved; 0 says that it is not known. */
    method Splice(position: Position<T>, x: Forest<T>, first: Position<T>, last: Position<T>, count: nat)
      returns (result: Position<T>)
      requires Valid() && x.Valid() && Separate(x)
      requires position in walk && position != Root()
      requires x.ChildRange(first, last)
      requires x == this ==> position == first || position !in Between(walk, first, last)
      requires x != this && count != 0 ==> |Between(x.walk, first, last)| == 2 * count
      modifies `cachedSize, `walk, x`cachedSize, x`walk
      modifies (NodesOf(x.walk) + NodesOf(walk))`next, (NodesOf(x.walk) + NodesOf(walk))`prior
      ensures Valid() && x.Valid() && Separate(x)
      ensures result == if first == last then position else first
      ensures first == last || first == position ==>
        && walk == old(walk) && cachedSize == old(cachedSize)
        && x.walk == old(x.walk) && x.cachedSize == old(x.cachedSize)
      ensures first != last && first != position && x == this ==>
        && walk == Moved(old(walk), position, first, last) && cachedSize == old(cachedSize)
      ensures first != last && first != position && x != this ==>
        && x.walk == Cut(old(x.walk), first, last)
        && walk == Paste(old(walk), position, Between(old(x.walk), first, last))
        && cachedSize == (if count != 0 && old(cachedSize != 0 || |walk| == 2) then NodeCount(walk) else 0)
        && x.cachedSize == (if count != 0 && old(x.cachedSize) != 0 then NodeCount(x.walk) else 0)
    {
      hide Threaded, WellNested, Filled, NodesOf, Moved, Cut, Paste, Between, InOrder, IndexOf, NodeCount;
      if first == last || first == position { return position; }

      SplicedCounts(position, x, first, last);
      MoveCount(x, |Between(x.walk, first, last)| / 2, count);
      Rehang(position, x, first, last);
      result := first;
    }

    /** The links of a splice that moves something. */
    method Rehang(position: Position<T>, x: Forest<T>, first: Position<T>, last: Position<T>)
      requires Shaped() && x.Shaped() && Separate(x)
      requires position in walk && position != Root()
      requires x.ChildRange(first, last) && first != last
      requires x == this ==> position !in Between(walk, first, last)
      modifies `walk, x`walk
      modifies (NodesOf(x.walk) + NodesOf(walk))`next, (NodesOf(x.walk) + NodesOf(walk))`prior
      ensures Shaped() && x.Shaped() && Separate(x)
      ensures cachedSize == old(cachedSize) && x.cachedSize == old(x.cachedSize)
      ensures x == this ==> walk == Moved(old(walk), position, first, last)
      ensures x != this ==>
        && x.walk == Cut(old(x.walk), first, last)
        && walk == Paste(old(walk), position, Between(old(x.walk), first, last))
    {
      hide Threaded, WellNested, Filled, NodesOf, PutAt, CutAt, CanMove, Siblings, Moved, Paste, Cut, Between;
      ghost var i, j := IndexOf(x.walk, first), IndexOf(x.walk, last);
      ghost var w, xw := walk, x.walk;
      ghost var xw' := CutAt(xw, i, j);
      ghost var base := if x == this then xw' else w;
      ghost var at := IndexOf(base, position);
      ghost var w' := PutAt(base, at, xw[i..j]);
      RehangPlan(position, x, first, last);
      MoveSiblings(position, first, last, xw, i, j, base, at, xw', w');
      Rename(x, w', xw');
    }

    /** What a splice does to the walks, before it is done to the links. */
    lemma RehangPlan(position: Position<T>, x: Forest<T>, first: Position<T>, last: Position<T>)
      requires Shaped() && x.Shaped() && Separate(x)
      requires position in walk && position != Root()
      requires x.ChildRange(first, last) && first != last
      requires x == this ==> position !in Between(walk, first, last)
      ensures var i, j := IndexOf(x.walk, first), IndexOf(x.walk, last);
        var xw' := CutAt(x.walk, i, j);
        var base := if x == this then xw' else walk;
        var at := IndexOf(base, position);
        && CanMove(x.walk, i, j, base, at) && position == base[at]
        && var w' := PutAt(base, at, x.walk[i..j]);
        && xw' == Cut(x.walk, first, last)
        && (x == this ==> w' == Moved(walk, position, first, last))
        && (x != this ==> w' == Paste(walk, position, Between(x.walk, first, last)))
        && Filled(xw', x.tail) && xw'[0] == x.Root() && Filled(w', tail) && w'[0] == Root()
        && NodesOf(base) <= NodesOf(x.walk) + NodesOf(walk)
        && (x != this ==> base != xw' && NodesOf(w') !! NodesOf(xw'))
    {
      hide WellNested, Distinct, Threads.Ring, NodesOf, Filled, CutAt, PutAt, Cut, Paste, Between, Moved;
      hide CanMove, IndexOf;
      var i, j := IndexOf(x.walk, first), IndexOf(x.walk, last);
      var xw' := CutAt(x.walk, i, j);
      var base := if x == this then xw' else walk;
      var at := IndexOf(base, position);
      SpliceIsMove(position, x, first, last);
      SplicedWords(walk, x.walk, base, position, first, last);
      SplicedNodes(x.walk, i, j, base, at);
      if x != this { ApartWordsDiffer(walk, xw', NodesOf(x.walk)); }
      SplicedWalks(x.walk, i, j, base, at, x.tail, tail);
    }

    /** Changes which words stand for two forests, but no links. */
    ghost method Rename(x: Forest<T>, w: Word<Node<T>>, xw: Word<Node<T>>)
      modifies `walk, x`walk
      ensures walk == w && (x != this ==> x.walk == xw)
      ensures Threaded(w) <==> old(Threaded(w))
      ensures Threaded(xw) <==> old(Threaded(xw))
    {
      hide Threaded;
      x.walk := xw;
      walk := w;
      ThreadedStays(w);
      ThreadedStays(xw);
    }

    /** The cached sizes once `count` nodes move here from `x`; within one forest they stay. */
    method MoveCount(x: Forest<T>, ghost n: nat, count: nat)
      requires Valid() && x.Valid()
      requires 0 < n <= NodeCount(x.walk)
      requires x != this && count != 0 ==> n == count
      modifies `cachedSize, x`cachedSize
      ensures Shaped() && x.Shaped()
      ensures x == this ==> cachedSize == old(cachedSize)
      ensures x != this ==>
        && cachedSize == (if count != 0 && old(cachedSize != 0 || |walk| == 2) then NodeCount(walk) + n else 0)
        && x.cachedSize == (if count != 0 && old(x.cachedSize) != 0 then NodeCount(x.walk) - n else 0)
    {
      hide Threaded, Filled, NodesOf;
      EmptyIffNoNodes();
      x.EmptyIffNoNodes();
      if x != this {
        if count != 0 {
          if SizeValid() { cachedSize := cachedSize + count; }
          if x.SizeValid() { x.cachedSize := x.cachedSize - count; }
        } else {
          cachedSize := 0;
          x.cachedSize := 0;
        }
      }
      ThreadedStays(walk);
      ThreadedStays(x.walk);
    }

    lemma SpliceIsMove(position: Position<T>, x: Forest<T>, first: Position<T>, last: Position<T>)
      requires Shaped() && x.Shaped() && Separate(x)
      requires position in walk && position != Root()
      requires x.ChildRange(first, last) && first != last
      requires x == this ==> position !in Between(walk, first, last)
      ensures var i, j := IndexOf(x.walk, first), IndexOf(x.walk, last);
        var base := if x == this then CutAt(x.walk, i, j) else walk;
        i <= j <= |x.walk| && position in base && CanMove(x.walk, i, j, base, IndexOf(base, position))
    {
      hide WellNested, Distinct, Threads.Ring, Filled;
      if x == this { OutsideRange(walk, first, last, position); }
    }

    lemma SplicedCounts(position: Position<T>, x: Forest<T>, first: Position<T>, last: Position<T>)
      requires Shaped() && x.Shaped() && x.ChildRange(first, last) && first != last
      ensures var n := |Between(x.walk, first, last)| / 2;
        && 0 < n <= NodeCount(x.walk)
        && NodeCount(Moved(walk, position, first, last)) == NodeCount(walk)
        && NodeCount(Cut(x.walk, first, last)) == NodeCount(x.walk) - n
        && NodeCount(Paste(walk, position, Between(x.walk, first, last))) == NodeCount(walk) + n
    {
      hide Filled, Threads.Ring, Distinct, WellNested, Run;
      SplicedLengths(walk, x.walk, position, first, last);
    }

    /** Erases the nodes both of whose visits are in the range; one pass, while the walk shrinks under it. */
    method EraseRange(first: Position<T>, last: Position<T>) returns (result: Position<T>)
      requires Valid() && InOrder(walk, first, last)
      modifies `cachedSize, `walk, NodesOf(walk)`next, NodesOf(walk)`prior
      ensures Valid()
      ensures walk == Without(old(walk), Covered(Between(old(walk), first, last)))
      ensures result == last && last in walk
      ensures cachedSize == if old(cachedSize) != 0 then NodeCount(walk) else 0
    {
      hide Threaded, Filled, Rooted, Reduce, Partly, Without, Covered, IndexOf, NodesOf;
      ghost var w, i, j := walk, IndexOf(walk, first), IndexOf(walk, last);
      ghost var k := i;
      BothEnds();
      NothingErased(w, i);
      LastStays(w, i, j);
      var stackDepth := 0;
      var position := first;
      while position != last
        invariant i <= k <= j < |w| && position == w[k]
        invariant MidErase(w, i, k, stackDepth)
        invariant cachedSize == if old(cachedSize) != 0 then NodeCount(walk) else 0
        decreases j - k
      {
        RootedPlaces(w, k, j);
        position, stackDepth := EraseStep(position, stackDepth, w, i, k);
        k := k + 1;
      }
      RootedPlaces(w, k, j);
      result := last;
    }

    ghost predicate MidErase(w: Word<Node<T>>, i: nat, k: nat, stackDepth: nat)
      requires i <= k <= |w|
      reads this, NodesOf(walk)
    {
      && Valid() && Rooted(w) && w[0] == Root() && NodesOf(walk) <= NodesOf(w)
      && walk == Partly(w, i, k) && stackDepth == |Reduce(w[i..k]).open|
    }

    /** One round of the loop of `EraseRange`. */
    method EraseStep(position: Position<T>, stackDepth: nat, ghost w: Word<Node<T>>, ghost i: nat, ghost k: nat)
      returns (position': Position<T>, stackDepth': nat)
      requires i <= k < |w| - 1 && position == w[k] && MidErase(w, i, k, stackDepth)
      modifies `cachedSize, `walk, NodesOf(walk)`next, NodesOf(walk)`prior
      ensures position' == w[k + 1] && MidErase(w, i, k + 1, stackDepth')
      ensures cachedSize == if old(cachedSize) == 0 then 0 else NodeCount(walk)
      ensures NodeCount(walk) <= NodeCount(old(walk))
    {
      PassNext(w, i, k);
      hide Threaded, Rooted, Filled, Reduce, Partly, Without;
      WithoutNodes(walk, {position.node});
      hide NodesOf;
      if position.edge.Leading? {
        stackDepth' := stackDepth + 1;
        position' := Next(position);
      } else {
        if stackDepth > 0 {
          position' := Erase(position);
        } else {
          position' := Next(position);
        }
        stackDepth' := if stackDepth > 0 then stackDepth - 1 else 0;
      }
    }

    /** What the pass meets at index `k` of the walk it started from. */
    lemma PassNext(w: Word<Node<T>>, i: nat, k: nat)
      requires Valid() && Rooted(w) && w[0] == Root() && i <= k < |w| - 1 && walk == Partly(w, i, k)
      ensures var r, r', v := Reduce(w[i..k]), Reduce(w[i..k + 1]), w[k];
        && v in walk
        && (v.edge.Leading? ==> |r'.open| == |r.open| + 1)
        && (v.edge.Trailing? ==> |r'.open| == if r.open == [] then 0 else |r.open| - 1)
        && (v.edge.Leading? || r.open == [] ==>
              Next(v) == w[k + 1] && Partly(w, i, k + 1) == walk)
        && (v.edge.Trailing? && r.open != [] ==>
              && v.node != tail && AfterErased(walk, v) == w[k + 1]
              && Partly(w, i, k + 1) == Without(walk, {v.node}))
    {
      ReduceNext(w, i, k);
      if w[k].edge.Leading? || Reduce(w[i..k]).open == [] {
        PassKeeps(w, i, k);
        StepsFollowRing(walk, Here(w, i, k));
      } else {
        PassDrops(w, i, k);
        IndexIsUnique(walk, Here(w, i, k));
      }
    }

    /** Moves all of `x` before `position`. */
    method SpliceAll(position: Position<T>, x: Forest<T>) returns (result: Position<T>)
      requires Valid() && x.Valid() && x != this && Separate(x)
      requires position in walk && position != Root()
      modifies `cachedSize, `walk, x`cachedSize, x`walk
      modifies (NodesOf(x.walk) + NodesOf(walk))`next, (NodesOf(x.walk) + NodesOf(walk))`prior
      ensures Valid() && x.Valid() && Separate(x)
      ensures x.walk == [x.Root(), x.End()]
      ensures walk == Paste(old(walk), position, old(x.walk[1..|x.walk| - 1]))
      ensures old(|x.walk|) != 2 ==>
        cachedSize == if old((cachedSize != 0 || |walk| == 2) && x.cachedSize != 0) then NodeCount(walk) else 0
      ensures old(|x.walk|) == 2 ==> cachedSize == old(cachedSize)
    {
      hide Threaded, WellNested, Filled, Covered, Without, NodesOf;
      x.WholeRange();
      x.WholeCut();
      x.EmptyIffNoNodes();
      x.BothEnds();
      Elsewhere(x, position, x.walk[1]);
      var count := if x.SizeValid() then x.cachedSize else 0;
      result := Splice(position, x, x.Begin(), x.End(), count);
    }

    // -------------------------------------------------------------------------
    // What the links mean

    /** The one ordered forest that the links encode. */
    ghost function Shape(): (ts: Trees<Node<T>>)
      requires Valid()
      reads this, NodesOf(walk)
      ensures walk == [Root()] + WalkOf(ts) + [End()]
    {
      hide Threaded, Filled, Rooted, WellNested;
      BothEnds();
      InnerIsWellNested(walk);
      Parse(walk[1..|walk| - 1])
    }

    /** No other forest has this walk. */
    lemma ShapeIsUnique(ts: Trees<Node<T>>)
      requires Valid() && walk == [Root()] + WalkOf(ts) + [End()]
      ensures ts == Shape()
    {
      var us := Shape();
      assert WalkOf(ts) == walk[1..|walk| - 1] == WalkOf(us);
      assert WalkOf(ts) + [] == WalkOf(us) + [];
      WalkIsInjective(ts, us, [], []);
    }

    /** Every node is visited once on each edge, and nothing else is. */
    lemma VisitedOnceEach(i: nat)
      requires Valid() && i < |walk|
      ensures exists j: nat | j < |walk| && j != i ::
        && walk[j] == Visit(walk[i].node, Pivot(walk[i].edge))
        && forall k: nat | k < |walk| && walk[k].node == walk[i].node :: k == i || k == j
    {
      var j := Matching(walk, i);
      forall k: nat | k < |walk| && walk[k].node == walk[i].node ensures k == i || k == j {
        NoThirdVisit(walk, i, j, k);
      }
    }

    /** Any run of `++` from the root is the walk, over and over; the links alone fix the walk. */
    lemma {:induction false} RunOfIncrements(trace: seq<Position<T>>, k: nat)
      requires Valid() && k < |trace| && trace[0] == Root()
      requires forall i: nat | i + 1 < |trace| :: trace[i + 1] == Next(trace[i])
      ensures |walk| > 0 && trace[k] == walk[Around(k, |walk|)]
      decreases k
    {
      BothEnds();
      if k > 0 {
        RunOfIncrements(trace, k - 1);
        StepsFollowRing(walk, Around(k - 1, |walk|));
        assert trace[k - 1 + 1] == Next(trace[k - 1]);
      }
    }

    /** `--` undoes `++`, and `++` undoes `--`, at every position. */
    lemma DecrementInvertsIncrement(p: Position<T>)
      requires Valid() && p in walk
      ensures Next(p) in walk && Prev(Next(p)) == p
      ensures Prev(p) in walk && Next(Prev(p)) == p
    {
      hide Threaded, Filled;
      BothEnds();
      var i := IndexOf(walk, p);
      StepsFollowRing(walk, i);
      StepsFollowRing(walk, Succ(i, |walk|));
      StepsFollowRing(walk, Pred(i, |walk|));
    }

    lemma OnePlace(i: nat, j: nat)
      requires Valid() && i < |walk| && j < |walk|
      ensures walk[i] == walk[j] <==> i == j
    {
      SamePlace(walk, i, j);
    }

    lemma FoundAt(k: nat)
      requires Valid() && k < |walk|
      ensures IndexOf(walk, walk[k]) == k
      ensures 0 < k ==> walk[k] != Root()
    {
      IndexIsUnique(walk, k);
      SamePlace(walk, k, 0);
    }

    lemma InnerVisit(i: nat)
      requires Valid() && 0 < i < |walk| - 1
      ensures walk[i].node != tail && walk[i].node.data.Some?
    {
      NoThirdVisit(walk, 0, |walk| - 1, i);
    }

    lemma BothEnds()
      requires Valid()
      ensures Rooted(walk) && |walk| >= 2 && walk[0] == Root() && walk[|walk| - 1] == End()
    {
    }

    lemma Elsewhere(x: Forest<T>, p: Position<T>, q: Position<T>)
      requires Separate(x) && x != this && p in walk && q in x.walk
      ensures p != q
    {
      assert p.node in NodesOf(walk) && q.node in NodesOf(x.walk);
    }

    lemma WholeCut()
      requires Valid()
      ensures Cut(walk, walk[1], End()) == [Root(), End()]
      ensures cachedSize != 0 ==> |walk[1..|walk| - 1]| == 2 * cachedSize
    {
      IndexIsUnique(walk, 1);
      IndexIsUnique(walk, |walk| - 1);
      EvenLength(walk);
    }

    /** Moves the subtree at `i` before `position`. */
    method SpliceNode(position: Position<T>, x: Forest<T>, i: Position<T>) returns (result: Position<T>)
      requires Valid() && x.Valid() && Separate(x)
      requires position in walk && position != Root()
      requires i in x.walk && i.node != x.tail
      requires x == this ==> position == LeadingOf(i) || position !in Subtree(walk, i.node)
      modifies `cachedSize, `walk, x`cachedSize, x`walk
      modifies (NodesOf(x.walk) + NodesOf(walk))`next, (NodesOf(x.walk) + NodesOf(walk))`prior
      ensures Valid() && x.Valid() && Separate(x)
      ensures result == LeadingOf(i)
      ensures x == this && position != result ==> walk == PutSubtree(old(walk), position, i.node)
      ensures x == this && position == result ==> walk == old(walk)
      ensures x != this ==>
        && x.walk == CutSubtree(old(x.walk), i.node)
        && walk == Paste(old(walk), position, Subtree(old(x.walk), i.node))
        && (var known := |Subtree(old(x.walk), i.node)| == 2;
            && cachedSize == (if known && old(cachedSize != 0 || |walk| == 2) then NodeCount(walk) else 0)
            && x.cachedSize == (if known && old(x.cachedSize) != 0 then NodeCount(x.walk) else 0))
    {
      hide Threaded, WellNested, Filled, NodesOf;
      x.SubtreeIsRange(i);
      if x != this { Elsewhere(x, position, LeadingOf(i)); }
      var first := LeadingOf(i);
      var last := Next(TrailingOf(i));
      result := Splice(position, x, first, last, if HasChildren(i) then 0 else 1);
    }

    lemma SubtreeIsRange(p: Position<T>)
      requires Valid() && p in walk && p.node != tail
      ensures var last := Next(TrailingOf(p));
        && ChildRange(LeadingOf(p), last) && last != LeadingOf(p)
        && Between(walk, LeadingOf(p), last) == Subtree(walk, p.node)
        && Cut(walk, LeadingOf(p), last) == CutSubtree(walk, p.node)
        && (!HasChildren(p) <==> |Subtree(walk, p.node)| == 2)
    {
      hide Threaded, Filled, WellNested, Distinct;
      var i, j := Visits(p);
      StepsFollowRing(walk, j);
      HasChildrenIff(p, walk, i, j);
      SubtreeNested(i, j);
      assert Visit(p.node, Leading) == walk[i] && Visit(p.node, Trailing) == walk[j];
    }

    lemma SubtreeNested(i: nat, j: nat)
      requires Valid() && 0 < i < j < |walk| - 1
      requires walk[i].edge.Leading? && walk[j] == TrailingOf(walk[i])
      ensures WellNested(walk[i..j + 1])
      ensures IndexOf(walk, walk[i]) == i && IndexOf(walk, walk[j]) == j && IndexOf(walk, walk[j + 1]) == j + 1
    {
      hide Threaded, Filled, WellNested, Distinct, IndexOf;
      BothEnds();
      FoundAt(i);
      FoundAt(j);
      FoundAt(j + 1);
      var k := Closing(walk, i);
      SamePlace(walk, k, j);
      WrapIsWellNested(walk[i].node, walk[i + 1..j]);
      assert walk[i..j + 1] == [walk[i]] + walk[i + 1..j] + [walk[j]];
    }

    /** The number of nodes; counted, if it is not cached, from the first leading visit to the root's. */
    method Size() returns (size: nat)
      requires Valid()
      modifies `cachedSize
      ensures Valid() && cachedSize == size && size == |NodesOf(walk) - {tail}| == NodeCount(walk)
    {
      hide Threaded, Filled, WellNested, FindFrom, Left, OnEdge, Covered, Without, Between, InOrder;
      EmptyIffNoNodes();
      if !SizeValid() {
        BothEnds();
        WholeRange();
        CountStart();
        var first, i := FindEdge(Begin(), Leading, this, 1);
        var last, end := FindEdge(End(), Leading, this, |walk| - 1);
        var distance := 0;
        while first != last
          invariant Valid() && i < |walk| && first == walk[i]
          invariant i == 0 || walk[i].edge.Leading?
          invariant distance + Left(walk, i, Leading) == NodeCount(walk)
          decreases if i == 0 then 0 else |walk| - i
        {
          StepsFollowRing(walk, i);
          NextFound(walk, i, Leading);
          first, i := FindEdge(Next(first), Leading, this, i + 1);
          distance := distance + 1;
        }
        OnePlace(i, 0);
        SetSize(distance);
      }
      NodesCounted();
      size := cachedSize;
    }

    /** The size is the number of nodes other than the root. */
    lemma NodesCounted()
      requires Valid()
      ensures |NodesOf(walk) - {tail}| == NodeCount(walk)
    {
      hide Threaded, Filled, WellNested, Distinct;
      BothEnds();
      TwoVisitsEach(walk);
      assert walk[0] in walk && tail in NodesOf(walk);
      assert NodesOf(walk) == set v | v in walk :: v.node;
    }

    lemma CountStart()
      requires Valid()
      ensures |walk| >= 2 && walk[|walk| - 1] == End()
      ensures FindFrom(walk, |walk| - 1, Leading) == 0
      ensures FindFrom(walk, 1, Leading) == 0 || walk[FindFrom(walk, 1, Leading)].edge.Leading?
      ensures Left(walk, FindFrom(walk, 1, Leading), Leading) == NodeCount(walk)
      ensures Left(walk, 0, Leading) == 0
    {
      hide Filled;
      LeftAtStart(walk);
      FoundStep(walk, 1, Leading);
    }

    method SetSize(n: nat)
      requires Shaped() && n == NodeCount(walk)
      modifies `cachedSize
      ensures Valid() && cachedSize == n
    {
      hide Threaded;
      cachedSize := n;
      ThreadedStays(walk);
    }

    method Clear()
      requires Valid()
      modifies `cachedSize, `walk, NodesOf(walk)`next, NodesOf(walk)`prior
      ensures Valid() && walk == [Root(), End()]
    {
      WholeRange();
      var unused := EraseRange(Begin(), End());
    }

    lemma WholeRange()
      requires Valid()
      ensures Begin() == walk[1] && IndexOf(walk, Begin()) == 1 && IndexOf(walk, End()) == |walk| - 1
      ensures InOrder(walk, Begin(), End()) && ChildRange(Begin(), End())
      ensures Between(walk, Begin(), End()) == walk[1..|walk| - 1]
      ensures Without(walk, Covered(walk[1..|walk| - 1])) == [Root(), End()]
    {
      hide WellNested, Distinct, Covered, Without, Filled, Threads.Ring;
      StepsFollowRing(walk, 0);
      IndexIsUnique(walk, 1);
      IndexIsUnique(walk, |walk| - 1);
      AllCovered(walk);
    }

    /** A new node around the child range `[first, last)`. */
    method InsertParent(first: Position<T>, last: Position<T>, x: T) returns (result: Position<T>)
      requires Valid() && ChildRange(first, last) && last != Root()
      modifies `cachedSize, `walk, NodesOf(walk)`next, NodesOf(walk)`prior
      ensures Valid()
      ensures fresh(result.node) && result.edge.Leading? && result.node.data == Some(x)
      ensures var w := old(walk);
        walk == WrapAt(w, IndexOf(w, first), IndexOf(w, last), result, TrailingOf(result))
      ensures cachedSize == if old(cachedSize != 0 || |walk| == 2) then old(cachedSize) + 1 else 0
    {
      ghost var w := walk;
      result := Insert(last, x);
      NewVisits(w, result.node);
      WrapByInsert(w, first, last, result, TrailingOf(result));
      if first == last { return; }
      hide Threaded, Filled, Rooted, WellNested, NodesOf, IndexOf, PutAt, WrapAt, InOrder, Between, Moved, Paste;
      var unused := Splice(TrailingOf(result), this, first, result, 0);
    }

    lemma ErasedWord(p: Position<T>, i: nat, j: nat)
      requires Valid() && 0 < i < j < |walk| - 1 && p in walk
      requires walk[i] == LeadingOf(p) && walk[j] == TrailingOf(p)
      ensures var w' := DropAt(walk, i, j);
        && w' == Without(walk, {p.node})
        && Filled(w', tail) && w'[0] == walk[0] && |w'| == |walk| - 2
        && AfterErased(walk, p) == (if p.edge.Leading? then w'[i] else w'[j - 1])
        && w'[j - 1] == walk[j + 1] && IndexOf(walk, p) == if p.edge.Leading? then i else j
    {
      hide WellNested, Threads.Ring;
      DropIsWithout(walk, i, j);
      FilledDropAt(walk, i, j, tail);
      IndexIsUnique(walk, i);
      IndexIsUnique(walk, j);
      assert DropAt(walk, i, j)[i] == if i + 1 < j then walk[i + 1] else walk[i + 2];
      NoThirdVisit(walk, i, j, i + 1);
      NoThirdVisit(walk, i, j, j + 1);
    }

    lemma Visits(p: Position<T>) returns (i: nat, j: nat)
      requires Valid() && p in walk && p.node != tail
      ensures 0 < i < j < |walk| - 1 && walk[i] == LeadingOf(p) && walk[j] == TrailingOf(p)
    {
      var k := IndexOf(walk, p);
      var l := Matching(walk, k);
      i, j := if p.edge.Leading? then k else l, if p.edge.Leading? then l else k;
      var j' := Closing(walk, i);
      SamePlace(walk, j, j');
    }

    lemma EmptyIffNoNodes()
      requires Valid()
      ensures Empty() <==> |walk| == 2
    {
      StepsFollowRing(walk, 0);
      SamePlace(walk, 1, |walk| - 1);
    }
  }

  /** `find_edge`: steps from `x` forward to the next visit with the given edge; past the end that is the root's. */
  method FindEdge<T>(x: Position<T>, edge: Edge, ghost f: Forest<T>, ghost i: nat)
    returns (y: Position<T>, ghost j: nat)
    requires f.Valid() && i <= |f.walk| && x == if i == |f.walk| then f.Root() else f.walk[i]
    requires edge.Trailing? ==> i < |f.walk|
    ensures f.Valid() && f.walk != [] && j == FindFrom(f.walk, i, edge) && y == f.walk[FindFrom(f.walk, i, edge)]
  {
    hide Threaded, Filled;
    f.BothEnds();
    y := x;
    ghost var k := i;
    while y.edge != edge
      invariant f.Valid() && k <= |f.walk| && y == if k == |f.walk| then f.Root() else f.walk[k]
      invariant edge.Trailing? ==> k < |f.walk|
      invariant FindFrom(f.walk, k, edge) == FindFrom(f.walk, i, edge)
      decreases |f.walk| - k
    {
      StepsFollowRing(f.walk, k);
      y, k := Next(y), k + 1;
    }
    j := if k == |f.walk| then 0 else k;
  }

  lemma NewPairIsLoose<T>(n: Node<T>)
    requires n.next == Ends(n, n) && n.prior == Ends(n, n)
    ensures Loose([Visit(n, Leading), Visit(n, Trailing)])
    ensures Next(Visit(n, Leading)) == Visit(n, Trailing)
  {
    var pair := [Visit(n, Leading), Visit(n, Trailing)];
    PairIsWellNested(n);
    assert pair[0] in pair && pair[1] in pair;
  }

  /** The visits of the subtree at `n`. */
  function Subtree<T>(w: Word<Node<T>>, n: Node<T>): Word<Node<T>> {
    var i, j := IndexOf(w, Visit(n, Leading)), IndexOf(w, Visit(n, Trailing));
    if i < j < |w| then w[i..j + 1] else []
  }

  function CutSubtree<T>(w: Word<Node<T>>, n: Node<T>): Word<Node<T>> {
    var i, j := IndexOf(w, Visit(n, Leading)), IndexOf(w, Visit(n, Trailing));
    if i < j < |w| then CutAt(w, i, j + 1) else w
  }

  function PutSubtree<T>(w: Word<Node<T>>, at: Position<T>, n: Node<T>): Word<Node<T>> {
    Paste(CutSubtree(w, n), at, Subtree(w, n))
  }

  /** The first visit after `position` that is not of its own node. */
  function AfterErased<T>(w: Word<Node<T>>, position: Position<T>): Position<T>
    requires position in w
  {
    var k := IndexOf(w, position) + 1;
    if k < |w| && w[k].node != position.node then w[k]
    else if k + 1 < |w| then w[k + 1] else position
  }

  /** Every node but the sentinel has a value. */
  ghost predicate Filled<T>(w: Word<Node<T>>, tail: Node<T>) {
    forall v | v in w && v.node != tail :: v.node.data.Some?
  }

  /** The same words, by index and by position. */
  lemma SplicedWords<A>(w: seq<A>, xw: seq<A>, base: seq<A>, position: A, first: A, last: A)
    requires InOrder(xw, first, last) && position in base
    ensures var i, j, at := IndexOf(xw, first), IndexOf(xw, last), IndexOf(base, position);
      && i <= j <= |xw| && at < |base| && base[at] == position && CutAt(xw, i, j) == Cut(xw, first, last)
      && PutAt(base, at, xw[i..j]) == Paste(base, position, Between(xw, first, last))
      && Paste(CutAt(xw, i, j), position, Between(xw, first, last)) == Moved(xw, position, first, last)
  {
  }

  lemma SplicedNodes<T>(xw: Word<Node<T>>, i: nat, j: nat, base: Word<Node<T>>, at: nat)
    requires Threaded(xw) && CanMove(xw, i, j, base, at)
    ensures var xw', w' := CutAt(xw, i, j), PutAt(base, at, xw[i..j]);
      && NodesOf(xw') <= NodesOf(xw)
      && (base != xw' ==> NodesOf(w') !! NodesOf(xw'))
  {
    CutNodesApart(xw, i, j);
    PutNodes(base, at, xw[i..j]);
  }

  lemma SplicedWalks<T>(xw: Word<Node<T>>, i: nat, j: nat, base: Word<Node<T>>, at: nat,
                        xTail: Node<T>, tail: Node<T>)
    requires Rooted(xw) && CanMove(xw, i, j, base, at)
    requires Filled(xw, xTail) && xw[0] == Visit(xTail, Leading)
    requires base != CutAt(xw, i, j) ==> Filled(base, tail)
    requires base == CutAt(xw, i, j) ==> tail == xTail
    ensures var xw', w' := CutAt(xw, i, j), PutAt(base, at, xw[i..j]);
      && Filled(xw', xTail) && xw'[0] == xw[0] && |xw'| == |xw| - |xw[i..j]|
      && Filled(w', tail) && w'[0] == base[0] && |w'| == |base| + |xw[i..j]|
  {
    SiblingsInside(xw, i, j);
    var s := xw[i..j];
    forall v | v in s ensures v.node != xTail {
      SiblingsApart(xw, i, j, i + IndexOf(s, v), 0);
    }
    assert forall v | v in CutAt(xw, i, j) :: v in xw;
    FilledPutAt(base, at, s, tail);
  }

  /** Where `k` steps round a circle of `n` places lead, from place 0. */
  function Around(k: nat, n: nat): (i: nat)
    requires 0 < n
    ensures i < n
  {
    if k == 0 then 0 else Succ(Around(k - 1, n), n)
  }

  lemma InnerIsWellNested<N>(w: Word<N>)
    requires Rooted(w)
    ensures WellNested(w[1..|w| - 1]) && w == [w[0]] + w[1..|w| - 1] + [w[|w| - 1]]
  {
    AllCovered(w);
  }

  lemma RootedPlaces<N>(w: Word<N>, i: nat, j: nat)
    requires Rooted(w) && i < |w| && j < |w|
    ensures w[i] == w[j] <==> i == j
  {
    SamePlace(w, i, j);
  }

  lemma WithoutNodes<T>(w: Word<Node<T>>, gone: set<Node<T>>)
    ensures NodesOf(Without(w, gone)) <= NodesOf(w)
  {
    var w' := Without(w, gone);
    forall n | n in NodesOf(w') ensures n in NodesOf(w) {
      var v :| v in w' && v.node == n;
      StillThere(w, gone, v);
    }
  }

  lemma StillThere<N>(w: Word<N>, gone: set<N>, v: Visit<N>)
    requires v in Without(w, gone)
    ensures v in w
  {
    WithoutMembers(w, gone);
  }

  lemma WrapByInsert<T>(w: Word<Node<T>>, first: Position<T>, last: Position<T>, r: Position<T>, t: Position<T>)
    requires Rooted(w) && InOrder(w, first, last) && r !in w && t !in w && r != t
    requires last != w[0]
    ensures var w1, i, j := Paste(w, last, [r, t]), IndexOf(w, first), IndexOf(w, last);
      && (first == last ==> w1 == WrapAt(w, i, j, r, t))
      && (first != last ==>
            && InOrder(w1, first, r) && Between(w1, first, r) == Between(w, first, last)
            && t in w1 && t != w1[0] && t !in Between(w1, first, r)
            && Moved(w1, t, first, r) == WrapAt(w, i, j, r, t))
  {
    var i, j := IndexOf(w, first), IndexOf(w, last);
    PutAtMembers(w, j, [r, t]);
    if first != last { WrapByMove(w, i, j, r, t); }
  }

  lemma PairNodes<T>(w: Word<Node<T>>, at: nat, r: Position<T>, added: set<Node<T>>)
    requires at <= |w| && r.edge.Leading? && added == {r.node}
    ensures var pair := [r, TrailingOf(r)];
      NodesOf(pair) == added && NodesOf(PutAt(w, at, pair)) == NodesOf(w) + added
  {
    var pair := [r, TrailingOf(r)];
    PutNodes(w, at, pair);
    assert pair[0] in pair && forall v | v in pair :: v.node == r.node;
  }

  lemma SplicedLengths<N>(w: Word<N>, xw: Word<N>, position: Visit<N>, first: Visit<N>, last: Visit<N>)
    requires Rooted(w) && Rooted(xw) && InOrder(xw, first, last) && first != last
    requires WellNested(Between(xw, first, last))
    ensures var n := |Between(xw, first, last)| / 2;
      && 0 < n <= NodeCount(xw)
      && NodeCount(Moved(w, position, first, last)) == NodeCount(w)
      && NodeCount(Cut(xw, first, last)) == NodeCount(xw) - n
      && NodeCount(Paste(w, position, Between(xw, first, last))) == NodeCount(w) + n
  {
    hide Distinct, WellNested, IndexOf, Moved, Cut, Paste, Between;
    EvenLength(w);
    EvenLength(xw);
    EvenLength(Between(xw, first, last));
    Lengths(w, xw, position, first, last);
    RangeInside(xw, first, last);
  }

  lemma Lengths<A>(w: seq<A>, xw: seq<A>, position: A, first: A, last: A)
    ensures |Moved(w, position, first, last)| == |w|
    ensures |Cut(xw, first, last)| == |xw| - |Between(xw, first, last)|
    ensures |Paste(w, position, Between(xw, first, last))| == |w| + |Between(xw, first, last)|
  {
    hide IndexOf;
  }

  lemma RangeInside<N>(xw: Word<N>, first: Visit<N>, last: Visit<N>)
    requires Rooted(xw) && InOrder(xw, first, last) && first != last && WellNested(Between(xw, first, last))
    ensures 0 < |Between(xw, first, last)| <= |xw| - 2
  {
    hide Distinct, WellNested, IndexOf;
    SiblingsInside(xw, IndexOf(xw, first), IndexOf(xw, last));
  }

  lemma ApartWordsDiffer<T>(w: Word<Node<T>>, w': Word<Node<T>>, nodes: set<Node<T>>)
    requires w != [] && NodesOf(w) !! nodes && NodesOf(w') <= nodes
    ensures w != w'
  {
    assert w[0].node in NodesOf(w);
  }

  lemma NewRoot<T>(n: Node<T>)
    requires n.next == Ends(n, n) && n.prior == Ends(n, n)
    ensures var w := [Visit(n, Leading), Visit(n, Trailing)];
      Threaded(w) && Filled(w, n) && NodesOf(w) == {n}
  {
    var w := [Visit(n, Leading), Visit(n, Trailing)];
    NewPairIsLoose(n);
    assert w[0] in w && w[1] in w;
    assert NodesOf(w) == {n};
  }

  lemma NodesAllocated<T>(w: Word<Node<T>>)
    ensures forall n | n in NodesOf(w) :: allocated(n)
  {
  }

  lemma NewVisits<T>(w: Word<Node<T>>, n: Node<T>)
    requires n !in NodesOf(w)
    ensures forall v | v in [Visit(n, Leading), Visit(n, Trailing)] :: v !in w
  {
  }

  lemma FilledDropAt<T>(w: Word<Node<T>>, i: nat, j: nat, tail: Node<T>)
    requires 0 < i < j < |w| && Filled(w, tail)
    ensures var w' := DropAt(w, i, j); Filled(w', tail) && w'[0] == w[0] && |w'| == |w| - 2
  {
  }

  lemma FilledPutAt<T>(w: Word<Node<T>>, at: nat, s: Word<Node<T>>, tail: Node<T>)
    requires 0 < at < |w| && Filled(w, tail) && Filled(s, tail)
    ensures var w' := PutAt(w, at, s); Filled(w', tail) && w'[0] == w[0] && |w'| == |w| + |s|
  {
    PutAtMembers(w, at, s);
  }

  /** The nodes of a forest other than its root. */
  function NodeCount<N>(w: Word<N>): nat {
    if |w| < 2 then 0 else (|w| - 2) / 2
  }

  // ---------------------------------------------------------------------------
  // A range that stops inside a node

  method OneNode<T>(v: T) returns (z: Forest<T>, n: Position<T>)
    ensures fresh(z) && fresh(NodesOf(z.walk)) && z.Valid()
    ensures z.walk == [z.Root(), n, TrailingOf(n), z.End()] && n.edge.Leading? && n.node.data == Some(v)
  {
    hide Threaded, Filled, WellNested, Paste;
    z := new Forest();
    assert fresh(NodesOf(z.walk));
    z.BothEnds();
    EndApart(z);
    ghost var w := z.walk;
    ghost var nodes := NodesOf(w);
    assert fresh(nodes);
    n := z.Insert(z.End(), v);
    PastedBetween(z.Root(), z.End(), [n, TrailingOf(n)]);
    assert fresh(NodesOf(z.walk) - nodes);
    assert NodesOf(z.walk) <= nodes + (NodesOf(z.walk) - nodes);
  }

  lemma Pasted<A>(w: seq<A>, at: A, s: seq<A>)
    ensures |Paste(w, at, s)| == |w| + |s|
  {
  }

  lemma PastedBetween<A>(a: A, b: A, s: seq<A>)
    requires a != b
    ensures Paste([a, b], b, s) == [a] + s + [b]
  {
    assert [a, b][1..] == [b];
  }

  lemma EndApart<T>(z: Forest<T>)
    requires z.Valid()
    ensures z.End() in z.walk && z.End() != z.Root()
  {
  }

  /** The range from a node's leading to its trailing visit visits the node, and erasing that range erases nothing. */
  method HalfCoveredStays<T>(v: T) returns (z: Forest<T>, n: Position<T>)
    ensures z.Valid() && z.walk == [z.Root(), n, TrailingOf(n), z.End()] && n.node.data == Some(v)
    ensures n in Between(z.walk, n, TrailingOf(n)) && !Gone(z.walk, n.node)
  {
    hide Threaded, Filled, WellNested, Covered, Without, Between, InOrder, Gone;
    z, n := OneNode(v);
    z.BothEnds();
    z.OnePlace(1, 2);
    z.FoundAt(1);
    z.FoundAt(2);
    HalfCovered(z.walk);
    var unused := z.EraseRange(n, TrailingOf(n));
  }
}
