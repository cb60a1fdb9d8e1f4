/** The walk of a forest without the subtrees whose root a predicate rejects: the filter iterator, forwards and
    backwards. */
module Filters {
  import opened Basics
  import opened Walks
  import opened Edits
  import opened Nodes
  import opened TreeWalks
  import opened Container

  predicate Keeps<T>(n: Node<T>, p: T -> bool) {
    n.data.Some? ==> p(n.data.value)
  }

  /** Drops every subtree whose root `p` rejects. */
  function Prune<T>(ts: Trees<Node<T>>, p: T -> bool): Trees<Node<T>> {
    match ts
    case Bare => Bare
    case Grow(n, cs, rest) =>
      if Keeps(n, p) then Grow(n, Prune(cs, p), Prune(rest, p)) else Prune(rest, p)
  }

  /** Where one leads that starts at index `k` and steps over whole rejected subtrees, but not on from `stop`. */
  function SkipTo<T>(w: Word<Node<T>>, k: nat, stop: nat, p: T -> bool): (j: nat)
    requires k < |w|
    ensures k <= j < |w|
    decreases |w| - k
  {
    if w[k].edge.Trailing? || k == stop || Keeps(w[k].node, p) then k else
      var j := IndexOf(w, TrailingOf(w[k]));
      if k < j < |w| - 1 then SkipTo(w, j + 1, stop, p) else k
  }

  /** The same, backwards. */
  function SkipBackTo<T>(w: Word<Node<T>>, k: nat, stop: nat, p: T -> bool): (j: nat)
    requires k < |w|
    ensures j <= k
    decreases k
  {
    if w[k].edge.Leading? || k == stop || Keeps(w[k].node, p) then k else
      var i := IndexOf(w, LeadingOf(w[k]));
      if 0 < i < k then SkipBackTo(w, i - 1, stop, p) else k
  }

  /** What is visited by one who starts at index `k`, up to the end. */
  function Unskipped<T>(w: Word<Node<T>>, k: nat, p: T -> bool): Word<Node<T>>
    requires k < |w|
    decreases |w| - k, 1
  {
    Ahead(w, SkipTo(w, k, |w| - 1, p), p)
  }

  /** The same for one who has already skipped what there is to skip at `k`. */
  function Ahead<T>(w: Word<Node<T>>, k: nat, p: T -> bool): Word<Node<T>>
    requires k < |w|
    decreases |w| - k, 0
  {
    if k == |w| - 1 then [] else [w[k]] + Unskipped(w, k + 1, p)
  }

  /** Where an iterator stands: its index, and the indices at which its range begins and ends. */
  datatype Spot = Spot(k: nat, first: nat, last: nat)

  class FilterIterator<T> {
    var x: Position<T>
    var inside: bool
    const first: Position<T>
    const last: Position<T>
    const keep: T -> bool

    constructor (i: Position<T>, l: Position<T>, p: T -> bool, ghost f: Forest<T>, ghost k: nat, ghost b: nat)
      requires f.Valid() && 0 < k < |f.walk| && i == f.walk[k] && 0 < b < |f.walk| && l == f.walk[b]
      ensures At(f, Spot(SkipTo(f.walk, k, b, p), k, b)) && inside && keep == p
    {
      hide Threaded, Filled, Rooted, SkipTo, NodesOf;
      var start := SkipForward(i, l, p, f, k, b);
      x := start;
      inside := true;
      first, last, keep := i, l, p;
      new;
      ThreadedStays(f.walk);
    }

    /** The iterator stands at a spot of `f`.  Its range may be any, but does not begin or end at the root's leading
        position. */
    ghost predicate At(f: Forest<T>, s: Spot)
      reads this, f, NodesOf(f.walk)
    {
      && f.Valid() && s.k < |f.walk| && x == f.walk[s.k]
      && 0 < s.first < |f.walk| && first == f.walk[s.first]
      && 0 < s.last < |f.walk| && last == f.walk[s.last]
    }

    /** Whether `++` filters the position it comes to. */
    ghost predicate FiltersNext(f: Forest<T>, s: Spot)
      requires At(f, s)
      reads this, f, NodesOf(f.walk)
    {
      (inside && s.k != s.last) || Succ(s.k, |f.walk|) == s.first
    }

    ghost predicate FiltersPrior(f: Forest<T>, s: Spot)
      requires At(f, s)
      reads this, f, NodesOf(f.walk)
    {
      (inside && s.k != s.first) || Pred(s.k, |f.walk|) == s.last
    }

    /** `++`; the root has no value that the predicate could be asked about. */
    method Increment(ghost f: Forest<T>, ghost s: Spot)
      requires At(f, s) && (FiltersNext(f, s) ==> s.k != |f.walk| - 1)
      modifies this
      ensures inside == old(FiltersNext(f, s)) == old((inside && x != last) || Next(x) == first)
      ensures At(f, s.(k := if inside then SkipTo(f.walk, s.k + 1, s.last, keep) else Succ(s.k, |f.walk|)))
    {
      hide Threaded, Filled, Rooted, SkipTo, NodesOf;
      f.BothEnds();
      f.OnePlace(s.k, s.last);
      StepsFollowRing(f.walk, s.k);
      f.OnePlace(Succ(s.k, |f.walk|), s.first);
      var i := x;
      if i == last { inside := false; }
      i := Next(i);
      if i == first { inside := true; }
      ThreadedStays(f.walk);
      if inside { i := SkipForward(i, last, keep, f, s.k + 1, s.last); }
      x := i;
      ThreadedStays(f.walk);
    }

    /** `--` */
    method Decrement(ghost f: Forest<T>, ghost s: Spot)
      requires At(f, s) && (FiltersPrior(f, s) && s.k == 0 ==> s.first == |f.walk| - 1)
      modifies this
      ensures inside == old(FiltersPrior(f, s)) == old((inside && x != first) || Prev(x) == last)
      ensures At(f, s.(k := var j := Pred(s.k, |f.walk|); if inside then SkipBackTo(f.walk, j, s.first, keep) else j))
    {
      hide Threaded, Filled, Rooted, SkipBackTo, NodesOf, Next, IndexOf;
      f.BothEnds();
      f.OnePlace(s.k, s.first);
      StepsFollowRing(f.walk, s.k);
      ghost var j := Pred(s.k, |f.walk|);
      f.OnePlace(j, s.last);
      var i := x;
      if i == first { inside := false; }
      i := Prev(i);
      if i == last { inside := true; }
      ThreadedStays(f.walk);
      if inside { i := SkipBackward(first, i, keep, f, j, s.first); }
      x := i;
      ThreadedStays(f.walk);
    }
  }

  method SkipForward<T>(f: Position<T>, l: Position<T>, p: T -> bool, ghost o: Forest<T>, ghost k: nat, ghost b: nat)
    returns (r: Position<T>)
    requires o.Valid() && 0 < k < |o.walk| && f == o.walk[k] && b < |o.walk| && l == o.walk[b]
    ensures o.Valid() && r == o.walk[SkipTo(o.walk, k, b, p)]
  {
    hide Threaded, Filled, Rooted, SkipTo;
    r := f;
    ghost var i := k;
    SkipStep(o, i, b, p);
    o.OnePlace(i, b);
    while r.edge.Leading? && r != l && !p(r.node.data.value)
      invariant o.Valid() && 0 < i < |o.walk| && r == o.walk[i]
      invariant Stepping(o.walk, i, b, p) && (r == l <==> i == b)
      invariant SkipTo(o.walk, i, b, p) == SkipTo(o.walk, k, b, p)
      decreases |o.walk| - i
    {
      i := IndexOf(o.walk, TrailingOf(r));
      StepsFollowRing(o.walk, i);
      r, i := Next(TrailingOf(r)), i + 1;
      SkipStep(o, i, b, p);
      o.OnePlace(i, b);
    }
  }

  /** What one round of `SkipForward` meets and does. */
  ghost predicate Stepping<T>(w: Word<Node<T>>, i: nat, b: nat, p: T -> bool)
    requires i < |w|
  {
    if w[i].edge.Leading? then
      var j := IndexOf(w, TrailingOf(w[i]));
      && w[i].node.data.Some? && i < j < |w| - 1 && w[j] == TrailingOf(w[i])
      && SkipTo(w, i, b, p) == if i == b || p(w[i].node.data.value) then i else SkipTo(w, j + 1, b, p)
    else SkipTo(w, i, b, p) == i
  }

  lemma SkipStep<T>(f: Forest<T>, i: nat, b: nat, p: T -> bool)
    requires f.Valid() && 0 < i < |f.walk|
    ensures Stepping(f.walk, i, b, p)
  {
    hide Threaded, Filled, WellNested, Distinct;
    f.BothEnds();
    if f.walk[i].edge.Leading? {
      f.InnerVisit(i);
      var j := ClosesAt(f.walk, i);
    }
  }

  method SkipBackward<T>(f: Position<T>, l: Position<T>, p: T -> bool, ghost o: Forest<T>, ghost k: nat, ghost a: nat)
    returns (r: Position<T>)
    requires o.Valid() && k < |o.walk| && l == o.walk[k] && a < |o.walk| && f == o.walk[a]
    requires k == |o.walk| - 1 ==> a == k
    ensures o.Valid() && r == o.walk[SkipBackTo(o.walk, k, a, p)]
  {
    hide Threaded, Filled, Rooted, SkipBackTo;
    r := l;
    ghost var i: nat := k;
    SkipBackStep(o, i, a, p);
    o.OnePlace(i, a);
    while r.edge.Trailing? && f != r && !p(r.node.data.value)
      invariant o.Valid() && i < |o.walk| && r == o.walk[i] && (i == |o.walk| - 1 ==> a == i)
      invariant SteppingBack(o.walk, i, a, p) && (f == r <==> i == a)
      invariant SkipBackTo(o.walk, i, a, p) == SkipBackTo(o.walk, k, a, p)
      decreases i
    {
      i := IndexOf(o.walk, LeadingOf(r));
      StepsFollowRing(o.walk, i);
      r, i := Prev(LeadingOf(r)), i - 1;
      SkipBackStep(o, i, a, p);
      o.OnePlace(i, a);
    }
  }

  ghost predicate SteppingBack<T>(w: Word<Node<T>>, j: nat, a: nat, p: T -> bool)
    requires j < |w|
  {
    if w[j].edge.Trailing? && j != a && j < |w| - 1 then
      var i := IndexOf(w, LeadingOf(w[j]));
      && w[j].node.data.Some? && 0 < i < j && w[i] == LeadingOf(w[j])
      && SkipBackTo(w, j, a, p) == if p(w[j].node.data.value) then j else SkipBackTo(w, i - 1, a, p)
    else w[j].edge.Leading? || j == a ==> SkipBackTo(w, j, a, p) == j
  }

  lemma SkipBackStep<T>(f: Forest<T>, j: nat, a: nat, p: T -> bool)
    requires f.Valid() && j < |f.walk|
    ensures SteppingBack(f.walk, j, a, p)
  {
    hide Threaded, Filled, WellNested, Distinct;
    f.BothEnds();
    if f.walk[j].edge.Trailing? && j < |f.walk| - 1 {
      f.InnerVisit(j);
      var i := OpensAt(f.walk, j);
    }
  }

  /** Skipping forward and then back over the same gap ends where skipping back from its beginning would; unless the
      range begins on a trailing position, which stops one who skips back. */
  lemma {:induction false} SkipBackUndoesSkip<T>(w: Word<Node<T>>, k: nat, a: nat, b: nat, p: T -> bool)
    requires Rooted(w) && 0 < k < |w| && a < |w| && w[a].edge.Leading?
    ensures var j := SkipTo(w, k, b, p);
      k <= j && SkipBackTo(w, j - 1, a, p) == SkipBackTo(w, k - 1, a, p)
    decreases |w| - k
  {
    hide Rooted, IndexOf;
    if w[k].edge.Leading? && k != b && !Keeps(w[k].node, p) {
      var j := ClosesAt(w, k);
      SkipBackUndoesSkip(w, j + 1, a, b, p);
    }
  }

  /** `--` after `++`, at a visit that is not skipped, for an iterator inside a range that begins on a leading
      position. */
  lemma FilterDecrementUndoesIncrement<T>(w: Word<Node<T>>, s: Spot, p: T -> bool)
    requires Rooted(w) && 0 < s.k < |w| - 1 && Keeps(w[s.k].node, p)
    requires s.first < |w| && w[s.first].edge.Leading?
    ensures SkipBackTo(w, SkipTo(w, s.k + 1, s.last, p) - 1, s.first, p) == s.k
  {
    hide Rooted, SkipTo;
    SkipBackUndoesSkip(w, s.k + 1, s.first, s.last, p);
  }

  /** Where the node opened at `k` is closed. */
  lemma ClosesAt<N>(w: Word<N>, k: nat) returns (j: nat)
    requires Rooted(w) && 0 < k < |w| && w[k].edge.Leading?
    ensures k < j < |w| - 1 && w[j] == Visit(w[k].node, Trailing)
    ensures IndexOf(w, w[j]) == j && IndexOf(w, w[k]) == k
  {
    j := Closing(w, k);
    PlacesAt(w, k, j);
  }

  lemma OpensAt<N>(w: Word<N>, j: nat) returns (k: nat)
    requires Rooted(w) && j < |w| - 1 && w[j].edge.Trailing?
    ensures 0 < k < j && w[k] == Visit(w[j].node, Leading)
    ensures IndexOf(w, w[j]) == j && IndexOf(w, w[k]) == k
  {
    k := Opening(w, j);
    PlacesAt(w, k, j);
  }

  lemma PlacesAt<N>(w: Word<N>, k: nat, j: nat)
    requires Rooted(w) && k < j < |w| && w[k].edge.Leading? && w[j] == Visit(w[k].node, Trailing)
    ensures IndexOf(w, w[j]) == j && IndexOf(w, w[k]) == k
    ensures k == 0 <==> j == |w| - 1
  {
    hide WellNested;
    IndexIsUnique(w, j);
    IndexIsUnique(w, k);
    SamePlace(w, 0, k);
    SamePlace(w, j, |w| - 1);
  }

  // ---------------------------------------------------------------------------
  // The filtered range is the walk of the pruned forest

  /** A stretch of the walk that is the walk of `ts` is passed as the walk of `ts` pruned. */
  lemma {:induction false} UnskippedIsPruned<T>(w: Word<Node<T>>, k: nat, ts: Trees<Node<T>>, p: T -> bool)
    requires Rooted(w) && 0 < k && k + |WalkOf(ts)| < |w| && w[k..k + |WalkOf(ts)|] == WalkOf(ts)
    ensures Unskipped(w, k, p) == WalkOf(Prune(ts, p)) + Unskipped(w, k + |WalkOf(ts)|, p)
    decreases ts
  {
    hide Rooted, Unskipped, WalkOf;
    if ts.Bare? {
      WalkUnrolled(ts, []);
      WalkUnrolled(Prune(ts, p), Unskipped(w, k, p));
    } else {
      var j, m := TreeAt(w, k, ts);
      UnskippedIsPruned(w, j + 1, ts.rest, p);
      if Keeps(ts.root, p) {
        UnskippedIsPruned(w, k + 1, ts.children, p);
        UnskippedKept(w, k, p);
        UnskippedKept(w, j, p);
        WalkUnrolled(Prune(ts, p), Unskipped(w, m, p));
      } else {
        UnskippedDropped(w, k, j, p);
      }
    }
  }

  lemma UnskippedKept<T>(w: Word<Node<T>>, k: nat, p: T -> bool)
    requires k < |w| - 1 && (w[k].edge.Trailing? || Keeps(w[k].node, p))
    ensures Unskipped(w, k, p) == [w[k]] + Unskipped(w, k + 1, p)
  {
  }

  lemma UnskippedDropped<T>(w: Word<Node<T>>, k: nat, j: nat, p: T -> bool)
    requires k < j < |w| - 1 && w[k].edge.Leading? && !Keeps(w[k].node, p)
    requires j == IndexOf(w, TrailingOf(w[k]))
    ensures Unskipped(w, k, p) == Unskipped(w, j + 1, p)
  {
    hide Ahead;
  }

  /** The indices at which a forward pass has stood. */
  ghost predicate Trail<T>(w: Word<Node<T>>, ks: seq<nat>, p: T -> bool) {
    && |w| >= 2 && ks != [] && 0 < ks[0] && (forall i: nat | i < |ks| :: ks[i] < |w|)
    && forall i: nat | i + 1 < |ks| :: TrailStep(w, ks[i], ks[i + 1], p)
  }

  ghost predicate TrailStep<T>(w: Word<Node<T>>, k: nat, next: nat, p: T -> bool) {
    0 < k < |w| - 1 && next == SkipTo(w, k + 1, |w| - 1, p)
  }

  /** What a forward pass has visited on its trail, when `all` is what it visits in the end. */
  ghost predicate Walked<T>(w: Word<Node<T>>, ks: seq<nat>, there: Word<Node<T>>, all: Word<Node<T>>, p: T -> bool) {
    && Trail(w, ks, p) && |there| + 1 == |ks| && Along(w, ks, there)
    && there + Ahead(w, ks[|there|], p) == all
  }

  ghost predicate Along<T>(w: Word<Node<T>>, ks: seq<nat>, there: Word<Node<T>>) {
    |there| <= |ks| && forall i: nat | i < |there| :: ks[i] < |w| && there[i] == w[ks[i]]
  }

  lemma AlongOn<T>(w: Word<Node<T>>, ks: seq<nat>, there: Word<Node<T>>, next: nat)
    requires Along(w, ks, there) && |ks| == |there| + 1 && ks[|there|] < |w|
    ensures Along(w, ks + [next], there + [w[ks[|there|]]])
  {
  }

  lemma WalkedNowhere<T>(w: Word<Node<T>>, p: T -> bool)
    requires |w| >= 2
    ensures var k := SkipTo(w, 1, |w| - 1, p); Walked(w, [k], [], Ahead(w, k, p), p)
  {
    hide SkipTo, Ahead;
    assert [] + Ahead(w, SkipTo(w, 1, |w| - 1, p), p) == Ahead(w, SkipTo(w, 1, |w| - 1, p), p);
  }

  lemma WalkedOn<T>(w: Word<Node<T>>, ks: seq<nat>, there: Word<Node<T>>, all: Word<Node<T>>, p: T -> bool)
    requires Walked(w, ks, there, all, p)
    ensures |there| < |ks| && 0 < ks[|there|] < |w|
    ensures ks[|there|] == |w| - 1 ==> there == all
    ensures var k := ks[|there|];
      k < |w| - 1 ==> Walked(w, ks + [SkipTo(w, k + 1, |w| - 1, p)], there + [w[k]], all, p)
  {
    hide SkipTo, Trail, Ahead, Along;
    TrailOn(w, ks, p);
    AheadOn(w, ks[|there|], p);
    if ks[|there|] < |w| - 1 {
      AlongOn(w, ks, there, SkipTo(w, ks[|there|] + 1, |w| - 1, p));
      Regroup(there, [w[ks[|there|]]], Ahead(w, SkipTo(w, ks[|there|] + 1, |w| - 1, p), p));
    }
  }

  lemma Regroup<A>(a: seq<A>, b: seq<A>, c: seq<A>)
    ensures a + (b + c) == (a + b) + c
  {
  }

  lemma AheadOn<T>(w: Word<Node<T>>, k: nat, p: T -> bool)
    requires k < |w|
    ensures k == |w| - 1 ==> Ahead(w, k, p) == []
    ensures k < |w| - 1 ==> Ahead(w, k, p) == [w[k]] + Ahead(w, SkipTo(w, k + 1, |w| - 1, p), p)
  {
    hide SkipTo;
  }

  lemma TrailOn<T>(w: Word<Node<T>>, ks: seq<nat>, p: T -> bool)
    requires Trail(w, ks, p)
    ensures var k := ks[|ks| - 1]; 0 < k < |w| && (k < |w| - 1 ==> Trail(w, ks + [SkipTo(w, k + 1, |w| - 1, p)], p))
  {
    hide SkipTo;
    TrailRises(w, ks, |ks| - 1, p);
    var k := ks[|ks| - 1];
    if k < |w| - 1 {
      var on := ks + [SkipTo(w, k + 1, |w| - 1, p)];
      forall i: nat | i + 1 < |on| ensures TrailStep(w, on[i], on[i + 1], p) {
        if i + 1 < |ks| { assert TrailStep(w, ks[i], ks[i + 1], p); }
      }
    }
  }

  lemma {:induction false} TrailRises<T>(w: Word<Node<T>>, ks: seq<nat>, m: nat, p: T -> bool)
    requires Trail(w, ks, p) && m < |ks|
    ensures m > 0 ==> ks[0] < ks[m]
    decreases m
  {
    if m > 0 {
      TrailRises(w, ks, m - 1, p);
      assert TrailStep(w, ks[m - 1], ks[m - 1 + 1], p);
    }
  }

  /** A forward pass up to `last`. */
  method FilterThere<T>(f: Forest<T>, it: FilterIterator<T>, last: Position<T>,
                        ghost from: seq<nat>, ghost all: Word<Node<T>>)
    returns (there: seq<Position<T>>, ghost ks: seq<nat>)
    requires last == f.End()
    requires |from| == 1 && it.inside && Walked(f.walk, from, [], all, it.keep)
    requires it.At(f, Spot(from[0], 1, |f.walk| - 1))
    modifies it
    ensures it.inside && Walked(f.walk, ks, there, all, it.keep) && there == all
    ensures it.At(f, Spot(|f.walk| - 1, 1, |f.walk| - 1))
    ensures |ks| == |there| + 1 && ks[|there|] == |f.walk| - 1 && ks[0] == from[0]
  {
    hide Threaded, Filled, Rooted, SkipTo, NodesOf, Ahead, Walked, NodeCount;
    ks, there := from, [];
    WalkedOn(f.walk, ks, there, all, it.keep);
    while it.x != last
      invariant |ks| == |there| + 1 && ks[0] == from[0] && Walked(f.walk, ks, there, all, it.keep)
      invariant it.inside && it.At(f, Spot(ks[|there|], 1, |f.walk| - 1))
      decreases |f.walk| - ks[|there|]
    {
      ghost var k := ks[|there|];
      EndIsLast(f, k);
      WalkedOn(f.walk, ks, there, all, it.keep);
      there := there + [it.x];
      it.Increment(f, Spot(k, 1, |f.walk| - 1));
      ks := ks + [SkipTo(f.walk, k + 1, |f.walk| - 1, it.keep)];
    }
    EndIsLast(f, ks[|there|]);
    WalkedOn(f.walk, ks, there, all, it.keep);
  }

  lemma EndIsLast<T>(f: Forest<T>, k: nat)
    requires f.Valid() && k < |f.walk|
    ensures |f.walk| >= 2 && (f.walk[k] == f.End() <==> k == |f.walk| - 1)
  {
    hide Threaded, Filled, Rooted;
    f.BothEnds();
    f.OnePlace(k, |f.walk| - 1);
  }

  /** The filtered range of a forest. */
  method FilterRange<T>(f: Forest<T>, p: T -> bool) returns (visited: seq<Position<T>>)
    requires f.Valid()
    ensures f.Valid() && visited == WalkOf(Prune(f.Shape(), p))
  {
    hide Threaded, Filled, Rooted, SkipTo, NodesOf, Prune, Ahead, WalkOf, NodeCount, Walked;
    FilterStart(f, p);
    WalkedNowhere(f.walk, p);
    ghost var end := |f.walk| - 1;
    var first := new FilterIterator(f.Begin(), f.End(), p, f, 1, end);
    var last := new FilterIterator(f.End(), f.End(), p, f, end, end);
    ghost var unused;
    visited, unused := FilterThere(f, first, last.x, [SkipTo(f.walk, 1, end, p)], WalkOf(Prune(f.Shape(), p)));
  }

  lemma FilterStart<T>(f: Forest<T>, p: T -> bool)
    requires f.Valid()
    ensures |f.walk| >= 2 && f.Begin() == f.walk[1] && f.End() == f.walk[|f.walk| - 1]
    ensures SkipTo(f.walk, |f.walk| - 1, |f.walk| - 1, p) == |f.walk| - 1
    ensures Ahead(f.walk, SkipTo(f.walk, 1, |f.walk| - 1, p), p) == WalkOf(Prune(f.Shape(), p))
  {
    hide Threaded, Filled, Rooted, SkipTo, Ahead, Prune, WalkOf;
    f.BothEnds();
    StepsFollowRing(f.walk, 0);
    var ts := f.Shape();
    assert f.walk[1..1 + |WalkOf(ts)|] == WalkOf(ts);
    UnskippedIsPruned(f.walk, 1, ts, p);
    NothingAtEnd(f.walk, p);
  }

  lemma NothingAtEnd<T>(w: Word<Node<T>>, p: T -> bool)
    requires |w| >= 2 && w[|w| - 1].edge.Trailing?
    ensures SkipTo(w, |w| - 1, |w| - 1, p) == |w| - 1 && Unskipped(w, |w| - 1, p) == []
  {
  }

  // ---------------------------------------------------------------------------
  // Backwards

  /** The trees from the first one on whose root `p` keeps. */
  function AfterRejected<T>(ts: Trees<Node<T>>, p: T -> bool): Trees<Node<T>> {
    if ts.Grow? && !Keeps(ts.root, p) then AfterRejected(ts.rest, p) else ts
  }

  predicate AllKept<T>(ts: Trees<Node<T>>, p: T -> bool) {
    ts.Grow? ==> Keeps(ts.root, p) && AllKept(ts.children, p) && AllKept(ts.rest, p)
  }

  /** The backward pass over a filtered range, from its end to its beginning.  The end iterator's own range is empty,
      so that it leaves it with the first step and asks the predicate about nothing. */
  method FilterRangeBackward<T>(f: Forest<T>, p: T -> bool) returns (visited: seq<Position<T>>)
    requires f.Valid()
    ensures f.Valid() && visited == WalkOf(AfterRejected(f.Shape(), p))
  {
    hide Threaded, Filled, Rooted, SkipTo, NodesOf, AfterRejected, WalkOf, NodeCount, FilterIterator.At;
    FilterStart(f, p);
    ghost var end := |f.walk| - 1;
    var first := new FilterIterator(f.Begin(), f.End(), p, f, 1, end);
    ghost var start := SkipTo(f.walk, 1, end, p);
    StandsAt(f, first, Spot(start, 1, end));
    var last := new FilterIterator(f.End(), f.End(), p, f, end, end);
    ghost var k: nat := end;
    StandsAt(f, last, Spot(k, end, end));
    visited := [];
    while last.x != first.x
      invariant f.Valid() && start <= k <= end && last.At(f, Spot(k, end, end)) && last.x == f.walk[k] && fresh(last)
      invariant first.x == f.walk[start] && (last.inside ==> k == end)
      invariant visited == f.walk[k..end]
      decreases k
    {
      f.OnePlace(k, start);
      BackOnce(f, last, k);
      k := k - 1;
      visited := [last.x] + visited;
    }
    f.OnePlace(k, start);
    BeginsAfterRejected(f, p);
  }

  lemma StandsAt<T>(f: Forest<T>, it: FilterIterator<T>, s: Spot)
    requires it.At(f, s)
    ensures f.Valid() && s.k < |f.walk| && it.x == f.walk[s.k]
  {
  }

  /** One step back with an iterator whose range is empty and stands at the end. */
  method BackOnce<T>(f: Forest<T>, it: FilterIterator<T>, ghost k: nat)
    requires 0 < k < |f.walk| && it.At(f, Spot(k, |f.walk| - 1, |f.walk| - 1)) && (it.inside ==> k == |f.walk| - 1)
    modifies it
    ensures it.At(f, Spot(k - 1, |f.walk| - 1, |f.walk| - 1)) && !it.inside && f.Valid() && it.x == f.walk[k - 1]
  {
    hide Threaded, Filled, Rooted, SkipBackTo, NodesOf;
    it.Decrement(f, Spot(k, |f.walk| - 1, |f.walk| - 1));
  }

  lemma BeginsAfterRejected<T>(f: Forest<T>, p: T -> bool)
    requires f.Valid() && |f.walk| >= 2
    ensures f.walk[SkipTo(f.walk, 1, |f.walk| - 1, p)..|f.walk| - 1] == WalkOf(AfterRejected(f.Shape(), p))
  {
    hide Threaded, Filled, Rooted, SkipTo, AfterRejected, WalkOf;
    f.BothEnds();
    var ts := f.Shape();
    assert f.walk[1..1 + |WalkOf(ts)|] == WalkOf(ts);
    SkipsRejected(f.walk, 1, ts, p);
  }

  lemma {:induction false} SkipsRejected<T>(w: Word<Node<T>>, k: nat, ts: Trees<Node<T>>, p: T -> bool)
    requires Rooted(w) && 0 < k && k + |WalkOf(ts)| == |w| - 1 && w[k..k + |WalkOf(ts)|] == WalkOf(ts)
    ensures w[SkipTo(w, k, |w| - 1, p)..|w| - 1] == WalkOf(AfterRejected(ts, p))
    decreases ts
  {
    hide Rooted, WalkOf;
    if ts.Bare? {
      WalkUnrolled(ts, []);
    } else {
      var j, m := TreeAt(w, k, ts);
      if !Keeps(ts.root, p) { SkipsRejected(w, j + 1, ts.rest, p); }
    }
  }

  /** When the backward pass is right: exactly when nothing is rejected behind the trees skipped at the beginning. */
  lemma BackwardRightExactly<T>(ts: Trees<Node<T>>, p: T -> bool)
    ensures WalkOf(AfterRejected(ts, p)) == WalkOf(Prune(ts, p)) <==> AllKept(AfterRejected(ts, p), p)
  {
    hide WalkOf;
    var us := AfterRejected(ts, p);
    PruneAfterRejected(ts, p);
    AllKeptUnpruned(us, p);
    if WalkOf(us) == WalkOf(Prune(us, p)) {
      assert WalkOf(us) + [] == WalkOf(Prune(us, p)) + [];
      WalkIsInjective(us, Prune(us, p), [], []);
    }
  }

  lemma {:induction false} PruneAfterRejected<T>(ts: Trees<Node<T>>, p: T -> bool)
    ensures Prune(AfterRejected(ts, p), p) == Prune(ts, p)
  {
    if ts.Grow? && !Keeps(ts.root, p) { PruneAfterRejected(ts.rest, p); }
  }

  lemma {:induction false} AllKeptUnpruned<T>(ts: Trees<Node<T>>, p: T -> bool)
    ensures AllKept(ts, p) <==> Prune(ts, p) == ts
    ensures TreeSize(Prune(ts, p)) <= TreeSize(ts)
  {
    if ts.Grow? {
      AllKeptUnpruned(ts.children, p);
      AllKeptUnpruned(ts.rest, p);
    }
  }

  function TreeSize<N>(ts: Trees<N>): nat {
    if ts.Bare? then 0 else 1 + TreeSize(ts.children) + TreeSize(ts.rest)
  }

  /** An input on which it is wrong: a kept leaf, then a rejected one. */
  lemma BackwardWrongOnce<T>(kept: Node<T>, rejected: Node<T>, p: T -> bool)
    requires Keeps(kept, p) && !Keeps(rejected, p)
    ensures var ts := Grow(kept, Bare, Grow(rejected, Bare, Bare));
      && WalkOf(AfterRejected(ts, p)) != WalkOf(Prune(ts, p))
      && Visit(rejected, Leading) in WalkOf(AfterRejected(ts, p))
  {
    var last := Grow(rejected, Bare, Bare);
    var ts := Grow(kept, Bare, last);
    LoneWalk(rejected);
    assert WalkOf(ts)[2..] == WalkOf(last) && WalkOf(ts)[2] == Visit(rejected, Leading);
    assert !AllKept(last, p);
    BackwardRightExactly(ts, p);
  }

  /** And one on which it is right although something is rejected: the same leaves the other way round. */
  lemma BackwardRightOnce<T>(kept: Node<T>, rejected: Node<T>, p: T -> bool)
    requires Keeps(kept, p) && !Keeps(rejected, p)
    ensures var ts := Grow(rejected, Bare, Grow(kept, Bare, Bare));
      Prune(ts, p) != ts && WalkOf(AfterRejected(ts, p)) == WalkOf(Prune(ts, p))
  {
    var ts := Grow(rejected, Bare, Grow(kept, Bare, Bare));
    assert AllKept(AfterRejected(ts, p), p);
    BackwardRightExactly(ts, p);
  }

  /** There and back with one iterator that starts at the beginning: the way back is the way there. */
  method FilterThereAndBack<T>(f: Forest<T>, p: T -> bool) returns (there: seq<Position<T>>, back: seq<Position<T>>)
    requires f.Valid()
    ensures f.Valid() && there == WalkOf(Prune(f.Shape(), p)) && back == there
  {
    hide Threaded, Filled, Rooted, SkipTo, NodesOf, Prune, Ahead, WalkOf, NodeCount, Walked;
    FilterStart(f, p);
    WalkedNowhere(f.walk, p);
    var it := new FilterIterator(f.Begin(), f.End(), p, f, 1, |f.walk| - 1);
    ghost var ks := [SkipTo(f.walk, 1, |f.walk| - 1, p)];
    var start := it.x;
    there, ks := FilterThere(f, it, f.End(), ks, WalkOf(Prune(f.Shape(), p)));
    back := FilterBack(f, it, start, ks, there);
  }

  method FilterBack<T>(f: Forest<T>, it: FilterIterator<T>, start: Position<T>, ghost ks: seq<nat>,
                       ghost there: Word<Node<T>>)
    returns (back: seq<Position<T>>)
    requires |f.walk| >= 2 && it.inside && it.At(f, Spot(|f.walk| - 1, 1, |f.walk| - 1))
    requires Walked(f.walk, ks, there, there, it.keep) && there == WalkOf(Prune(f.Shape(), it.keep))
    requires |ks| == |there| + 1 && ks[|there|] == |f.walk| - 1 && ks[0] < |f.walk| && start == f.walk[ks[0]]
    modifies it
    ensures f.Valid() && back == there
  {
    hide Threaded, Filled, Rooted, SkipBackTo, NodesOf, Walked, WalkOf, Prune, NodeCount;
    back := [];
    ghost var m := |there|;
    while it.x != start
      invariant 0 <= m <= |there| && ks[m] < |f.walk| && it.inside && it.At(f, Spot(ks[m], 1, |f.walk| - 1))
      invariant back == there[m..]
      decreases m
    {
      TrailBack(f, ks, m, there, it.keep);
      it.Decrement(f, Spot(ks[m], 1, |f.walk| - 1));
      m := m - 1;
      back := [it.x] + back;
    }
    TrailStart(f, ks, m, there, it.keep);
  }

  lemma TrailBack<T>(f: Forest<T>, ks: seq<nat>, m: nat, there: Word<Node<T>>, p: T -> bool)
    requires f.Valid() && Walked(f.walk, ks, there, there, p) && m <= |there| && |ks| == |there| + 1
    requires there == WalkOf(Prune(f.Shape(), p)) && ks[0] < |f.walk| && ks[m] < |f.walk|
    requires f.walk[ks[m]] != f.walk[ks[0]]
    ensures 0 < m && 1 < ks[m] && SkipBackTo(f.walk, ks[m] - 1, 1, p) == ks[m - 1] < |f.walk|
    ensures there[m - 1] == f.walk[ks[m - 1]]
  {
    hide Threaded, Filled, Rooted, SkipTo, SkipBackTo, Prune, WalkOf;
    f.BothEnds();
    assert TrailStep(f.walk, ks[m - 1], ks[m - 1 + 1], p);
    PrunedIsKept(f.Shape(), p, there[m - 1]);
    FirstOpens(f);
    FilterDecrementUndoesIncrement(f.walk, Spot(ks[m - 1], 1, |f.walk| - 1), p);
  }

  lemma FirstOpens<T>(f: Forest<T>)
    requires f.Valid() && |f.walk| > 2
    ensures f.walk[1].edge.Leading?
  {
    hide Threaded, Filled;
    f.BothEnds();
    if f.walk[1].edge.Trailing? { var i := OpensAt(f.walk, 1); }
  }

  lemma {:induction false} PrunedIsKept<T>(ts: Trees<Node<T>>, p: T -> bool, v: Position<T>)
    requires v in WalkOf(Prune(ts, p))
    ensures Keeps(v.node, p)
  {
    if ts.Grow? {
      if v in WalkOf(Prune(ts.rest, p)) {
        PrunedIsKept(ts.rest, p, v);
      } else if v in WalkOf(Prune(ts.children, p)) && Keeps(ts.root, p) {
        PrunedIsKept(ts.children, p, v);
      }
    }
  }

  lemma TrailStart<T>(f: Forest<T>, ks: seq<nat>, m: nat, there: Word<Node<T>>, p: T -> bool)
    requires f.Valid() && Walked(f.walk, ks, there, there, p) && m <= |there| && |ks| == |there| + 1
    requires ks[0] < |f.walk| && ks[m] < |f.walk| && f.walk[ks[m]] == f.walk[ks[0]]
    ensures m == 0
  {
    hide Threaded, Filled, Rooted;
    f.OnePlace(ks[m], ks[0]);
    TrailRises(f.walk, ks, m, p);
  }
}
