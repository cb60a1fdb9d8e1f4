/** Building part of a forest at a moving position: the output iterator, unflatten, and copying a range. */
module Rebuild {
  import opened Basics
  import opened Walks
  import opened Edits
  import opened Nodes
  import opened Ranges
  import opened TreeWalks
  import opened Flat
  import opened Container
  import opened Algorithms

  /** The output iterator of `transcribe`: a forest, and where it has come to.  What has been written stands
      between `base[..at]` and `base[at..]`; the iterator is at the first of the `pending` visits.  */
  class Transcriber<T> {
    const c: Forest<T>
    var i: Position<T>
    ghost var base: Word<Node<T>>
    ghost var at: nat
    ghost var done: Word<Node<T>>
    ghost var pending: Word<Node<T>>

    ghost predicate Valid()
      reads this, c, NodesOf(c.walk)
    {
      && c.Valid() && 0 < at < |base|
      && c.walk == PutAt(base, at, done + pending)
      && i == c.walk[at + |done|]
    }

    constructor (c: Forest<T>, i: Position<T>)
      requires c.Valid() && i in c.walk && i != c.Root()
      ensures Valid() && this.c == c && this.i == i
      ensures base == c.walk && at == IndexOf(c.walk, i) && done == [] && pending == []
    {
      this.c := c;
      this.i := i;
      base := c.walk;
      at := IndexOf(c.walk, i);
      done := [];
      pending := [];
      new;
      StillValid(c);
      c.BothEnds();
      assert c.walk == PutAt(c.walk, at, [] + []);
    }

    /** `= value`: inserts before the current position and stands on the new node. */
    method Assign(value: T) returns (ghost grown: set<Node<T>>)
      requires Valid()
      modifies `i, `pending, c`cachedSize, c`walk, NodesOf(c.walk)`next, NodesOf(c.walk)`prior
      ensures Valid() && fresh(grown) && NodesOf(c.walk) <= old(NodesOf(c.walk)) + grown
      ensures i.edge.Leading? && i.node.data == Some(value) && fresh(i.node)
      ensures done == old(done) && pending == [i, TrailingOf(i)] + old(pending)
    {
      hide Threaded, Filled, NodesOf;
      ghost var before := NodesOf(c.walk);
      c.FoundAt(at + |done|);
      i := c.Insert(i, value);
      InsertAmong(base, at, done, pending, [i, TrailingOf(i)]);
      InsertedAt(base, at, done, [i, TrailingOf(i)] + pending);
      pending := [i, TrailingOf(i)] + pending;
      grown := NodesOf(c.walk) - before;
    }

    /** `++` */
    method Advance()
      requires Valid() && pending != []
      modifies `i, `done, `pending
      ensures Valid()
      ensures done == old(done) + [old(pending)[0]] && pending == old(pending)[1..]
    {
      hide Threaded, Filled, NodesOf;
      StepsFollowRing(c.walk, at + |done|);
      InsertedAt(base, at, done, pending);
      i := Next(i);
      done, pending := done + [pending[0]], pending[1..];
      StillValid(c);
    }

    /** The old visits that are still to come. */
    ghost function Ahead(): (s: Word<Node<T>>)
      requires Valid()
      reads this, c, NodesOf(c.walk)
    {
      base[at..|base| - 1]
    }

    lemma AheadStands()
      requires Valid() && pending == [] && WellNested(Ahead())
      ensures var m, s, w := at + |done|, Ahead(), c.walk;
        && m < |w| && i == w[m] && w[0] == c.Root()
        && (s == [] ==> m == |w| - 1 && i == c.End() && w == base[..at] + done + [c.End()])
        && (s != [] ==> var k := FirstTree(s);
              && m + k + 1 < |w| && w[m + k] == TrailingOf(i) && s[k + 1..] == w[m + k + 1..|w| - 1]
              && w[..m + k + 1] == base[..at] + done + s[..k + 1])
    {
      hide Threaded, Filled, NodesOf, FirstTree, WellNested, PutAt, Rooted;
      c.BothEnds();
      AfterPut(base, at, done);
      assert done + [] == done;
    }

    /** Past the end and at the root again, where it stays unless something is assigned. */
    ghost predicate Round()
      reads this, c, NodesOf(c.walk)
    {
      c.Valid() && i == c.Root()
    }

    /** `trailing()` and `++`: past a pending closing; where none is pending, past the whole tree that stands there,
        or from the end round to the root. */
    method Close()
      requires Round() || (Valid() && WellNested(Ahead()) && (pending != [] ==> i.edge.Trailing?))
      modifies `i, `done, `pending, `base, `at
      ensures old(Round()) ==> Round()
      ensures !old(Round()) && old(pending) != [] ==>
        && Valid() && base == old(base) && at == old(at)
        && done == old(done) + [old(pending)[0]] && pending == old(pending)[1..]
      ensures !old(Round()) && old(pending) == [] && old(Ahead()) == [] ==>
        Round() && c.walk == old(base[..at] + done) + [c.End()]
      ensures !old(Round()) && old(pending) == [] && old(Ahead()) != [] ==>
        && Valid() && done == [] && pending == []
        && var k := FirstTree(old(Ahead()));
        base[..at] == old(base[..at] + done + Ahead()[..k + 1]) && Ahead() == old(Ahead())[k + 1..]
    {
      hide Threaded, Filled, NodesOf, FirstTree, WellNested, PutAt;
      ghost var round, m := Round(), at + |done|;
      if round { NextRound(); } else if pending != [] { NextPending(); } else { NextTree(); }
      ghost var tree := if !round && pending == [] && Ahead() != [] then FirstTree(Ahead()) + 1 else 0;
      i := TrailingOf(i);
      i := Next(i);
      if !round {
        if pending != [] {
          done, pending := done + [pending[0]], pending[1..];
        } else if tree != 0 {
          base, at, done := c.walk, m + tree, [];
        }
      }
      StillValid(c);
    }

    lemma NextRound()
      requires Round()
      ensures Next(TrailingOf(i)) == c.Root()
    {
      hide Threaded, Filled, NodesOf;
      c.BothEnds();
      StepsFollowRing(c.walk, |c.walk| - 1);
    }

    lemma NextPending()
      requires Valid() && pending != [] && i.edge.Trailing?
      ensures at + |done| + 1 < |c.walk| && Next(TrailingOf(i)) == c.walk[at + |done| + 1]
      ensures done + pending == (done + [pending[0]]) + pending[1..]
    {
      hide Threaded, Filled, NodesOf;
      InsertedAt(base, at, done, pending);
      StepsFollowRing(c.walk, at + |done|);
    }

    lemma NextTree()
      requires Valid() && pending == [] && WellNested(Ahead())
      ensures var m, s, w, next := at + |done|, Ahead(), c.walk, Next(TrailingOf(i));
        && (s == [] ==> next == c.Root() && w == base[..at] + done + [c.End()])
        && (s != [] ==> var k := FirstTree(s);
              && m + k + 1 < |w| && next == w[m + k + 1] && s[k + 1..] == w[m + k + 1..|w| - 1]
              && w[..m + k + 1] == base[..at] + done + s[..k + 1] && w == PutAt(w, m + k + 1, [] + []))
    {
      hide Threaded, Filled, NodesOf, FirstTree, WellNested;
      AheadStands();
      StepsFollowRing(c.walk, at + |done| + if Ahead() == [] then 0 else FirstTree(Ahead()));
    }
  }

  /** Copies the child range `[first, last)` of another forest before `pos`; copy construction is this with
      all of `x` at the end of an empty forest. */
  method CopyRange<T>(f: Forest<T>, pos: Position<T>, x: Forest<T>, first: Position<T>, last: Position<T>)
    returns (pos': Position<T>, ghost added: Word<Node<T>>)
    requires f.Valid() && x.Valid() && f != x && f.Separate(x)
    requires pos in f.walk && pos != f.Root()
    requires x.ChildRange(first, last)
    modifies f`cachedSize, f`walk, NodesOf(f.walk)`next, NodesOf(f.walk)`prior
    ensures f.Valid() && x.Valid() && x.walk == old(x.walk) && f.Separate(x)
    ensures f.walk == Paste(old(f.walk), pos, added) && pos' == pos
    ensures FlatOf(added) == FlatOf(Between(x.walk, first, last))
  {
    hide Copying, NodesOf, FlatOf, Between, PutAt, IndexOf, Paste, InOrder, Threaded, Filled, WellNested;
    ghost var nodes := NodesOf(f.walk);
    ghost var range := (first, last);
    ghost var w, xw, n := f.walk, x.walk, |Between(x.walk, first, last)|;
    var out := new Transcriber(f, pos);
    StillValid(x);
    var here := first;
    CopyingStarts(out, x, range);
    ghost var k := 0;
    ghost var more: set<Node<T>> := {};
    while here != last
      invariant k <= n && out.c == f && x.walk == xw && Copying(out, x, range, here, k)
      invariant out.base == w && out.at == IndexOf(w, pos)
      invariant fresh(more) && NodesOf(f.walk) <= nodes + more
      decreases n - k
    {
      CopyingGoesOn(out, x, range, here, k);
      ghost var grown;
      here, grown := CopyVisit(out, x, range, here, k);
      more := more + grown;
      k := k + 1;
    }
    CopyingEnds(out, x, range, here, k);
    added := out.done;
    PasteIsPut(w, pos, added);
    FirstFound(w, pos);
    pos' := out.i;
  }

  /** The same within one forest.  When something is copied, `pos` is neither inside the range nor at its end,
      where the loop would run into its own copies for ever. */
  method CopyWithin<T>(f: Forest<T>, pos: Position<T>, first: Position<T>, last: Position<T>)
    returns (pos': Position<T>, ghost added: Word<Node<T>>)
    requires f.Valid() && pos in f.walk && pos != f.Root()
    requires f.ChildRange(first, last)
    requires first == last || pos == first || (pos != last && pos !in Between(f.walk, first, last))
    modifies f`cachedSize, f`walk, NodesOf(f.walk)`next, NodesOf(f.walk)`prior
    ensures f.Valid() && f.walk == Paste(old(f.walk), pos, added) && pos' == pos
    ensures FlatOf(added) == FlatOf(Between(old(f.walk), first, last))
  {
    hide NodesOf, FlatOf, Between, PutAt, IndexOf, Paste, InOrder, Threaded, Filled, WellNested, Progress, Copied;
    hide Height;
    ghost var nodes := NodesOf(f.walk);
    ghost var base, code := f.walk, FlatOf(Between(f.walk, first, last));
    ghost var at, i := IndexOf(base, pos), IndexOf(base, first);
    RangeIsCopied(f, pos, first, last);
    CopiedCode(base, at, i, code);
    Nothing(code);
    var out := new Transcriber(f, pos);
    var here := first;
    ghost var k := 0;
    ghost var more: set<Node<T>> := {};
    while here != last
      invariant k <= |code| && i + |code| < |base| && here == base[i + k]
      invariant out.Valid() && out.c == f && out.base == base && out.at == at
      invariant Progress(code, k, out.done, out.pending)
      invariant fresh(more) && NodesOf(f.walk) <= nodes + more
      decreases |code| - k
    {
      CopiedPlace(base, at, i, code, k);
      ghost var grown;
      here, grown := CopyOwnVisit(out, here, base, at, i, code, k);
      more := more + grown;
      k := k + 1;
    }
    CopiedPlace(base, at, i, code, k);
    Finished(code, out.done, out.pending);
    added := out.done;
    assert out.done + out.pending == out.done;
    PutEnds(base, at, added);
    PasteIsPut(base, pos, added);
    FirstFound(base, pos);
    pos' := out.i;
  }

  ghost predicate CopiesAt<T>(base: Word<Node<T>>, i: nat, code: seq<Option<T>>, k: nat)
    requires k < |code| && i + |code| < |base|
  {
    code[k] == CodeAt(base[i + k]) && base[i + k].node.data.Some?
  }

  /** The visits from index `i` of `base` have the encoding `code`, and `at` does not lie behind one of them. */
  ghost predicate Copied<T>(base: Word<Node<T>>, at: nat, i: nat, code: seq<Option<T>>) {
    && Distinct(base) && at < |base| && i + |code| < |base|
    && Height(code, 0) == Some(0)
    && (forall k: nat | k < |code| :: CopiesAt(base, i, code, k))
    && (at <= i || i + |code| < at || code == [])
  }

  lemma RangeIsCopied<T>(f: Forest<T>, pos: Position<T>, first: Position<T>, last: Position<T>)
    requires f.Valid() && pos in f.walk && f.ChildRange(first, last)
    requires first == last || pos == first || (pos != last && pos !in Between(f.walk, first, last))
    ensures var code := FlatOf(Between(f.walk, first, last));
      var i := IndexOf(f.walk, first);
      && Copied(f.walk, IndexOf(f.walk, pos), i, code)
      && i + |code| < |f.walk| && first == f.walk[i] && last == f.walk[i + |code|]
  {
    hide Threaded, Filled, WellNested, FlatOf, Height, Distinct, Copied, Between, IndexOf, InOrder, CodeAt;
    f.BothEnds();
    var s := Between(f.walk, first, last);
    var at, i, code := IndexOf(f.walk, pos), IndexOf(f.walk, first), FlatOf(s);
    RangeCodes(f, first, last);
    forall k: nat | k < |code| ensures CopiesAt(f.walk, i, code, k) {
      RangeCode(f, first, last, k);
    }
    f.OnePlace(i, i + |code|);
    if i < at <= i + |code| && first != last { BehindTheRange(f.walk, first, last, pos); }
    MakeCopied(f.walk, at, i, code);
  }

  lemma BehindTheRange<A>(w: seq<A>, first: A, last: A, pos: A)
    requires InOrder(w, first, last) && pos in w
    requires IndexOf(w, first) < IndexOf(w, pos) <= IndexOf(w, last)
    ensures pos != first && (pos == last || pos in Between(w, first, last))
  {
    hide IndexOf;
    var i, j, at := IndexOf(w, first), IndexOf(w, last), IndexOf(w, pos);
    if at < j { assert w[i..j][at - i] == pos; }
  }

  lemma MakeCopied<T>(base: Word<Node<T>>, at: nat, i: nat, code: seq<Option<T>>)
    requires Distinct(base) && at < |base| && i + |code| < |base|
    requires Height(code, 0) == Some(0)
    requires forall k: nat | k < |code| :: CopiesAt(base, i, code, k)
    requires at <= i || i + |code| < at || code == []
    ensures Copied(base, at, i, code)
  {
  }

  lemma CopiedCode<T>(base: Word<Node<T>>, at: nat, i: nat, code: seq<Option<T>>)
    requires Copied(base, at, i, code)
    ensures i + |code| < |base| && at < |base| && Height(code, 0) == Some(0)
  {
  }

  lemma CopiedPlace<T>(base: Word<Node<T>>, at: nat, i: nat, code: seq<Option<T>>, k: nat)
    requires Copied(base, at, i, code) && k <= |code|
    ensures i + |code| < |base| && (base[i + k] == base[i + |code|] <==> k == |code|)
    ensures k < |code| ==> code[k] == CodeAt(base[i + k]) && base[i + k].node.data.Some? && i + k + 1 != at
  {
    SamePlace(base, i + k, i + |code|);
    if k < |code| { assert CopiesAt(base, i, code, k); }
  }

  /** One round of the loop of `CopyWithin`. */
  method CopyOwnVisit<T>(out: Transcriber<T>, here: Position<T>, ghost base: Word<Node<T>>, ghost at: nat,
                         ghost i: nat, ghost code: seq<Option<T>>, ghost k: nat)
    returns (next: Position<T>, ghost grown: set<Node<T>>)
    requires out.Valid() && out.base == base && out.at == at && Copied(base, at, i, code)
    requires k < |code| && i + |code| < |base| && here == base[i + k]
    requires Progress(code, k, out.done, out.pending)
    modifies out`i, out`done, out`pending
    modifies out.c`cachedSize, out.c`walk, NodesOf(out.c.walk)`next, NodesOf(out.c.walk)`prior
    ensures out.Valid() && next == base[i + k + 1]
    ensures Progress(code, k + 1, out.done, out.pending)
    ensures fresh(grown) && NodesOf(out.c.walk) <= old(NodesOf(out.c.walk)) + grown
  {
    hide Threaded, Filled, FlatOf, Height, Progress, Copied, PutAt, NodesOf;
    CopiedPlace(base, at, i, code, k);
    NextCode(code, k, out.done, out.pending);
    ghost var before := out.pending;
    grown := {};
    if here.edge.Leading? {
      grown := out.Assign(here.node.data.value);
    }
    WroteVisit(code, k, out.done, before, out.pending);
    Shifted(base, at, out.done + out.pending, i + k);
    StepsFollowRing(out.c.walk, if i + k < at then i + k else i + k + |out.done + out.pending|);
    next := Next(here);
    out.Advance();
  }

  /** The rest of the positions: behind the range's first visit, and not behind its end.  After any number of rounds
      of the loop `last` is as far ahead as it was, so that the loop does not end. */
  method CopyRounds<T>(f: Forest<T>, pos: Position<T>, first: Position<T>, last: Position<T>, rounds: nat)
    returns (here: Position<T>, ghost added: Word<Node<T>>)
    requires f.Valid() && pos in f.walk && f.ChildRange(first, last)
    requires IndexOf(f.walk, first) < IndexOf(f.walk, pos) <= IndexOf(f.walk, last)
    modifies f`cachedSize, f`walk, NodesOf(f.walk)`next, NodesOf(f.walk)`prior
    ensures f.Valid() && f.walk == Paste(old(f.walk), pos, added) && |added| >= rounds
    ensures InOrder(f.walk, here, last) && here != last
    ensures IndexOf(f.walk, last) - IndexOf(f.walk, here)
      >= IndexOf(old(f.walk), last) - IndexOf(old(f.walk), first)
  {
    hide NodesOf, FlatOf, Between, PutAt, IndexOf, Paste, InOrder, Threaded, Filled, WellNested, Progress, Height;
    hide Chasing;
    ghost var nodes := NodesOf(f.walk);
    ghost var base := f.walk;
    ghost var at, i, j := IndexOf(base, pos), IndexOf(base, first), IndexOf(base, last);
    ChaseMayStart(f, pos, first, last);
    var out := new Transcriber(f, pos);
    ChaseStarts(out, i);
    here := first;
    var r := 0;
    ghost var more: set<Node<T>> := {};
    while r < rounds
      invariant r <= rounds && out.Valid() && out.c == f && out.base == base && out.at == at && |out.done| == r
      invariant Chasing(out, i, here)
      invariant fresh(more) && NodesOf(f.walk) <= nodes + more
    {
      ghost var grown := {};
      here, grown := CopyRound(out, here, i);
      more := more + grown;
      r := r + 1;
    }
    added := out.done + out.pending;
    ChaseGap(out, i, j, here);
    PasteIsPut(base, pos, added);
  }

  /** Copied so far are the visits from index `i` on, with the copies among them. */
  ghost predicate Chasing<T>(out: Transcriber<T>, i: nat, here: Position<T>)
    reads out, out.c, NodesOf(out.c.walk)
  {
    && out.Valid() && 0 < i < out.at && here == out.c.walk[i + |out.done|]
    && Progress(FlatOf(out.base[i..out.at] + out.done), |out.done|, out.done, out.pending)
  }

  lemma ChaseMayStart<T>(f: Forest<T>, pos: Position<T>, first: Position<T>, last: Position<T>)
    requires f.Valid() && pos in f.walk && f.ChildRange(first, last)
    requires IndexOf(f.walk, first) < IndexOf(f.walk, pos) <= IndexOf(f.walk, last)
    ensures var i, at, j := IndexOf(f.walk, first), IndexOf(f.walk, pos), IndexOf(f.walk, last);
      && 0 < i < at <= j < |f.walk| && f.walk[i] == first && f.walk[j] == last && pos != f.Root()
      && Height(FlatOf(f.walk[i..at]), 0).Some?
  {
    hide Threaded, Filled, WellNested, IndexOf, FlatOf, Height;
    f.BothEnds();
    var i, at, j := IndexOf(f.walk, first), IndexOf(f.walk, pos), IndexOf(f.walk, last);
    RangeCodes(f, first, last);
    SiblingsInside(f.walk, i, j);
    f.FoundAt(at);
    var a, b := f.walk[i..at], f.walk[at..j];
    assert f.walk[i..j] == a + b;
    FlatConcat(a, b);
    HeightConcat(FlatOf(a), FlatOf(b), 0);
  }

  lemma ChaseStarts<T>(out: Transcriber<T>, i: nat)
    requires out.Valid() && 0 < i < out.at && out.done == [] && out.pending == []
    requires Height(FlatOf(out.base[i..out.at]), 0).Some?
    ensures out.Valid() && Chasing(out, i, out.base[i])
  {
    hide Threaded, Filled, FlatOf, Height;
    assert out.base[i..out.at] + [] == out.base[i..out.at];
    Nothing(FlatOf(out.base[i..out.at]));
  }

  /** One round of that loop. */
  method CopyRound<T>(out: Transcriber<T>, here: Position<T>, ghost i: nat)
    returns (next: Position<T>, ghost grown: set<Node<T>>)
    requires Chasing(out, i, here)
    modifies out`i, out`done, out`pending
    modifies out.c`cachedSize, out.c`walk, NodesOf(out.c.walk)`next, NodesOf(out.c.walk)`prior
    ensures out.Valid() && Chasing(out, i, next) && |out.done| == |old(out.done)| + 1
    ensures fresh(grown) && NodesOf(out.c.walk) <= old(NodesOf(out.c.walk)) + grown
  {
    hide Threaded, Filled, FlatOf, Height, Progress, NodesOf, PutAt;
    ghost var k, code, before := |out.done|, FlatOf(out.base[i..out.at] + out.done), out.pending;
    ChasedVisit(out, i, here);
    NextCode(code, k, out.done, out.pending);
    grown := {};
    if here.edge.Leading? {
      grown := out.Assign(here.node.data.value);
    }
    WroteVisit(code, k, out.done, before, out.pending);
    ChaseStep(out.base, out.at, i, out.done, out.pending);
    BeforePut(out.base, out.at, out.done + out.pending, i, k);
    StepsFollowRing(out.c.walk, i + k);
    next := Next(here);
    out.Advance();
  }

  lemma ChasedVisit<T>(out: Transcriber<T>, i: nat, here: Position<T>)
    requires Chasing(out, i, here)
    ensures var k, code := |out.done|, FlatOf(out.base[i..out.at] + out.done);
      && k < |code| && code[k] == CodeAt(here) && here.node.data.Some?
      && here == (out.base[..out.at] + out.done)[i + k]
  {
    hide Threaded, Filled, Height, Progress;
    var k := |out.done|;
    assert out.c.walk == out.base[..out.at] + out.done + (out.pending + out.base[out.at..]);
    assert out.base[..out.at] + out.done == out.base[..i] + (out.base[i..out.at] + out.done);
    out.c.InnerVisit(i + k);
  }

  /** What has been read and written stands before what is still to come. */
  lemma BeforePut<A>(base: seq<A>, at: nat, s: seq<A>, i: nat, k: nat)
    requires i < at < |base| && k < |s|
    ensures var w, a := PutAt(base, at, s), base[..at] + s;
      i + k + 1 < |w| && w[i + k] == a[i + k] && w[i + k + 1] == a[i + k + 1]
  {
  }

  lemma ChaseStep<T>(base: Word<Node<T>>, at: nat, i: nat, done: Word<Node<T>>, pending: Word<Node<T>>)
    requires i < at < |base| && pending != []
    requires var code := FlatOf(base[i..at] + done);
      |done| < |code| && Progress(code, |done| + 1, done + [pending[0]], pending[1..])
    ensures Progress(FlatOf(base[i..at] + (done + [pending[0]])), |done| + 1, done + [pending[0]], pending[1..])
  {
    hide FlatOf, Height;
    var p, k, code, done' := FlatOf(base[i..at]), |done|, FlatOf(base[i..at] + done), done + [pending[0]];
    FlatConcat(base[i..at], done);
    FlatConcat(base[i..at], done');
    FlatSize(base[i..at] + done);
    var code' := FlatOf(base[i..at] + done');
    assert code' == p + code[..k + 1];
    FlatSize(done');
    FlatSize(done);
    FlatConcat(done, [pending[0]]);
    HeightConcat(p, FlatOf(done), 0);
    HeightConcat(p, code[..k + 1], 0);
    HeightAbove(code[..k + 1], 0, Height(p, 0).value);
    assert code'[..k + 1] == code[..k + 1];
  }

  lemma FlatSize<T>(w: Word<Node<T>>)
    ensures |FlatOf(w)| == |w|
  {
  }

  lemma {:induction false} HeightAbove<T>(code: seq<Option<T>>, d: nat, more: nat)
    requires Height(code, d).Some?
    ensures Height(code, d + more) == Some(Height(code, d).value + more)
    decreases code
  {
    if code != [] {
      HeightAbove(code[1..], if code[0].Some? then d + 1 else d - 1, more);
    }
  }

  lemma ChaseGap<T>(out: Transcriber<T>, i: nat, j: nat, here: Position<T>)
    requires Chasing(out, i, here) && out.at <= j < |out.base|
    ensures var w, last := out.c.walk, out.base[j];
      && InOrder(w, here, last) && here != last && IndexOf(w, last) - IndexOf(w, here) >= j - i
  {
    hide Threaded, Filled, FlatOf, Height, Progress, IndexOf;
    var w, r, s := out.c.walk, |out.done|, out.done + out.pending;
    assert w[j + |s|] == out.base[j];
    out.c.FoundAt(i + r);
    out.c.FoundAt(j + |s|);
  }

  /** Neighbours stay neighbours, unless something is put between them. */
  lemma Shifted<A>(base: seq<A>, at: nat, s: seq<A>, m: nat)
    requires at <= |base| && m + 1 < |base| && m + 1 != at
    ensures var w, p := PutAt(base, at, s), if m < at then m else m + |s|;
      p + 1 < |w| && w[p] == base[m] && w[p + 1] == base[m + 1]
  {
  }

  /** Copy construction: the copy is the same trees of the same values. */
  method Copy<T>(x: Forest<T>) returns (f: Forest<T>)
    requires x.Valid()
    ensures f.Valid() && x.Valid() && x.walk == old(x.walk) && fresh(f) && f.Separate(x)
    ensures HasValues(f.Shape()) && HasValues(x.Shape()) && Values(f.Shape()) == Values(x.Shape())
  {
    hide Threaded, Filled, NodesOf, Covered, Without, FlatOf;
    NodesAllocated(x.walk);
    f := new Forest();
    StillValid(x);
    x.WholeRange();
    f.WholeRange();
    f.BothEnds();
    var unused, added := CopyRange(f, f.End(), x, x.Begin(), x.End());
    assert Inner(f) == added;
    assert Inner(x) == Between(x.walk, x.Begin(), x.End());
    EqualFlatEqualTrees(f, x);
  }

  /** `k` visits of the range have been copied; the source has come to `here`. */
  ghost predicate Copying<T>(out: Transcriber<T>, x: Forest<T>, range: (Position<T>, Position<T>),
                             here: Position<T>, k: nat)
    reads out, out.c, NodesOf(out.c.walk), x, NodesOf(x.walk)
  {
    var s := Between(x.walk, range.0, range.1);
    var i := IndexOf(x.walk, range.0);
    && out.Valid() && x.Valid() && out.c != x && out.c.Separate(x)
    && x.ChildRange(range.0, range.1)
    && k <= |s| && i + |s| < |x.walk| && here == x.walk[i + k]
    && |FlatOf(s)| == |s| && Height(FlatOf(s), 0) == Some(0)
    && Progress(FlatOf(s), k, out.done, out.pending)
  }

  lemma CopyingStarts<T>(out: Transcriber<T>, x: Forest<T>, range: (Position<T>, Position<T>))
    requires out.Valid() && x.Valid() && out.c != x && out.c.Separate(x)
    requires x.ChildRange(range.0, range.1) && out.done == [] && out.pending == []
    ensures Copying(out, x, range, range.0, 0)
  {
    hide Threaded, Filled, Rooted, FlatOf, Height, Between, IndexOf, InOrder;
    RangeCodes(x, range.0, range.1);
    Nothing(FlatOf(Between(x.walk, range.0, range.1)));
  }

  lemma CopyingGoesOn<T>(out: Transcriber<T>, x: Forest<T>, range: (Position<T>, Position<T>),
                         here: Position<T>, k: nat)
    requires Copying(out, x, range, here, k)
    ensures here != range.1 <==> k < |Between(x.walk, range.0, range.1)|
  {
    hide Threaded, Filled, Rooted, FlatOf, Height, Progress;
    RangeCodes(x, range.0, range.1);
    x.OnePlace(IndexOf(x.walk, range.0) + k, IndexOf(x.walk, range.1));
  }

  lemma CopyingEnds<T>(out: Transcriber<T>, x: Forest<T>, range: (Position<T>, Position<T>),
                       here: Position<T>, k: nat)
    requires Copying(out, x, range, here, k) && here == range.1
    ensures out.c.Valid() && x.Valid() && out.c.Separate(x)
    ensures out.c.walk == PutAt(out.base, out.at, out.done) && out.i == out.base[out.at]
    ensures FlatOf(out.done) == FlatOf(Between(x.walk, range.0, range.1))
  {
    hide Threaded, Filled, Rooted, FlatOf, Height;
    CopyingGoesOn(out, x, range, here, k);
    Finished(FlatOf(Between(x.walk, range.0, range.1)), out.done, out.pending);
    assert out.done + out.pending == out.done;
    PutEnds(out.base, out.at, out.done);
  }

  /** One round of the loop of `CopyRange`. */
  method CopyVisit<T>(out: Transcriber<T>, x: Forest<T>, ghost range: (Position<T>, Position<T>),
                      here: Position<T>, ghost k: nat)
    returns (next: Position<T>, ghost grown: set<Node<T>>)
    requires Copying(out, x, range, here, k) && k < |Between(x.walk, range.0, range.1)|
    modifies out`i, out`done, out`pending
    modifies out.c`cachedSize, out.c`walk, NodesOf(out.c.walk)`next, NodesOf(out.c.walk)`prior
    ensures Copying(out, x, range, next, k + 1) && x.walk == old(x.walk)
    ensures fresh(grown) && NodesOf(out.c.walk) <= old(NodesOf(out.c.walk)) + grown
  {
    hide Copying, Threaded, Filled, FlatOf, Height, Progress, Between, IndexOf, InOrder;
    CopyingMeans(out, x, range, here, k);
    ghost var i := IndexOf(x.walk, range.0);
    ghost var code := FlatOf(Between(x.walk, range.0, range.1));
    ghost var before := out.pending;
    grown := {};
    if here.edge.Leading? {
      grown := AssignApart(out, x, here.node.data.value);
    }
    WroteVisit(code, k, out.done, before, out.pending);
    StepsFollowRing(x.walk, i + k);
    next := Next(here);
    AdvanceApart(out, x);
    CopyingAgain(out, x, range, next, k + 1);
  }

  /** `Assign`, beside a forest that it does not touch. */
  method AssignApart<T>(out: Transcriber<T>, x: Forest<T>, value: T) returns (ghost grown: set<Node<T>>)
    requires out.Valid() && x.Valid() && out.c != x && out.c.Separate(x)
    modifies out`i, out`pending
    modifies out.c`cachedSize, out.c`walk, NodesOf(out.c.walk)`next, NodesOf(out.c.walk)`prior
    ensures out.Valid() && fresh(grown) && NodesOf(out.c.walk) <= old(NodesOf(out.c.walk)) + grown
    ensures out.i.edge.Leading? && out.i.node.data == Some(value)
    ensures out.done == old(out.done) && out.pending == [out.i, TrailingOf(out.i)] + old(out.pending)
    ensures x.Valid() && x.walk == old(x.walk) && out.c.Separate(x)
  {
    hide Threaded, Filled;
    NodesAllocated(x.walk);
    grown := out.Assign(value);
    StillValid(x);
  }

  method AdvanceApart<T>(out: Transcriber<T>, x: Forest<T>)
    requires out.Valid() && x.Valid() && out.pending != []
    modifies out`i, out`done, out`pending
    ensures out.Valid() && x.Valid()
    ensures out.done == old(out.done) + [old(out.pending)[0]] && out.pending == old(out.pending)[1..]
  {
    hide Threaded, Filled;
    out.Advance();
    StillValid(x);
  }

  lemma CopyingMeans<T>(out: Transcriber<T>, x: Forest<T>, range: (Position<T>, Position<T>),
                        here: Position<T>, k: nat)
    requires Copying(out, x, range, here, k) && k < |Between(x.walk, range.0, range.1)|
    ensures var code := FlatOf(Between(x.walk, range.0, range.1));
      var i := IndexOf(x.walk, range.0);
      && out.Valid() && x.Valid() && out.c != x && out.c.Separate(x) && x.ChildRange(range.0, range.1)
      && i + k + 1 < |x.walk| && here == x.walk[i + k]
      && k < |code| && code[k] == CodeAt(here) && (here.edge.Leading? ==> here.node.data.Some?)
      && Progress(code, k, out.done, out.pending)
      && (code[k].None? ==> out.pending != [] && out.pending[0].edge.Trailing?)
  {
    hide Threaded, Filled, Rooted, FlatOf, Height, Progress, Between, IndexOf, InOrder;
    RangeCode(x, range.0, range.1, k);
    NextCode(FlatOf(Between(x.walk, range.0, range.1)), k, out.done, out.pending);
  }

  lemma CopyingAgain<T>(out: Transcriber<T>, x: Forest<T>, range: (Position<T>, Position<T>),
                        here: Position<T>, k: nat)
    requires out.Valid() && x.Valid() && out.c != x && out.c.Separate(x)
    requires x.ChildRange(range.0, range.1) && k <= |Between(x.walk, range.0, range.1)|
    requires var i := IndexOf(x.walk, range.0); i + k < |x.walk| && here == x.walk[i + k]
    requires var code := FlatOf(Between(x.walk, range.0, range.1));
      k <= |code| && Progress(code, k, out.done, out.pending)
    ensures Copying(out, x, range, here, k)
  {
    hide Threaded, Filled, Rooted, FlatOf, Height, Progress, Between, IndexOf, InOrder;
    RangeCodes(x, range.0, range.1);
  }

  /** Between the writing of a visit and the step past it. */
  lemma WroteVisit<T>(code: seq<Option<T>>, k: nat, done: Word<Node<T>>, before: Word<Node<T>>,
                      pending: Word<Node<T>>)
    requires k < |code| && Progress(code, k, done, before) && pending != []
    requires if code[k].None? then pending == before
             else pending == [pending[0], TrailingOf(pending[0])] + before
                  && pending[0].edge.Leading? && pending[0].node.data == code[k]
    ensures Progress(code, k + 1, done + [pending[0]], pending[1..])
  {
    NextCode(code, k, done, before);
    Advanced(code, k, done, pending);
  }

  lemma PasteIsPut<A>(w: seq<A>, v: A, s: seq<A>)
    ensures Paste(w, v, s) == PutAt(w, IndexOf(w, v), s)
  {
  }

  lemma FirstFound<A>(w: seq<A>, v: A)
    requires v in w
    ensures IndexOf(w, v) < |w| && w[IndexOf(w, v)] == v
  {
  }

  lemma PutEnds<A>(base: seq<A>, at: nat, added: seq<A>)
    requires at < |base|
    ensures PutAt(base, at, added)[at + |added|] == base[at]
  {
  }

  lemma RangeCodes<T>(x: Forest<T>, first: Position<T>, last: Position<T>)
    requires x.Valid() && x.ChildRange(first, last)
    ensures var s := Between(x.walk, first, last);
      var i := IndexOf(x.walk, first);
      && i + |s| < |x.walk| && first == x.walk[i] && last == x.walk[i + |s|] && i + |s| == IndexOf(x.walk, last)
      && |FlatOf(s)| == |s| && Height(FlatOf(s), 0) == Some(0)
  {
    hide Threaded, Filled, Rooted, Run, FlatOf, Between, IndexOf;
    var s := Between(x.walk, first, last);
    RangeEnds(x.walk, first, last);
    forall k: nat | k < |s| ensures s[k].node.data.Some? {
      RangeCode(x, first, last, k);
    }
    FlatLength(s);
    FlatHeight([], s);
  }

  lemma RangeEnds<A>(w: seq<A>, first: A, last: A)
    requires InOrder(w, first, last)
    ensures var i := IndexOf(w, first);
      i + |Between(w, first, last)| == IndexOf(w, last) < |w| && w[i] == first && w[IndexOf(w, last)] == last
  {
    hide IndexOf;
  }

  lemma RangeCode<T>(x: Forest<T>, first: Position<T>, last: Position<T>, k: nat)
    requires x.Valid() && x.ChildRange(first, last)
    requires k < |Between(x.walk, first, last)|
    ensures var s := Between(x.walk, first, last);
      var i := IndexOf(x.walk, first);
      && i + k < |x.walk| - 1 && s[k] == x.walk[i + k] && s[k].node.data.Some?
      && k < |FlatOf(s)| && FlatOf(s)[k] == CodeAt(x.walk[i + k])
  {
    hide Threaded, Filled, Rooted, Run;
    x.BothEnds();
    var i := IndexOf(x.walk, first);
    SiblingsInside(x.walk, i, IndexOf(x.walk, last));
    HaveValues(x, i + k);
  }

  /** The encoding of a walk rises and falls with the stack of open nodes. */
  lemma {:induction false} FlatHeight<T>(stack: seq<Node<T>>, s: Word<Node<T>>)
    requires Run(stack, s).Some?
    requires forall k: nat | k < |s| && s[k].edge.Leading? :: s[k].node.data.Some?
    ensures Height(FlatOf(s), |stack|) == Some(|Run(stack, s).value|)
    decreases s
  {
    if s != [] {
      assert FlatOf(s)[1..] == FlatOf(s[1..]);
      FlatHeight(if s[0].edge.Leading? then stack + [s[0].node] else stack[..|stack| - 1], s[1..]);
    }
  }

  /** What has been written when `k` codes have been read: their visits, and the closings still due. */
  ghost predicate Progress<T>(code: seq<Option<T>>, k: nat, done: Word<Node<T>>, pending: Word<Node<T>>)
    requires k <= |code|
  {
    && FlatOf(done) == code[..k]
    && Height(code[..k], 0) == Some(|pending|)
    && (forall v | v in pending :: v.edge.Trailing?)
    && Height(code, 0).Some?
  }

  lemma Nothing<T>(code: seq<Option<T>>)
    requires Height(code, 0).Some?
    ensures Progress(code, 0, [], [])
  {
    assert code[..0] == [];
  }

  lemma NextCode<T>(code: seq<Option<T>>, k: nat, done: Word<Node<T>>, pending: Word<Node<T>>)
    requires k < |code| && Progress(code, k, done, pending)
    ensures code[k].None? ==> pending != [] && pending[0].edge.Trailing?
    ensures Height(code[..k + 1], 0) == Some(if code[k].Some? then |pending| + 1 else |pending| - 1)
  {
    assert code == code[..k] + code[k..] && code[..k + 1] == code[..k] + [code[k]];
    HeightConcat(code[..k], code[k..], 0);
    HeightConcat(code[..k], [code[k]], 0);
    assert [code[k]][1..] == [];
    assert pending != [] ==> pending[0] in pending;
  }

  /** The state in the middle of a round, after the value or the closing has been written. */
  lemma Advanced<T>(code: seq<Option<T>>, k: nat, done: Word<Node<T>>, pending: Word<Node<T>>)
    requires k < |code| && pending != [] && FlatOf(done) == code[..k] && Height(code, 0).Some?
    requires Height(code[..k + 1], 0) == Some(|pending| - 1)
    requires CodeAt(pending[0]) == code[k]
    requires forall v | v in pending[1..] :: v.edge.Trailing?
    ensures Progress(code, k + 1, done + [pending[0]], pending[1..])
  {
    FlatConcat(done, [pending[0]]);
    assert code[..k + 1] == code[..k] + [code[k]];
  }

  lemma Finished<T>(code: seq<Option<T>>, done: Word<Node<T>>, pending: Word<Node<T>>)
    requires Progress(code, |code|, done, pending)
    ensures FlatOf(done + pending) == code + seq(Height(code, 0).value, i => None)
    ensures Height(code, 0) == Some(0) ==> pending == [] && FlatOf(done + pending) == code
  {
    assert code[..|code|] == code;
    FlatConcat(done, pending);
    assert forall i | 0 <= i < |pending| :: pending[i] in pending;
    assert FlatOf(pending) == seq(|pending|, i => None);
  }

  lemma AfterPut<A>(base: seq<A>, at: nat, done: seq<A>)
    requires at < |base|
    ensures var w, m, s := PutAt(base, at, done), at + |done|, base[at..|base| - 1];
      && |w| == |base| + |done| && w == base[..at] + done + s + [base[|base| - 1]]
      && forall k: nat | k < |s| :: w[m + k] == s[k]
           && w[..m + k + 1] == base[..at] + done + s[..k + 1] && w[m + k + 1..|w| - 1] == s[k + 1..]
  {
  }

  lemma InsertedAt<A>(base: seq<A>, at: nat, done: seq<A>, pending: seq<A>)
    requires at <= |base| && pending != []
    ensures PutAt(base, at, done + pending)[at + |done|] == pending[0]
    ensures done + pending == (done + [pending[0]]) + pending[1..]
  {
  }

  lemma InsertAmong<A>(base: seq<A>, at: nat, done: seq<A>, pending: seq<A>, pair: seq<A>)
    requires at <= |base|
    ensures PutAt(PutAt(base, at, done + pending), at + |done|, pair) == PutAt(base, at, done + (pair + pending))
  {
  }
}
