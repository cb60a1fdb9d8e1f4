/** Erasing a range of visits: what a single pass with a depth counter removes, and what it should. */
module Ranges {
  import opened Basics
  import opened Walks
  import opened Edits

  /** The nodes with both visits in `s`. */
  ghost function Covered<N>(s: Word<N>): set<N> {
    set v | v in s && v.edge.Leading? && Visit(v.node, Trailing) in s :: v.node
  }

  /** What is left of a range: visits that close nodes opened before it, then visits that stay open. */
  datatype Residue<N> = Residue(closing: Word<N>, open: Word<N>) {
    function Kept(): Word<N> { closing + open }
  }

  /** One step of the pass: a trailing visit closes the node opened last, if one is open. */
  ghost function Pass<N>(r: Residue<N>, v: Visit<N>): Residue<N> {
    if v.edge.Leading? then Residue(r.closing, r.open + [v])
    else if r.open != [] then Residue(r.closing, r.open[..|r.open| - 1])
    else Residue(r.closing + [v], [])
  }

  ghost function Reduce<N>(s: Word<N>): Residue<N> {
    if s == [] then Residue([], []) else Pass(Reduce(s[..|s| - 1]), s[|s| - 1])
  }

  /** The open visits of a residue are the top of the stack of open nodes. */
  ghost predicate Tracks<N>(r: Residue<N>, stack: seq<N>) {
    && |r.open| <= |stack|
    && (forall k | 0 <= k < |r.open| :: r.open[k] == Visit(stack[|stack| - |r.open| + k], Leading))
    && (forall v | v in r.closing :: v.edge.Trailing?)
  }

  lemma PassTracks<N>(r: Residue<N>, stack: seq<N>, v: Visit<N>)
    requires Tracks(r, stack) && Run(stack, [v]).Some?
    ensures Tracks(Pass(r, v), Run(stack, [v]).value)
    ensures v.edge.Trailing? && r.open != [] ==> r.open[|r.open| - 1] == Visit(v.node, Leading)
  {
    assert [v][1..] == [];
  }

  lemma {:induction false} WithoutMore<N>(w: Word<N>, gone: set<N>, n: N)
    ensures Without(w, gone + {n}) == Without(Without(w, gone), {n})
  {
    if w != [] {
      var head := if w[0].node in gone then [] else [w[0]];
      WithoutMore(w[1..], gone, n);
      WithoutConcat(head, Without(w[1..], gone), {n});
    }
  }

  lemma {:induction false} WithoutMembers<N>(w: Word<N>, gone: set<N>)
    ensures forall v :: v in Without(w, gone) <==> v in w && v.node !in gone
  {
    if w != [] {
      WithoutMembers(w[1..], gone);
      assert w == [w[0]] + w[1..];
    }
  }

  lemma WithoutLast<N>(s: Word<N>, v: Visit<N>, gone: set<N>)
    ensures Without(s + [v], gone) == Without(s, gone) + if v.node in gone then [] else [v]
  {
    WithoutConcat(s, [v], gone);
    assert [v][1..] == [];
  }

  lemma PrefixRuns<N>(w: Word<N>, k: nat)
    requires WellNested(w) && k <= |w|
    ensures Run([], w[..k]).Some?
  {
    assert w == w[..k] + w[k..];
    RunConcat([], w[..k], w[k..]);
  }

  /** The visits of `v`'s node in the range read so far, when `v` comes next. */
  lemma NextVisit<N>(w: Word<N>, i: nat, k: nat)
    requires Rooted(w) && i <= k < |w|
    ensures var s, v := w[i..k], w[k];
      v !in s && (v.edge.Leading? ==> Visit(v.node, Trailing) !in s)
  {
    var s, v := w[i..k], w[k];
    if v in s {
      SamePlace(w, i + IndexOf(s, v), k);
    }
    var other := Visit(v.node, Trailing);
    if v.edge.Leading? && other in s {
      var j := Closing(w, k);
      SamePlace(w, j, i + IndexOf(s, other));
    }
  }

  /** The pass leaves exactly the visits whose node is not wholly inside the range. */
  lemma {:induction false} PassErasesCovered<N>(w: Word<N>, i: nat, k: nat)
    requires Rooted(w) && i <= k <= |w|
    ensures Run([], w[..k]).Some? && Tracks(Reduce(w[i..k]), Run([], w[..k]).value)
    ensures Reduce(w[i..k]).Kept() == Without(w[i..k], Covered(w[i..k]))
    decreases k
  {
    hide Reduce, Pass, Covered, Without, Run, Tracks, Distinct;
    PrefixRuns(w, k);
    if i == k {
      NothingPassed(w, k);
    } else {
      var s, v := w[i..k - 1], w[k - 1];
      LastApart(w, i, k);
      ReduceNext(w, i, k - 1);
      Apart(w[..i], s, w[k - 1..]);
      NextVisit(w, i, k - 1);
      PassErasesCovered(w, i, k - 1);
      RunConcat([], w[..k - 1], [v]);
      PassTracks(Reduce(s), Run([], w[..k - 1]).value, v);
      TracksClosing(Reduce(s), Run([], w[..k - 1]).value);
      PassStep(s, v, Reduce(s));
    }
  }

  lemma LastApart<A>(w: seq<A>, i: nat, k: nat)
    requires i < k <= |w|
    ensures w[i..k] == w[i..k - 1] + [w[k - 1]] && w[..k] == w[..k - 1] + [w[k - 1]]
    ensures w == w[..i] + w[i..k - 1] + w[k - 1..]
  {
  }

  lemma NothingPassed<N>(w: Word<N>, k: nat)
    requires k <= |w| && Run([], w[..k]).Some?
    ensures Tracks(Reduce(w[k..k]), Run([], w[..k]).value)
    ensures Reduce(w[k..k]).Kept() == Without(w[k..k], Covered(w[k..k]))
  {
    assert w[k..k] == [];
  }

  lemma TracksClosing<N>(r: Residue<N>, stack: seq<N>)
    requires Tracks(r, stack)
    ensures forall u | u in r.closing :: u.edge.Trailing?
  {
  }

  lemma {:induction false} WithoutDistinct<N>(w: Word<N>, gone: set<N>)
    requires Distinct(w)
    ensures Distinct(Without(w, gone))
  {
    if w != [] {
      assert w == [w[0]] + w[1..] + [];
      Apart([w[0]], w[1..], []);
      WithoutDistinct(w[1..], gone);
      WithoutMembers(w[1..], gone);
      var r := Without(w[1..], gone);
      assert [] + [w[0]] + r == [w[0]] + r && [] + r == r;
      DistinctPaste([], [w[0]], r);
    }
  }

  lemma WithoutLastNode<N>(a: Word<N>, v: Visit<N>)
    requires Distinct(a + [v]) && Visit(v.node, Pivot(v.edge)) !in a
    ensures Without(a + [v], {v.node}) == a
  {
    WithoutLast(a, v, {v.node});
    DistinctLast(a, v);
    forall k: nat | k < |a| ensures a[k].node !in {v.node} {
      var u := a[k];
      assert u in a && u == Visit(u.node, u.edge) && (u.edge == v.edge || u.edge == Pivot(v.edge));
    }
    WithoutNone(a, {v.node});
  }

  lemma CoveredByNext<N>(s: Word<N>, v: Visit<N>)
    requires v !in s && (v.edge.Leading? ==> Visit(v.node, Trailing) !in s)
    ensures Covered(s + [v]) == Covered(s) + if Visit(v.node, Pivot(v.edge)) in s then {v.node} else {}
    ensures v.node !in Covered(s)
  {
    assert forall u :: u in s + [v] <==> u in s || u == v;
  }

  lemma PassStep<N>(s: Word<N>, v: Visit<N>, r: Residue<N>)
    requires Distinct(s)
    requires v !in s && (v.edge.Leading? ==> Visit(v.node, Trailing) !in s)
    requires r.Kept() == Without(s, Covered(s))
    requires forall u | u in r.closing :: u.edge.Trailing?
    requires v.edge.Trailing? && r.open != [] ==> r.open[|r.open| - 1] == Visit(v.node, Leading)
    ensures Pass(r, v).Kept() == Without(s + [v], Covered(s + [v]))
  {
    hide Covered, Without, Distinct;
    var other := Visit(v.node, Pivot(v.edge));
    CoveredByNext(s, v);
    WithoutLast(s, v, Covered(s + [v]));
    WithoutMembers(s, Covered(s));
    assert other in s ==> other in r.Kept() && other in r.open;
    assert r.open != [] ==> r.open[|r.open| - 1] in r.Kept();
    if other in s {
      ClosingStep(s, v, r);
    } else {
      assert Covered(s + [v]) == Covered(s);
    }
  }

  lemma ClosingStep<N>(s: Word<N>, v: Visit<N>, r: Residue<N>)
    requires Distinct(s) && v.edge.Trailing? && v !in s
    requires r.Kept() == Without(s, Covered(s))
    requires r.open != [] && r.open[|r.open| - 1] == Visit(v.node, Leading)
    ensures Pass(r, v).Kept() == Without(s, Covered(s) + {v.node})
  {
    var other := Visit(v.node, Leading);
    var a := Pass(r, v).Kept();
    assert a + [other] == r.Kept();
    assert v !in a by {
      WithoutMembers(s, Covered(s));
      assert forall u | u in a :: u in a + [other];
    }
    WithoutDistinct(s, Covered(s));
    WithoutLastNode(a, other);
    WithoutMore(s, Covered(s), v.node);
  }

  // ---------------------------------------------------------------------------
  // A whole word while a range of it is being erased

  /** `w` when the pass over the range from index `i` has come to index `k`. */
  ghost function Partly<N>(w: Word<N>, i: nat, k: nat): Word<N>
    requires i <= k <= |w|
  {
    w[..i] + Reduce(w[i..k]).Kept() + w[k..]
  }

  /** Where the visit to be looked at next then stands. */
  ghost function Here<N>(w: Word<N>, i: nat, k: nat): nat
    requires i <= k <= |w|
  {
    i + |Reduce(w[i..k]).Kept()|
  }

  lemma NothingErased<N>(w: Word<N>, i: nat)
    requires i <= |w|
    ensures Partly(w, i, i) == w && Reduce(w[i..i]).open == []
  {
  }

  lemma LastStays<N>(w: Word<N>, i: nat, j: nat)
    requires Rooted(w) && i <= j < |w|
    ensures Partly(w, i, j) == Without(w, Covered(w[i..j])) && w[j] in Partly(w, i, j)
  {
    PartlyErased(w, i, j);
    CoveredApart(w, i, j, j);
    WithoutMembers(w, Covered(w[i..j]));
  }

  lemma ReduceNext<N>(w: Word<N>, i: nat, k: nat)
    requires i <= k < |w|
    ensures Reduce(w[i..k + 1]) == Pass(Reduce(w[i..k]), w[k])
  {
    assert w[i..k + 1][..k - i] == w[i..k];
  }

  lemma PartlyErased<N>(w: Word<N>, i: nat, k: nat)
    requires Rooted(w) && i <= k <= |w|
    ensures Partly(w, i, k) == Without(w, Covered(w[i..k]))
  {
    hide Covered, Reduce, Distinct, WellNested, Without;
    var s := w[i..k];
    var gone := Covered(s);
    forall l: nat | l < |w| && (l < i || k <= l) ensures w[l].node !in gone {
      CoveredApart(w, i, k, l);
    }
    PassErasesCovered(w, i, k);
    assert w == w[..i] + s + w[k..];
    WithoutConcat(w[..i] + s, w[k..], gone);
    WithoutConcat(w[..i], s, gone);
    WithoutNone(w[..i], gone);
    WithoutNone(w[k..], gone);
  }

  lemma CoveredApart<N>(w: Word<N>, i: nat, k: nat, l: nat)
    requires Distinct(w) && i <= k <= |w| && l < |w| && (l < i || k <= l)
    ensures w[l].node !in Covered(w[i..k])
  {
    var s := w[i..k];
    if w[l].node in Covered(s) {
      var a, b := IndexOf(s, Visit(w[l].node, Leading)), IndexOf(s, Visit(w[l].node, Trailing));
      NoThirdVisit(w, i + a, i + b, l);
    }
  }

  /** A visit that the pass leaves in place, for now. */
  lemma PassKeeps<N>(w: Word<N>, i: nat, k: nat)
    requires Rooted(w) && i <= k < |w| - 1
    requires w[k].edge.Leading? || Reduce(w[i..k]).open == []
    ensures Partly(w, i, k + 1) == Partly(w, i, k)
    ensures Here(w, i, k) + 1 < |Partly(w, i, k)|
    ensures Partly(w, i, k)[Here(w, i, k)] == w[k] && Partly(w, i, k)[Here(w, i, k) + 1] == w[k + 1]
  {
    ReduceNext(w, i, k);
    hide Reduce;
    assert Reduce(w[i..k + 1]).Kept() == Reduce(w[i..k]).Kept() + [w[k]];
  }

  /** A visit whose node the pass erases: both its visits are in the range. */
  lemma PassDrops<N>(w: Word<N>, i: nat, k: nat)
    requires Rooted(w) && i <= k < |w| - 1
    requires w[k].edge.Trailing? && Reduce(w[i..k]).open != []
    ensures Partly(w, i, k + 1) == Without(Partly(w, i, k), {w[k].node})
    ensures Here(w, i, k) + 1 < |Partly(w, i, k)|
    ensures Partly(w, i, k)[Here(w, i, k)] == w[k] && Partly(w, i, k)[Here(w, i, k) + 1] == w[k + 1]
    ensures w[k + 1].node != w[k].node && w[k].node != w[0].node
  {
    hide Covered, Without, Reduce;
    var s, v, n := w[i..k], w[k], w[k].node;
    OpenLast(w, i, k);
    assert w[i..k + 1] == s + [v];
    CoveredByNext(s, v);
    PartlyErased(w, i, k);
    PartlyErased(w, i, k + 1);
    WithoutMore(w, Covered(s), n);
    NextOfDropped(w, i + IndexOf(s, Visit(n, Leading)), k);
  }

  lemma NextOfDropped<N>(w: Word<N>, l: nat, k: nat)
    requires Rooted(w) && l < k < |w| - 1 && w[l] == Visit(w[k].node, Leading) && w[k].edge.Trailing?
    ensures w[k + 1].node != w[k].node && w[k].node != w[0].node
  {
    NoThirdVisit(w, l, k, k + 1);
    NoThirdVisit(w, l, k, |w| - 1);
  }

  lemma OpenLast<N>(w: Word<N>, i: nat, k: nat)
    requires Rooted(w) && i <= k < |w|
    requires w[k].edge.Trailing? && Reduce(w[i..k]).open != []
    ensures Visit(w[k].node, Leading) in w[i..k] && w[k] !in w[i..k]
  {
    var s, r := w[i..k], Reduce(w[i..k]);
    NextVisit(w, i, k);
    PassErasesCovered(w, i, k);
    PrefixRuns(w, k + 1);
    assert w[..k + 1] == w[..k] + [w[k]];
    RunConcat([], w[..k], [w[k]]);
    PassTracks(r, Run([], w[..k]).value, w[k]);
    assert r.open[|r.open| - 1] in r.Kept();
    WithoutMembers(s, Covered(s));
  }

  /** Everything between the root's visits is whole subtrees, so all of it goes. */
  lemma AllCovered<N>(w: Word<N>)
    requires Rooted(w)
    ensures WellNested(w[1..|w| - 1])
    ensures Without(w, Covered(w[1..|w| - 1])) == [w[0], w[|w| - 1]]
  {
    hide Covered, Without, Run, WellNested, Distinct;
    var last := |w| - 1;
    var j := Closing(w, 0);
    SamePlace(w, j, last);
    var s := w[1..last];
    CoveredApart(w, 1, last, 0);
    CoveredApart(w, 1, last, last);
    InsideCovered(s);
    assert w == [w[0]] + s + [w[last]];
    OnlyEndsStay(w[0], s, w[last], Covered(s));
  }

  lemma InsideCovered<N>(s: Word<N>)
    requires WellNested(s)
    ensures forall k: nat | k < |s| :: s[k].node in Covered(s)
  {
    forall k: nat | k < |s| ensures s[k].node in Covered(s) {
      var m := Matching(s, k);
      assert s[k] in s && s[m] in s;
      assert Visit(s[k].node, Leading) in s && Visit(s[k].node, Trailing) in s;
    }
  }

  lemma OnlyEndsStay<N>(a: Visit<N>, s: Word<N>, b: Visit<N>, gone: set<N>)
    requires a.node !in gone && b.node !in gone
    requires forall k: nat | k < |s| :: s[k].node in gone
    ensures Without([a] + s + [b], gone) == [a, b]
  {
    WithoutLast([a] + s, b, gone);
    WithoutConcat([a], s, gone);
    WithoutLast([], a, gone);
    assert [] + [a] == [a];
    WithoutAll(s, gone);
  }

  lemma {:induction false} WithoutAll<N>(w: Word<N>, gone: set<N>)
    requires forall k: nat | k < |w| :: w[k].node in gone
    ensures Without(w, gone) == []
  {
    if w != [] { WithoutAll(w[1..], gone); }
  }

  // ---------------------------------------------------------------------------
  // Which nodes a range takes with it

  ghost predicate Gone<N>(w: Word<N>, n: N) {
    forall v | v in w :: v.node != n
  }

  ghost predicate BothIn<N>(s: Word<N>, v: Visit<N>) {
    v in s && Visit(v.node, Pivot(v.edge)) in s
  }

  /** A node that the range visits goes exactly when the range has both its visits; so all the nodes visited go
      exactly when the range has no node's visit alone. */
  lemma WholeNodesGo<N>(w: Word<N>, s: Word<N>)
    requires forall v | v in s :: v in w
    ensures forall v | v in s :: Gone(Without(w, Covered(s)), v.node) <==> BothIn(s, v)
    ensures (forall v | v in s :: Gone(Without(w, Covered(s)), v.node)) <==> (forall v | v in s :: BothIn(s, v))
  {
    WithoutMembers(w, Covered(s));
    hide Without;
    forall v | v in s ensures Gone(Without(w, Covered(s)), v.node) <==> BothIn(s, v) {
      var other := Visit(v.node, Pivot(v.edge));
      if v.node !in Covered(s) {
        assert v in Without(w, Covered(s));
      }
      assert v.node in Covered(s) <==> Visit(v.node, Leading) in s && Visit(v.node, Trailing) in s;
    }
  }

  /** The leading visit alone, in a forest of one node. */
  lemma HalfCovered<N>(w: Word<N>)
    requires |w| == 4 && Rooted(w) && w[1].edge.Leading? && w[2] == Visit(w[1].node, Trailing)
    ensures InOrder(w, w[1], w[2]) && w[1] in Between(w, w[1], w[2])
    ensures Without(w, Covered(Between(w, w[1], w[2]))) == w && !Gone(w, w[1].node)
  {
    hide WellNested;
    IndexIsUnique(w, 1);
    IndexIsUnique(w, 2);
    var s := Between(w, w[1], w[2]);
    assert s == [w[1]];
    assert Covered(s) == {};
    WithoutNone(w, Covered(s));
  }
}
