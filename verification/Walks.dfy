/** Fullorder walks of an ordered forest, as words.

    A node is visited twice, on its leading and on its trailing edge.  A word of such visits is the
    walk of some ordered forest exactly when it is well nested, which `Run` decides with a stack.
  */
module Walks {
  import opened Basics

  datatype Edge = Trailing | Leading

  function Pivot(e: Edge): Edge {
    if e.Leading? then Trailing else Leading
  }

  datatype Visit<+N> = Visit(node: N, edge: Edge)

  type Word<+N> = seq<Visit<N>>

  // ---------------------------------------------------------------------------
  // Nesting

  /** Pushes on a leading visit; a trailing visit must close the node opened last. */
  function Run<N(==)>(stack: seq<N>, w: Word<N>): Option<seq<N>>
    decreases w
  {
    if w == [] then Some(stack)
    else if w[0].edge.Leading? then Run(stack + [w[0].node], w[1..])
    else if stack != [] && stack[|stack| - 1] == w[0].node then Run(stack[..|stack| - 1], w[1..])
    else None
  }

  predicate WellNested<N(==)>(w: Word<N>) {
    Run([], w) == Some([])
  }

  /** `Differ` is named so that a proof asks for the pairs it needs. */
  ghost predicate Differ<A>(w: seq<A>, i: nat, j: nat)
    requires i < j < |w|
  {
    w[i] != w[j]
  }

  ghost predicate Distinct<A>(w: seq<A>) {
    forall i: nat, j: nat | i < j < |w| :: Differ(w, i, j)
  }

  lemma {:induction false} RunConcat<N>(stack: seq<N>, a: Word<N>, b: Word<N>)
    ensures Run(stack, a + b) == if Run(stack, a).None? then None else Run(Run(stack, a).value, b)
    decreases a
  {
    if a == [] {
      assert a + b == b;
    } else {
      assert (a + b)[0] == a[0] && (a + b)[1..] == a[1..] + b;
      if a[0].edge.Leading? {
        RunConcat(stack + [a[0].node], a[1..], b);
      } else if stack != [] && stack[|stack| - 1] == a[0].node {
        RunConcat(stack[..|stack| - 1], a[1..], b);
      }
    }
  }

  /** What lies below the stack does not matter to a word that never digs that deep. */
  lemma {:induction false} RunAbove<N>(below: seq<N>, stack: seq<N>, w: Word<N>)
    requires Run(stack, w).Some?
    ensures Run(below + stack, w) == Some(below + Run(stack, w).value)
    decreases w
  {
    if w != [] {
      var s := below + stack;
      if w[0].edge.Leading? {
        assert s + [w[0].node] == below + (stack + [w[0].node]);
        RunAbove(below, stack + [w[0].node], w[1..]);
      } else {
        assert s[..|s| - 1] == below + stack[..|stack| - 1];
        RunAbove(below, stack[..|stack| - 1], w[1..]);
      }
    }
  }

  /** A well-nested segment may be cut out of, or pasted into, any word at any place. */
  lemma SegmentIsNeutral<N>(stack: seq<N>, a: Word<N>, s: Word<N>, b: Word<N>)
    requires WellNested(s)
    ensures Run(stack, a + s + b) == Run(stack, a + b)
  {
    RunConcat(stack, a, s + b);
    RunConcat(stack, a, b);
    assert a + s + b == a + (s + b);
    if Run(stack, a).Some? {
      var t := Run(stack, a).value;
      RunConcat(t, s, b);
      RunAbove(t, [], s);
      assert t + [] == t;
    }
  }

  lemma PairIsWellNested<N>(n: N)
    ensures WellNested([Visit(n, Leading), Visit(n, Trailing)])
  {
    var w := [Visit(n, Leading), Visit(n, Trailing)];
    assert w[1..] == [Visit(n, Trailing)];
    assert Run([n], w[1..]) == Run([], w[1..][1..]);
    assert [] + [n] == [n];
  }

  lemma WrapIsWellNested<N>(n: N, s: Word<N>)
    requires WellNested(s)
    ensures WellNested([Visit(n, Leading)] + s + [Visit(n, Trailing)])
  {
    SegmentIsNeutral([], [Visit(n, Leading)], s, [Visit(n, Trailing)]);
    PairIsWellNested(n);
    assert [Visit(n, Leading)] + [Visit(n, Trailing)] == [Visit(n, Leading), Visit(n, Trailing)];
  }

  /** The visit that closes `n`, when `n` is open below `above`. */
  lemma {:induction false} ClosingVisit<N>(stack: seq<N>, n: N, above: seq<N>, w: Word<N>) returns (k: nat)
    requires var r := Run(stack + [n] + above, w); r.Some? && |r.value| <= |stack|
    ensures k < |w| && w[k] == Visit(n, Trailing) && Run(above, w[..k]) == Some([])
    decreases w
  {
    var s := stack + [n] + above;
    if w[0].edge.Leading? {
      assert s + [w[0].node] == stack + [n] + (above + [w[0].node]);
      k := ClosingVisit(stack, n, above + [w[0].node], w[1..]);
    } else if above == [] {
      assert s[|s| - 1] == n;
      k := 0;
      return;
    } else {
      assert s[..|s| - 1] == stack + [n] + above[..|above| - 1];
      assert above[|above| - 1] == w[0].node;
      k := ClosingVisit(stack, n, above[..|above| - 1], w[1..]);
    }
    k := k + 1;
    assert w[..k][0] == w[0] && w[..k][1..] == w[1..][..k - 1];
  }

  /** The visit that opens the node on top of the stack. */
  lemma {:induction false} OpeningVisit<N>(w: Word<N>) returns (k: nat)
    requires var r := Run([], w); r.Some? && r.value != []
    ensures k < |w| && w[k].edge.Leading? && WellNested(w[k + 1..])
    ensures Run([], w[..k]) == Some(var t := Run([], w).value; t[..|t| - 1])
    ensures var t := Run([], w).value; w[k].node == t[|t| - 1]
    decreases |w|
  {
    var last := |w| - 1;
    assert w == w[..last] + [w[last]];
    RunConcat([], w[..last], [w[last]]);
    if w[last].edge.Leading? {
      k := last;
    } else {
      var m := OpeningVisit(w[..last]);
      assert w[..last][..m] == w[..m];
      k := OpeningVisit(w[..m]);
      assert w[..m][..k] == w[..k];
      var inner := w[..m][k + 1..];
      var s := w[..last][m + 1..];
      WrapIsWellNested(w[m].node, s);
      var wrapped := [w[m]] + s + [w[last]];
      assert w[k + 1..] == inner + wrapped + [];
      SegmentIsNeutral([], inner, wrapped, []);
      assert inner + [] == inner;
    }
  }

  lemma RunFrom<N>(w: Word<N>, i: nat)
    requires WellNested(w) && i < |w|
    ensures var r := Run([], w[..i]);
      r.Some? && Run(r.value, w[i..]) == Some([])
    ensures w[i].edge.Leading? ==> Run(Run([], w[..i]).value + [w[i].node], w[i + 1..]) == Some([])
  {
    assert w == w[..i] + w[i..] && w[i..][1..] == w[i + 1..];
    RunConcat([], w[..i], w[i..]);
  }

  lemma Closing<N>(w: Word<N>, i: nat) returns (j: nat)
    requires WellNested(w) && i < |w| && w[i].edge.Leading?
    ensures i < j < |w| && w[j] == Visit(w[i].node, Trailing) && WellNested(w[i + 1..j])
  {
    hide Run;
    RunFrom(w, i);
    var n := w[i].node;
    var s := Run([], w[..i]).value;
    assert s + [n] + [] == s + [n];
    j := ClosingVisit(s, n, [], w[i + 1..]);
    assert w[i + 1..][..j] == w[i + 1..i + 1 + j];
    j := i + 1 + j;
  }

  lemma Opening<N>(w: Word<N>, j: nat) returns (i: nat)
    requires WellNested(w) && j < |w| && w[j].edge.Trailing?
    ensures i < j && w[i] == Visit(w[j].node, Leading) && WellNested(w[i + 1..j])
  {
    assert w == w[..j] + w[j..];
    RunConcat([], w[..j], w[j..]);
    i := OpeningVisit(w[..j]);
    assert w[..j][i + 1..] == w[i + 1..j];
  }

  lemma Matching<N>(w: Word<N>, i: nat) returns (j: nat)
    requires WellNested(w) && i < |w|
    ensures j < |w| && w[j] == Visit(w[i].node, Pivot(w[i].edge))
  {
    if w[i].edge.Leading? { j := Closing(w, i); } else { j := Opening(w, i); }
  }

  lemma {:induction false} StackHeight<N>(stack: seq<N>, w: Word<N>)
    requires Run(stack, w).Some?
    ensures (|w| + |stack| + |Run(stack, w).value|) % 2 == 0
    decreases w
  {
    if w != [] {
      StackHeight(if w[0].edge.Leading? then stack + [w[0].node] else stack[..|stack| - 1], w[1..]);
    }
  }

  lemma EvenLength<N>(w: Word<N>)
    requires WellNested(w)
    ensures |w| % 2 == 0
  {
    StackHeight([], w);
  }

  lemma WellNestedEnds<N>(s: Word<N>)
    requires WellNested(s) && s != []
    ensures s[0].edge.Leading? && s[|s| - 1].edge.Trailing?
  {
    if s[|s| - 1].edge.Leading? {
      var j := Closing(s, |s| - 1);
    }
  }

  // ---------------------------------------------------------------------------
  // A whole forest: the root's two visits around everything else, read circularly

  ghost predicate Rooted<N>(w: Word<N>) {
    && |w| >= 2
    && WellNested(w)
    && Distinct(w)
    && w[0].edge.Leading?
    && w[|w| - 1] == Visit(w[0].node, Trailing)
  }

  function Succ(i: nat, n: nat): nat
    requires i < n
  {
    if i + 1 == n then 0 else i + 1
  }

  function Pred(i: nat, n: nat): nat
    requires i < n
  {
    if i == 0 then n - 1 else i - 1
  }

  /** After a leading visit comes the same node exactly when the walk turns back. */
  lemma AfterLeading<N>(w: Word<N>, i: nat)
    requires Rooted(w) && i < |w| && w[i].edge.Leading?
    ensures i + 1 < |w|
    ensures w[i + 1].node == w[i].node <==> w[i + 1].edge.Trailing?
  {
    var j := Closing(w, i);
    assert Differ(w, i, i + 1);
    if i + 1 < j {
      WellNestedEnds(w[i + 1..j]);
      assert w[i + 1..j][0] == w[i + 1];
    }
  }

  /** Before a trailing visit comes the same node exactly when the walk has just turned. */
  lemma BeforeTrailing<N>(w: Word<N>, j: nat)
    requires Rooted(w) && j < |w| && w[j].edge.Trailing?
    ensures 0 < j
    ensures w[j - 1].node == w[j].node <==> w[j - 1].edge.Leading?
  {
    var i := Opening(w, j);
    assert Differ(w, j - 1, j);
    if i < j - 1 {
      var s := w[i + 1..j];
      WellNestedEnds(s);
      assert s[|s| - 1] == w[j - 1];
    }
  }

  lemma SamePlace<A>(w: seq<A>, i: nat, j: nat)
    requires Distinct(w) && i < |w| && j < |w|
    ensures w[i] == w[j] <==> i == j
  {
    if i < j { assert Differ(w, i, j); }
    if j < i { assert Differ(w, j, i); }
  }

  lemma NoThirdVisit<N>(w: Word<N>, a: nat, b: nat, k: nat)
    requires Distinct(w) && a < |w| && b < |w| && k < |w|
    requires w[b] == Visit(w[a].node, Pivot(w[a].edge))
    ensures w[k].node == w[a].node ==> k == a || k == b
  {
    assert w[k].node == w[a].node ==> w[k] == w[a] || w[k] == w[b];
    SamePlace(w, k, a);
    SamePlace(w, k, b);
  }

  /** The visit after a trailing visit `w[i]` belongs to a node `m`; it is the leading visit of `m`
      exactly when the visit before the leading visit of `m` belongs to the node of `w[i]`. */
  lemma AfterTrailing<N>(w: Word<N>, i: nat, l: nat)
    requires Rooted(w) && i < |w| && l < |w| && w[i].edge.Trailing?
    requires w[l] == Visit(w[Succ(i, |w|)].node, Leading)
    ensures w[Pred(l, |w|)].node == w[i].node <==> w[Succ(i, |w|)].edge.Leading?
  {
    var k := Succ(i, |w|);
    if w[k].edge.Leading? {
      SamePlace(w, l, k);
    } else {
      // w[i] closes the last child of the node that w[k] closes, so the child opens after l
      var o := Opening(w, k);
      SamePlace(w, o, l);
      var c := BothVisitsInside(w, l, k, i);
      NoThirdVisit(w, i, c, Pred(l, |w|));
    }
  }

  /** Mirror image of `AfterTrailing`. */
  lemma BeforeLeading<N>(w: Word<N>, i: nat, t: nat)
    requires Rooted(w) && i < |w| && t < |w| && w[i].edge.Leading?
    requires w[t] == Visit(w[Pred(i, |w|)].node, Trailing)
    ensures w[Succ(t, |w|)].node == w[i].node <==> w[Pred(i, |w|)].edge.Trailing?
  {
    var k := Pred(i, |w|);
    if w[k].edge.Trailing? {
      SamePlace(w, t, k);
    } else {
      var o := Closing(w, k);
      SamePlace(w, o, t);
      var c := BothVisitsInside(w, k, t, i);
      NoThirdVisit(w, i, c, Succ(t, |w|));
    }
  }

  /** A node visited strictly between the two visits of another has both visits there. */
  lemma BothVisitsInside<N>(w: Word<N>, i: nat, j: nat, k: nat) returns (o: nat)
    requires WellNested(w) && Distinct(w) && i < k < j < |w|
    requires w[i].edge.Leading? && w[j] == Visit(w[i].node, Trailing)
    ensures i < o < j && w[o] == Visit(w[k].node, Pivot(w[k].edge))
  {
    var j' := Closing(w, i);
    SamePlace(w, j', j);
    var s := w[i + 1..j];
    if w[k].edge.Leading? {
      o := Closing(s, k - (i + 1));
    } else {
      o := Opening(s, k - (i + 1));
    }
    o := i + 1 + o;
  }
}
