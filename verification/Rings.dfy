/** Links as values: what each position stores about its neighbours, and when that agrees with a word. */
module Rings {
  import opened Basics
  import opened Walks
  import opened Edits

  /** For every position, the node that follows it and the node that precedes it (but not their edges). */
  datatype Threads<N(==)> = Threads(next: map<Visit<N>, N>, prior: map<Visit<N>, N>) {

    ghost function Set(x: Visit<N>, y: Visit<N>): Threads<N> {
      Threads(next[x := y.node], prior[y := x.node])
    }

    ghost predicate Linked(a: Visit<N>, b: Visit<N>) {
      && a in next && next[a] == b.node
      && b in prior && prior[b] == a.node
    }

    /** Neighbours in `w` are linked both ways. */
    ghost predicate Chain(w: Word<N>) {
      forall i: nat | i + 1 < |w| :: LinkedAt(w, i)
    }

    ghost predicate LinkedAt(w: Word<N>, i: nat)
      requires i + 1 < |w|
    {
      Linked(w[i], w[i + 1])
    }

    ghost predicate Ring(w: Word<N>) {
      w != [] && Chain(w) && Linked(w[|w| - 1], w[0])
    }

    ghost predicate AgreesOn(other: Threads<N>, w: Word<N>) {
      forall v | v in w ::
        && v in next && v in other.next && next[v] == other.next[v]
        && v in prior && v in other.prior && prior[v] == other.prior[v]
    }

    lemma ChainConcat(a: Word<N>, b: Word<N>)
      requires a != [] && b != []
      ensures Chain(a + b) <==> Chain(a) && Chain(b) && Linked(a[|a| - 1], b[0])
    {
      var w := a + b;
      assert forall i | 0 <= i < |a| :: w[i] == a[i];
      assert forall i | 0 <= i < |b| :: w[|a| + i] == b[i];
      if Chain(w) {
        forall i: nat | i + 1 < |a| ensures LinkedAt(a, i) { assert LinkedAt(w, i); }
        forall i: nat | i + 1 < |b| ensures LinkedAt(b, i) { assert LinkedAt(w, |a| + i); }
        assert LinkedAt(w, |a| - 1);
      }
      if Chain(a) && Chain(b) && Linked(a[|a| - 1], b[0]) {
        forall i: nat | i + 1 < |w| ensures LinkedAt(w, i) {
          if i + 1 < |a| { assert LinkedAt(a, i); }
          if i >= |a| { assert LinkedAt(b, i - |a|); }
        }
      }
    }

    lemma RingNeighbours(w: Word<N>, i: nat)
      requires Ring(w) && i < |w|
      ensures Linked(w[i], w[Succ(i, |w|)]) && Linked(w[Pred(i, |w|)], w[i])
    {
      if i + 1 < |w| { assert LinkedAt(w, i); }
      if i > 0 { assert LinkedAt(w, i - 1); }
    }

    lemma AgreeingChain(other: Threads<N>, w: Word<N>)
      requires Chain(w) && AgreesOn(other, w)
      ensures other.Chain(w)
      ensures Ring(w) ==> other.Ring(w)
    {
      forall i: nat | i + 1 < |w| ensures other.LinkedAt(w, i) { assert LinkedAt(w, i); }
    }

    lemma SetKeepsChain(x: Visit<N>, y: Visit<N>, w: Word<N>)
      requires Chain(w) && Distinct(w) && w != []
      requires x in w ==> x == w[|w| - 1]
      requires y in w ==> y == w[0]
      ensures Set(x, y).Chain(w)
    {
      forall i: nat | i + 1 < |w| ensures Set(x, y).LinkedAt(w, i) {
        assert LinkedAt(w, i) && Differ(w, i, |w| - 1) && Differ(w, 0, i + 1);
      }
    }

    /** Linking the neighbours of a segment to each other leaves a ring without it, and the segment whole. */
    lemma Detach(a: Word<N>, s: Word<N>, b: Word<N>)
      requires a != [] && s != [] && b != []
      requires Distinct(a + s + b) && Ring(a + s + b)
      ensures var l := Set(a[|a| - 1], b[0]); l.Ring(a + b) && l.Chain(s)
    {
      var x, y := a[|a| - 1], b[0];
      Apart(a, s, b);
      ChainConcat(a + s, b);
      ChainConcat(a, s);
      SetKeepsChain(x, y, a);
      SetKeepsChain(x, y, s);
      SetKeepsChain(x, y, b);
      Set(x, y).ChainConcat(a, b);
    }

    /** Linking a detached segment to a position and to the one before puts it between them. */
    lemma PutAtRing(w: Word<N>, at: nat, s: Word<N>)
      requires 0 < at < |w| && s != []
      requires Distinct(PutAt(w, at, s)) && Ring(w) && Chain(s)
      ensures Set(w[at - 1], s[0]).Set(s[|s| - 1], w[at]).Ring(PutAt(w, at, s))
    {
      var a, b := w[..at], w[at..];
      assert w == a + b;
      Apart(a, s, b);
      ChainConcat(a, b);
      KeepThree(a[|a| - 1], s[0], a, s, b);
      assert b[|b| - 1] in b && a[0] in a && a[|a| - 1] in a && s[|s| - 1] in s && s[0] in s && b[0] in b;
      assert Linked(b[|b| - 1], a[0]);
      var l := Set(a[|a| - 1], s[0]);
      l.KeepThree(s[|s| - 1], b[0], a, s, b);
      l := l.Set(s[|s| - 1], b[0]);
      l.ChainConcat(a, s);
      l.ChainConcat(a + s, b);
    }

    lemma KeepThree(x: Visit<N>, y: Visit<N>, a: Word<N>, s: Word<N>, b: Word<N>)
      requires a != [] && s != [] && b != []
      requires Distinct(a + s + b) && Chain(a) && Chain(s) && Chain(b)
      requires x == a[|a| - 1] || x == s[|s| - 1]
      requires y == b[0] || y == s[0]
      ensures var l := Set(x, y); l.Chain(a) && l.Chain(s) && l.Chain(b)
    {
      Apart(a, s, b);
      SetKeepsChain(x, y, a);
      SetKeepsChain(x, y, s);
      SetKeepsChain(x, y, b);
    }
  }
}
