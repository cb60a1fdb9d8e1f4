/** How the container's operations undo each other and what they conserve, as facts about walks. */
module Laws {
  import opened Basics
  import opened Walks
  import opened Edits

  /** Erasing a node just inserted restores the walk. */
  lemma EraseUndoesInsert<N>(w: Word<N>, at: Visit<N>, n: N)
    requires Rooted(w) && at in w && at != w[0]
    requires forall v | v in w :: v.node != n
    ensures Without(Paste(w, at, [Visit(n, Leading), Visit(n, Trailing)]), {n}) == w
  {
    var i := IndexOf(w, at);
    EraseUndoesWrap(w, i, i, n);
    assert WrapAt(w, i, i, Visit(n, Leading), Visit(n, Trailing))
      == Paste(w, at, [Visit(n, Leading), Visit(n, Trailing)]);
  }

  /** Erasing a parent just put around a child range restores the walk: its children take its place. */
  lemma EraseUndoesWrap<N>(w: Word<N>, i: nat, j: nat, n: N)
    requires i <= j <= |w|
    requires forall v | v in w :: v.node != n
    ensures Without(WrapAt(w, i, j, Visit(n, Leading), Visit(n, Trailing)), {n}) == w
  {
    assert forall k: nat | k < |w| :: w[k] in w;
    WithoutBoth(w[..i], Visit(n, Leading), w[i..j], Visit(n, Trailing), w[j..], {n});
    assert w == w[..i] + w[i..j] + w[j..];
  }

  /** Splicing a range before its own end leaves everything where it was. */
  lemma SpliceToOwnEnd<N>(w: Word<N>, first: Visit<N>, last: Visit<N>)
    requires Rooted(w) && InOrder(w, first, last)
    ensures Moved(w, last, first, last) == w
  {
    var i, j := IndexOf(w, first), IndexOf(w, last);
    var c := CutAt(w, i, j);
    assert w == w[..i] + w[i..j] + w[j..];
    DistinctCut(w[..i], w[i..j], w[j..]);
    assert c[i] == last;
    IndexIsUnique(c, i);
  }

  /** Splicing a range back before the position that followed it undoes a splice within one walk. */
  lemma SpliceBack<N>(w: Word<N>, at: Visit<N>, first: Visit<N>, last: Visit<N>)
    requires Rooted(w) && InOrder(w, first, last) && first != last
    requires at in Cut(w, first, last) && last != at
    ensures var w' := Moved(w, at, first, last);
      InOrder(w', first, at) && Between(w', first, at) == Between(w, first, last)
      && Moved(w', last, first, at) == w
  {
    hide Rooted, PutAt, CutAt, IndexOf;
    var i, j := IndexOf(w, first), IndexOf(w, last);
    var c, s := CutAt(w, i, j), w[i..j];
    var k := IndexOf(c, at);
    var w' := PutAt(c, k, s);
    BackSteps(w, i, j, k);
    BackPlaces(w, i, j, k);
    assert w'[k] == first && w'[k + |s|] == at && c[i] == last;
  }

  lemma BackPlaces<N>(w: Word<N>, i: nat, j: nat, k: nat)
    requires Rooted(w) && i < j < |w| && k < |CutAt(w, i, j)|
    ensures var c := CutAt(w, i, j);
      var w' := PutAt(c, k, w[i..j]);
      && i < |c| && k + (j - i) < |w'|
      && IndexOf(w', w'[k]) == k && IndexOf(w', w'[k + (j - i)]) == k + (j - i) && IndexOf(c, c[i]) == i
  {
    hide Distinct, WellNested, IndexOf;
    var c := CutAt(w, i, j);
    var w' := PutAt(c, k, w[i..j]);
    DistinctMoved(w, i, j, k);
    IndexIsUnique(w', k);
    IndexIsUnique(w', k + (j - i));
    IndexIsUnique(c, i);
  }

  lemma BackSteps<A>(w: seq<A>, i: nat, j: nat, k: nat)
    requires i < j < |w| && k < |CutAt(w, i, j)|
    ensures var c := CutAt(w, i, j);
      var w' := PutAt(c, k, w[i..j]);
      && |c| == |w| - (j - i) && |w'| == |w| && w'[k] == w[i] && w'[k + (j - i)] == c[k]
      && w'[k..k + (j - i)] == w[i..j] && CutAt(w', k, k + (j - i)) == c
      && c[i] == w[j] && PutAt(c, i, w[i..j]) == w
  {
    var c, s := CutAt(w, i, j), w[i..j];
    var w' := PutAt(c, k, s);
    assert c == c[..k] + c[k..];
    assert CutAt(w', k, k + (j - i)) == c[..k] + c[k..];
    assert c[..i] == w[..i] && c[i..] == w[j..];
    assert w == w[..i] + s + w[j..];
  }

  lemma DistinctMoved<A>(w: seq<A>, i: nat, j: nat, k: nat)
    requires Distinct(w) && i <= j <= |w| && k <= |CutAt(w, i, j)|
    ensures Distinct(CutAt(w, i, j)) && Distinct(PutAt(CutAt(w, i, j), k, w[i..j]))
  {
    var c, s := CutAt(w, i, j), w[i..j];
    assert w == w[..i] + s + w[j..];
    Apart(w[..i], s, w[j..]);
    DistinctCut(w[..i], s, w[j..]);
    assert c == c[..k] + c[k..];
    DistinctPaste(c[..k], s, c[k..]);
  }

  /** A splice between two walks neither loses nor makes visits. */
  lemma SpliceConserves<N>(w: Word<N>, xw: Word<N>, at: Visit<N>, first: Visit<N>, last: Visit<N>)
    requires InOrder(xw, first, last)
    ensures multiset(Paste(w, at, Between(xw, first, last))) + multiset(Cut(xw, first, last))
      == multiset(w) + multiset(xw)
  {
    var i, j, k := IndexOf(xw, first), IndexOf(xw, last), IndexOf(w, at);
    assert w == w[..k] + w[k..];
    assert xw == xw[..i] + xw[i..j] + xw[j..];
  }
}
