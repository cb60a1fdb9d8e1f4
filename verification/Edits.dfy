/** Cutting, pasting and dropping in words without repetitions. */
module Edits {
  import opened Basics
  import opened Walks

  /** Where `v` is first found, or past the end. */
  function IndexOf<A(==)>(w: seq<A>, v: A): (i: nat)
    ensures i <= |w| && (v in w <==> i < |w|)
    ensures v in w ==> w[i] == v
  {
    if w == [] || w[0] == v then 0 else 1 + IndexOf(w[1..], v)
  }

  /** The word `w` with `s` put at index `at`. */
  function PutAt<A>(w: seq<A>, at: nat, s: seq<A>): seq<A>
    requires at <= |w|
  {
    w[..at] + s + w[at..]
  }

  /** The word `w` without its segment from index `i` up to `j`. */
  function CutAt<A>(w: seq<A>, i: nat, j: nat): seq<A>
    requires i <= j <= |w|
  {
    w[..i] + w[j..]
  }

  lemma PutAtMembers<A>(w: seq<A>, at: nat, s: seq<A>)
    requires at <= |w|
    ensures forall v :: v in PutAt(w, at, s) <==> v in w || v in s
    ensures 0 < at < |w| ==> PutAt(w, at, s)[0] == w[0] && PutAt(w, at, s)[|w| + |s| - 1] == w[|w| - 1]
  {
    assert w == w[..at] + w[at..];
  }

  /** `s` put before `at`. */
  function Paste<A(==)>(w: seq<A>, at: A, s: seq<A>): seq<A> {
    PutAt(w, IndexOf(w, at), s)
  }

  /** `first` comes before `last`, or is it. */
  predicate InOrder<A(==)>(w: seq<A>, first: A, last: A) {
    first in w && last in w && IndexOf(w, first) <= IndexOf(w, last)
  }

  /** The half-open segment from `first` to `last`. */
  function Between<A(==)>(w: seq<A>, first: A, last: A): seq<A> {
    var i, j := IndexOf(w, first), IndexOf(w, last);
    if i <= j then w[i..j] else []
  }

  /** `w` without that segment. */
  function Cut<A(==)>(w: seq<A>, first: A, last: A): seq<A> {
    var i, j := IndexOf(w, first), IndexOf(w, last);
    if i <= j then CutAt(w, i, j) else w
  }

  /** The segment from `first` up to `last`, moved before `at` within the same word. */
  function Moved<A(==)>(w: seq<A>, at: A, first: A, last: A): seq<A> {
    Paste(Cut(w, first, last), at, Between(w, first, last))
  }

  lemma IndexIsUnique<A>(w: seq<A>, i: nat)
    requires Distinct(w) && i < |w|
    ensures IndexOf(w, w[i]) == i
  {
    SamePlace(w, IndexOf(w, w[i]), i);
  }

  /** The parts of a word without repetitions have none and do not meet. */
  lemma Apart<A>(a: seq<A>, s: seq<A>, b: seq<A>)
    requires Distinct(a + s + b)
    ensures Distinct(a) && Distinct(s) && Distinct(b)
    ensures forall v | v in a :: v !in s && v !in b
    ensures forall v | v in s :: v !in b
  {
    var w := a + s + b;
    forall i: nat, j: nat | i < j < |a| ensures Differ(a, i, j) { assert Differ(w, i, j); }
    forall i: nat, j: nat | i < j < |s| ensures Differ(s, i, j) { assert Differ(w, |a| + i, |a| + j); }
    forall i: nat, j: nat | i < j < |b| ensures Differ(b, i, j) {
      assert Differ(w, |a + s| + i, |a + s| + j);
    }
    forall i: nat, j: nat | i < |a| && j < |s| ensures a[i] != s[j] { assert Differ(w, i, |a| + j); }
    forall i: nat, j: nat | i < |a| && j < |b| ensures a[i] != b[j] { assert Differ(w, i, |a + s| + j); }
    forall i: nat, j: nat | i < |s| && j < |b| ensures s[i] != b[j] {
      assert Differ(w, |a| + i, |a + s| + j);
    }
  }

  lemma DistinctLast<A>(s: seq<A>, v: A)
    requires Distinct(s + [v])
    ensures Distinct(s) && v !in s
  {
    assert s + [v] + [] == s + [v];
    Apart(s, [v], []);
  }

  lemma {:induction false} DistinctSize<A>(w: seq<A>)
    requires Distinct(w)
    ensures |set v | v in w| == |w|
  {
    if w != [] {
      var a, v := w[..|w| - 1], w[|w| - 1];
      assert w == a + [v];
      DistinctLast(a, v);
      DistinctSize(a);
      assert (set u | u in w) == (set u | u in a) + {v};
    }
  }

  /** A well-nested word without repetitions visits half as many nodes as it is long. */
  lemma TwoVisitsEach<N>(w: Word<N>)
    requires WellNested(w) && Distinct(w)
    ensures 2 * |set v | v in w :: v.node| == |w|
  {
    hide WellNested, Distinct;
    var nodes, visits := set v | v in w :: v.node, set v | v in w;
    var opens, closes := set n | n in nodes :: Visit(n, Leading), set n | n in nodes :: Visit(n, Trailing);
    forall n | n in nodes ensures Visit(n, Leading) in w && Visit(n, Trailing) in w {
      var v :| v in w && v.node == n;
      var j := Matching(w, IndexOf(w, v));
      assert w[j] in w;
      assert v == Visit(n, v.edge);
    }
    assert visits == opens + closes by {
      forall v | v in visits ensures v in opens + closes {
        assert v in w && v.node in nodes;
        if v.edge.Leading? { assert v == Visit(v.node, Leading); } else { assert v == Visit(v.node, Trailing); }
      }
    }
    VisitOfEach(nodes, Leading);
    VisitOfEach(nodes, Trailing);
    DistinctSize(w);
    assert opens !! closes;
  }

  lemma {:induction false} VisitOfEach<N>(nodes: set<N>, e: Edge)
    ensures |set n | n in nodes :: Visit(n, e)| == |nodes|
  {
    if nodes != {} {
      var n :| n in nodes;
      VisitOfEach(nodes - {n}, e);
      assert (set x | x in nodes :: Visit(x, e)) == (set x | x in nodes - {n} :: Visit(x, e)) + {Visit(n, e)};
    }
  }

  lemma PutAtRooted<N>(w: Word<N>, at: nat, s: Word<N>)
    requires 0 < at < |w|
    requires Rooted(w) && WellNested(s) && Distinct(s)
    requires forall v | v in s :: v !in w
    ensures Rooted(PutAt(w, at, s))
  {
    assert w == w[..at] + w[at..];
    SegmentIsNeutral([], w[..at], s, w[at..]);
    DistinctPaste(w[..at], s, w[at..]);
  }

  lemma CutKeepsRooted<N>(a: Word<N>, s: Word<N>, b: Word<N>)
    requires a != [] && b != []
    requires Rooted(a + s + b) && WellNested(s)
    ensures Rooted(a + b)
  {
    SegmentIsNeutral([], a, s, b);
    DistinctCut(a, s, b);
  }

  lemma DistinctCut<A>(a: seq<A>, s: seq<A>, b: seq<A>)
    requires Distinct(a + s + b)
    ensures Distinct(a + b)
  {
    var w, w' := a + s + b, a + b;
    forall i: nat, j: nat | i < j < |w'| ensures Differ(w', i, j) {
      assert Differ(w, if i < |a| then i else i + |s|, if j < |a| then j else j + |s|);
    }
  }

  lemma DistinctPaste<A>(a: seq<A>, s: seq<A>, b: seq<A>)
    requires Distinct(a + b) && Distinct(s)
    requires forall v | v in s :: v !in a + b
    ensures Distinct(a + s + b)
  {
    var w, w' := a + s + b, a + b;
    forall i: nat, j: nat | i < j < |w| ensures Differ(w, i, j) {
      if |a| <= i < |a + s| {
        assert w[i] == s[i - |a|] && w[i] in s;
        if j < |a + s| { assert Differ(s, i - |a|, j - |a|); } else { assert w[j] == w'[j - |s|] && w[j] in w'; }
      } else if |a| <= j < |a + s| {
        assert w[j] == s[j - |a|] && w[j] in s && w[i] == w'[i] && w[i] in w';
      } else {
        var i', j' := if i < |a| then i else i - |s|, if j < |a| then j else j - |s|;
        assert w[i] == w'[i'] && w[j] == w'[j'];
        assert Differ(w', i', j');
      }
    }
  }

  // ---------------------------------------------------------------------------
  // Dropping nodes

  /** `w` without any visit of a node in `gone`. */
  function Without<N(==)>(w: Word<N>, gone: set<N>): Word<N> {
    if w == [] then []
    else (if w[0].node in gone then [] else [w[0]]) + Without(w[1..], gone)
  }

  lemma {:induction false} WithoutConcat<N>(a: Word<N>, b: Word<N>, gone: set<N>)
    ensures Without(a + b, gone) == Without(a, gone) + Without(b, gone)
  {
    if a == [] {
      assert a + b == b;
    } else {
      assert (a + b)[0] == a[0] && (a + b)[1..] == a[1..] + b;
      WithoutConcat(a[1..], b, gone);
    }
  }

  lemma {:induction false} WithoutNone<N>(w: Word<N>, gone: set<N>)
    requires forall k: nat | k < |w| :: w[k].node !in gone
    ensures Without(w, gone) == w
  {
    if w != [] {
      WithoutNone(w[1..], gone);
      assert w == [w[0]] + w[1..];
    }
  }

  /** `w` without the visits at the indices `i` and `j`. */
  function DropAt<A>(w: seq<A>, i: nat, j: nat): seq<A>
    requires i < j < |w|
  {
    w[..i] + w[i + 1..j] + w[j + 1..]
  }

  lemma DropIsWithout<N>(w: Word<N>, i: nat, j: nat)
    requires Distinct(w) && i < j < |w| && w[j] == Visit(w[i].node, Pivot(w[i].edge))
    ensures Without(w, {w[i].node}) == DropAt(w, i, j)
  {
    var gone := {w[i].node};
    var a, m, b := w[..i], w[i + 1..j], w[j + 1..];
    forall k: nat | k < |a| ensures a[k].node !in gone { NoThirdVisit(w, i, j, k); }
    forall k: nat | k < |m| ensures m[k].node !in gone { NoThirdVisit(w, i, j, i + 1 + k); }
    forall k: nat | k < |b| ensures b[k].node !in gone { NoThirdVisit(w, i, j, j + 1 + k); }
    assert w == a + [w[i]] + m + [w[j]] + b;
    WithoutBoth(a, w[i], m, w[j], b, gone);
  }

  lemma WithoutBoth<N>(a: Word<N>, x: Visit<N>, m: Word<N>, y: Visit<N>, b: Word<N>, gone: set<N>)
    requires x.node in gone && y.node in gone
    requires forall k: nat | k < |a| :: a[k].node !in gone
    requires forall k: nat | k < |m| :: m[k].node !in gone
    requires forall k: nat | k < |b| :: b[k].node !in gone
    ensures Without(a + [x] + m + [y] + b, gone) == a + m + b
  {
    WithoutNone(a, gone);
    WithoutNone(m, gone);
    WithoutNone(b, gone);
    WithoutOne(a + [x] + m, y, b, gone);
    WithoutOne(a, x, m, gone);
  }

  lemma WithoutOne<N>(a: Word<N>, x: Visit<N>, b: Word<N>, gone: set<N>)
    requires x.node in gone
    ensures Without(a + [x] + b, gone) == Without(a, gone) + Without(b, gone)
  {
    WithoutConcat(a + [x], b, gone);
    WithoutConcat(a, [x], gone);
  }

  lemma DistinctDrop<A>(w: seq<A>, i: nat, j: nat)
    requires Distinct(w) && i < j < |w|
    ensures Distinct(DropAt(w, i, j))
  {
    var w' := DropAt(w, i, j);
    forall k: nat, l: nat | k < l < |w'| ensures Differ(w', k, l) {
      assert Differ(w, if k < i then k else if k < j - 1 then k + 1 else k + 2,
                       if l < i then l else if l < j - 1 then l + 1 else l + 2);
    }
  }

  /** The children of a dropped node take its place. */
  lemma DropKeepsRooted<N>(w: Word<N>, i: nat, j: nat)
    requires Rooted(w) && 0 < i < j < |w| - 1
    requires w[i].edge.Leading? && w[j] == Visit(w[i].node, Trailing)
    ensures Rooted(DropAt(w, i, j))
  {
    var a, m, b := w[..i], w[i + 1..j], w[j + 1..];
    var j' := Closing(w, i);
    SamePlace(w, j, j');
    WrapIsWellNested(w[i].node, m);
    var wrapped := [w[i]] + m + [w[j]];
    assert w == a + wrapped + b;
    SegmentIsNeutral([], a, wrapped, b);
    SegmentIsNeutral([], a, m, b);
    DistinctDrop(w, i, j);
  }

  lemma DropIsCutTwice<A>(w: seq<A>, i: nat, j: nat)
    requires 0 < i < j < |w| - 1
    ensures var w1 := CutAt(w, i, i + 1);
      && |w1| == |w| - 1
      && (i + 1 < j ==> DropAt(w, i, j) == CutAt(w1, j - 1, j) && w1[j - 2] == w[j - 1] && w1[j] == w[j + 1])
      && (j == i + 1 ==> DropAt(w, i, j) == CutAt(w, i, j + 1))
    ensures |DropAt(w, i, j)| == |w| - 2 && DropAt(w, i, j)[i - 1] == w[i - 1]
  {
  }

  // ---------------------------------------------------------------------------
  // Segments of whole subtrees

  /** A range of siblings: the segment holds whole subtrees. */
  ghost predicate Siblings<N>(w: Word<N>, i: nat, j: nat) {
    i <= j < |w| && WellNested(w[i..j])
  }

  lemma SiblingsInside<N>(w: Word<N>, i: nat, j: nat)
    requires Rooted(w) && Siblings(w, i, j) && i < j
    ensures 0 < i
  {
    if i == 0 {
      var s := w[..j];
      assert s == w[i..j];
      var k := Closing(s, 0);
      SamePlace(w, k, |w| - 1);
    }
  }

  lemma CutSiblings<N>(w: Word<N>, i: nat, j: nat)
    requires Rooted(w) && Siblings(w, i, j) && i < j
    ensures Rooted(CutAt(w, i, j)) && Distinct(w[i..j]) && w[0] == CutAt(w, i, j)[0]
  {
    SiblingsInside(w, i, j);
    assert w == w[..i] + w[i..j] + w[j..];
    CutKeepsRooted(w[..i], w[i..j], w[j..]);
    Apart(w[..i], w[i..j], w[j..]);
  }

  /** No node is visited both inside and outside such a segment. */
  lemma SiblingsApart<N>(w: Word<N>, i: nat, j: nat, k: nat, l: nat)
    requires Rooted(w) && Siblings(w, i, j)
    requires i <= k < j && (l < i || j <= l < |w|)
    ensures w[k].node != w[l].node
  {
    var s := w[i..j];
    var m := Matching(s, k - i);
    NoThirdVisit(w, k, i + m, l);
  }

  lemma CutSiblingsApart<N>(w: Word<N>, i: nat, j: nat, u: Visit<N>, v: Visit<N>)
    requires Rooted(w) && Siblings(w, i, j) && u in w[i..j] && v in CutAt(w, i, j)
    ensures u.node != v.node
  {
    var k := IndexOf(w[i..j], u);
    var l := IndexOf(CutAt(w, i, j), v);
    SiblingsApart(w, i, j, i + k, if l < i then l else l + (j - i));
  }

  /** A position outside a range keeps its place, after the root, when the range is cut out. */
  lemma OutsideRange<N>(w: Word<N>, first: Visit<N>, last: Visit<N>, position: Visit<N>)
    requires Rooted(w) && InOrder(w, first, last) && WellNested(Between(w, first, last)) && first != last
    requires position in w && position != w[0] && position !in Between(w, first, last)
    ensures position in Cut(w, first, last) && 0 < IndexOf(Cut(w, first, last), position)
  {
    var i, j := IndexOf(w, first), IndexOf(w, last);
    SiblingsInside(w, i, j);
    assert w == w[..i] + w[i..j] + w[j..];
    assert Cut(w, first, last)[0] == w[0];
  }

  /** `r` and `t` put around the segment from index `i` up to `j`. */
  function WrapAt<A>(w: seq<A>, i: nat, j: nat, r: A, t: A): seq<A>
    requires i <= j <= |w|
  {
    w[..i] + [r] + w[i..j] + [t] + w[j..]
  }

  /** Putting a pair after a segment and then moving the segment into it wraps the segment. */
  lemma WrapByMove<A>(w: seq<A>, i: nat, j: nat, r: A, t: A)
    requires Distinct(w) && i < j < |w| && r !in w && t !in w && r != t
    ensures var w1 := PutAt(w, j, [r, t]);
      && InOrder(w1, w[i], r) && t in w1 && t !in w[i..j]
      && Between(w1, w[i], r) == w[i..j]
      && Moved(w1, t, w[i], r) == WrapAt(w, i, j, r, t)
  {
    var w1 := PutAt(w, j, [r, t]);
    var w2 := CutAt(w1, i, j);
    WrapSteps(w, i, j, r, t);
    WrapDistinct(w, i, j, r, t);
    hide PutAt, CutAt, WrapAt, Distinct, IndexOf;
    IndexIsUnique(w1, i);
    IndexIsUnique(w1, j);
    IndexIsUnique(w2, i + 1);
  }

  lemma WrapSteps<A>(w: seq<A>, i: nat, j: nat, r: A, t: A)
    requires i < j < |w|
    ensures var w1 := PutAt(w, j, [r, t]);
      var w2 := CutAt(w1, i, j);
      && |w1| == |w| + 2 && w1[i] == w[i] && w1[j] == r && w1[j + 1] == t && w1[i..j] == w[i..j]
      && i + 1 < |w2| && w2[i + 1] == t
      && PutAt(w2, i + 1, w[i..j]) == WrapAt(w, i, j, r, t)
  {
  }

  lemma WrapDistinct<A>(w: seq<A>, i: nat, j: nat, r: A, t: A)
    requires Distinct(w) && i < j < |w| && r !in w && t !in w && r != t
    ensures var w1 := PutAt(w, j, [r, t]); Distinct(w1) && Distinct(CutAt(w1, i, j))
  {
    var w1 := PutAt(w, j, [r, t]);
    assert w == w[..j] + w[j..];
    DistinctPaste(w[..j], [r, t], w[j..]);
    assert w1 == w1[..i] + w1[i..j] + w1[j..];
    DistinctCut(w1[..i], w1[i..j], w1[j..]);
  }
}
