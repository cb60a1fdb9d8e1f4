/** Forests of values, and their flat encoding: a value where a node begins, `None` where one ends. */
module Flat {
  import opened Basics
  import opened Walks
  import opened Edits
  import opened Nodes
  import opened TreeWalks

  function Encode<T>(ts: Trees<T>): seq<Option<T>> {
    match ts
    case Bare => []
    case Grow(v, cs, rest) => [Some(v)] + Encode(cs) + [None] + Encode(rest)
  }

  /** How many nodes are open after `code`, if `d` were before; nothing may end that has not begun. */
  function Height<T>(code: seq<Option<T>>, d: nat): Option<nat> {
    if code == [] then Some(d)
    else if code[0].Some? then Height(code[1..], d + 1)
    else if d == 0 then None
    else Height(code[1..], d - 1)
  }

  predicate Balanced<T>(code: seq<Option<T>>) {
    Height(code, 0) == Some(0)
  }

  lemma {:induction false} HeightConcat<T>(a: seq<Option<T>>, b: seq<Option<T>>, d: nat)
    ensures Height(a + b, d) == if Height(a, d).None? then None else Height(b, Height(a, d).value)
    decreases a
  {
    if a == [] {
      assert a + b == b;
    } else {
      assert (a + b)[0] == a[0] && (a + b)[1..] == a[1..] + b;
      if a[0].Some? { HeightConcat(a[1..], b, d + 1); } else if d > 0 { HeightConcat(a[1..], b, d - 1); }
    }
  }

  lemma EncodeUnrolled<T>(ts: Trees<T>, a: seq<Option<T>>)
    ensures ts.Bare? ==> Encode(ts) + a == a
    ensures ts.Grow? ==>
      Encode(ts) + a == [Some(ts.root)] + (Encode(ts.children) + ([None] + (Encode(ts.rest) + a)))
  {
  }

  /** The encoding loses nothing, even when more follows that cannot belong to it. */
  lemma {:induction false} EncodeIsInjective<T>(ts: Trees<T>, us: Trees<T>, a: seq<Option<T>>, b: seq<Option<T>>)
    requires Encode(ts) + a == Encode(us) + b
    requires a == [] || a[0].None?
    requires b == [] || b[0].None?
    ensures ts == us && a == b
    decreases ts
  {
    hide Encode;
    EncodeUnrolled(ts, a);
    EncodeUnrolled(us, b);
    if ts.Grow? && us.Grow? {
      var a' := [None] + (Encode(ts.rest) + a);
      var b' := [None] + (Encode(us.rest) + b);
      SameTail(Some(ts.root), Encode(ts.children) + a', Some(us.root), Encode(us.children) + b');
      EncodeIsInjective(ts.children, us.children, a', b');
      SameTail(None, Encode(ts.rest) + a, None, Encode(us.rest) + b);
      EncodeIsInjective(ts.rest, us.rest, a, b);
    }
  }

  lemma {:induction false} EncodeIsBalanced<T>(ts: Trees<T>, d: nat)
    ensures Height(Encode(ts), d) == Some(d)
    decreases ts
  {
    if ts.Grow? {
      EncodeIsBalanced(ts.children, d + 1);
      EncodeIsBalanced(ts.rest, d);
      HeightConcat([Some(ts.root)] + Encode(ts.children) + [None], Encode(ts.rest), d);
      HeightConcat([Some(ts.root)] + Encode(ts.children), [None], d);
      HeightConcat([Some(ts.root)], Encode(ts.children), d);
    }
  }

  // ---------------------------------------------------------------------------
  // The values in a walk

  /** The encoding of a walk, read off its visits. */
  function FlatOf<T>(w: Word<Node<T>>): seq<Option<T>> {
    seq(|w|, i requires 0 <= i < |w| => if w[i].edge.Leading? then w[i].node.data else None)
  }

  ghost predicate HasValues<T>(ts: Trees<Node<T>>) {
    ts.Grow? ==> ts.root.data.Some? && HasValues(ts.children) && HasValues(ts.rest)
  }

  /** The forest of the values at the nodes. */
  ghost function Values<T>(ts: Trees<Node<T>>): Trees<T>
    requires HasValues(ts)
  {
    match ts
    case Bare => Bare
    case Grow(n, cs, rest) => Grow(n.data.value, Values(cs), Values(rest))
  }

  lemma FlatConcat<T>(a: Word<Node<T>>, b: Word<Node<T>>)
    ensures FlatOf(a + b) == FlatOf(a) + FlatOf(b)
  {
  }

  lemma {:induction false} FlatIsEncoding<T>(ts: Trees<Node<T>>)
    requires HasValues(ts)
    ensures FlatOf(WalkOf(ts)) == Encode(Values(ts))
  {
    if ts.Grow? {
      var l, t := [Visit(ts.root, Leading)], [Visit(ts.root, Trailing)];
      var cs, rest := WalkOf(ts.children), WalkOf(ts.rest);
      FlatIsEncoding(ts.children);
      FlatIsEncoding(ts.rest);
      FlatConcat(l + cs + t, rest);
      FlatConcat(l + cs, t);
      FlatConcat(l, cs);
      assert FlatOf(l) == [ts.root.data] && FlatOf(t) == [None];
    }
  }

  lemma {:induction false} FilledHasValues<T>(ts: Trees<Node<T>>)
    requires forall v | v in WalkOf(ts) :: v.node.data.Some?
    ensures HasValues(ts)
  {
    if ts.Grow? {
      var w := WalkOf(ts);
      assert w[0] in w && w[0] == Visit(ts.root, Leading);
      FilledHasValues(ts.children);
      FilledHasValues(ts.rest);
    }
  }

  /** Two walks have the same encoding exactly when they carry the same forest of values. */
  lemma SameFlatSameForest<T>(ts: Trees<Node<T>>, us: Trees<Node<T>>)
    requires HasValues(ts) && HasValues(us)
    ensures FlatOf(WalkOf(ts)) == FlatOf(WalkOf(us)) <==> Values(ts) == Values(us)
  {
    hide FlatOf, Values, Encode;
    FlatIsEncoding(ts);
    FlatIsEncoding(us);
    if Encode(Values(ts)) == Encode(Values(us)) {
      assert Encode(Values(ts)) + [] == Encode(Values(us)) + [];
      EncodeIsInjective(Values(ts), Values(us), [], []);
    }
  }
}
