/** Who keeps a shared state alive: futures hold it, and other states hold it through the futures they captured.

    A task or promise refers to its state weakly; it is canceled when the count of the state has dropped to 0.
  */
module Ownership {

  /** All strong references held by states, together. */
  function Held(strong: seq<multiset<nat>>): multiset<nat> {
    if strong == [] then multiset{} else strong[0] + Held(strong[1..])
  }

  lemma {:induction false} HeldAfter(strong: seq<multiset<nat>>, n: nat, refs: multiset<nat>)
    requires n < |strong|
    ensures strong[n] <= Held(strong)
    ensures Held(strong[n := refs]) == Held(strong) - strong[n] + refs
  {
    if n == 0 {
      assert strong[0 := refs][1..] == strong[1..];
    } else {
      assert strong[n := refs][1..] == strong[1..][n - 1 := refs];
      HeldAfter(strong[1..], n - 1, refs);
    }
  }

  lemma {:induction false} HeldBy(strong: seq<multiset<nat>>, x: nat) returns (n: nat)
    requires x in Held(strong)
    ensures n < |strong| && x in strong[n]
  {
    if x in strong[0] { return 0; }
    n := HeldBy(strong[1..], x);
    n := n + 1;
  }

  lemma {:induction false} HeldNew(strong: seq<multiset<nat>>, refs: multiset<nat>)
    ensures Held(strong + [refs]) == Held(strong) + refs
  {
    if strong == [] {
      assert [refs][1..] == [];
    } else {
      assert (strong + [refs])[1..] == strong[1..] + [refs];
      HeldNew(strong[1..], refs);
    }
  }

  // ---------------------------------------------------------------------------
  // What keeps a state alive

  /** Each state of the path holds the next. */
  ghost predicate Path(strong: seq<multiset<nat>>, path: seq<nat>) {
    && path != [] && (forall i: nat | i < |path| :: path[i] < |strong|)
    && forall i: nat | i + 1 < |path| :: Holds(strong, path[i], path[i + 1])
  }

  ghost predicate Holds(strong: seq<multiset<nat>>, y: nat, x: nat) {
    y < |strong| && x in strong[y]
  }

  /** A path to `x` starts at a future, or at a state that is held from somewhere on the path. */
  ghost predicate Sustains(strong: seq<multiset<nat>>, handles: multiset<nat>, x: nat, path: seq<nat>) {
    && Path(strong, path) && path[|path| - 1] == x
    && (path[0] in handles || exists i: nat | i < |path| :: Holds(strong, path[i], path[0]))
  }

  ghost predicate Sustained(strong: seq<multiset<nat>>, handles: multiset<nat>, x: nat) {
    exists path: seq<nat> :: Sustains(strong, handles, x, path)
  }

  /** Every state in `xs` is held by a future, or from within `xs`. */
  ghost predicate Supported(strong: seq<multiset<nat>>, handles: multiset<nat>, xs: set<nat>) {
    forall x | x in xs :: x < |strong| && (x in handles || HeldWithin(strong, xs, x))
  }

  ghost predicate HeldWithin(strong: seq<multiset<nat>>, xs: set<nat>, x: nat) {
    exists y :: y in xs && Holds(strong, y, x)
  }

  lemma PathIsSupported(strong: seq<multiset<nat>>, handles: multiset<nat>, x: nat, path: seq<nat>)
    requires Sustains(strong, handles, x, path)
    ensures x in path && Supported(strong, handles, set y | y in path)
  {
    var xs := set y | y in path;
    forall y | y in xs ensures y < |strong| && (y in handles || HeldWithin(strong, xs, y)) {
      var i: nat :| i < |path| && path[i] == y;
      if i > 0 {
        assert Holds(strong, path[i - 1], path[i - 1 + 1]) && path[i - 1] in xs;
      } else if y !in handles {
        var j: nat :| j < |path| && Holds(strong, path[j], path[0]);
        assert path[j] in xs;
      }
    }
  }

  /** Walking back from state to holder within a finite set ends at a future, or comes round. */
  lemma {:induction false} SupportedHasPath(strong: seq<multiset<nat>>, handles: multiset<nat>, xs: set<nat>,
                                            path: seq<nat>, x: nat)
    requires Supported(strong, handles, xs) && Path(strong, path) && path[|path| - 1] == x
    requires (forall y | y in path :: y in xs) && Different(path)
    ensures Sustained(strong, handles, x)
    decreases |xs| - |path|
  {
    FitsIn(path, xs);
    assert path[0] in path;
    if path[0] in handles {
      assert Sustains(strong, handles, x, path);
    } else {
      var y :| y in xs && Holds(strong, y, path[0]);
      if y in path {
        var i: nat :| i < |path| && path[i] == y;
        assert Sustains(strong, handles, x, path);
      } else {
        var longer := [y] + path;
        Prepended(strong, y, path);
        FitsIn(longer, xs);
        SupportedHasPath(strong, handles, xs, longer, x);
      }
    }
  }

  lemma Prepended(strong: seq<multiset<nat>>, y: nat, path: seq<nat>)
    requires Path(strong, path) && Holds(strong, y, path[0]) && y !in path && Different(path)
    ensures Path(strong, [y] + path) && Different([y] + path)
  {
    var longer := [y] + path;
    forall i: nat | i + 1 < |longer| ensures Holds(strong, longer[i], longer[i + 1]) {
      if i > 0 { assert Holds(strong, path[i - 1], path[i - 1 + 1]); }
    }
  }

  ghost predicate Different(path: seq<nat>) {
    forall i: nat, j: nat | i < j < |path| :: path[i] != path[j]
  }

  lemma {:induction false} FitsIn(path: seq<nat>, xs: set<nat>)
    requires Different(path) && forall y | y in path :: y in xs
    ensures |path| <= |xs|
    decreases |path|
  {
    if path != [] {
      assert path[0] in path;
      forall y | y in path[1..] ensures y in xs - {path[0]} {
        var i: nat :| i < |path[1..]| && path[1..][i] == y;
        assert path[0] != path[i + 1];
      }
      FitsIn(path[1..], xs - {path[0]});
    }
  }

  /** What sustains a state is a future, or a state that is sustained itself. */
  lemma SustainedBy(strong: seq<multiset<nat>>, handles: multiset<nat>, x: nat)
    ensures Sustained(strong, handles, x) <==>
      x < |strong| && (x in handles || exists y :: Sustained(strong, handles, y) && Holds(strong, y, x))
  {
    if path :| Sustains(strong, handles, x, path) {
      var xs := set y | y in path;
      PathIsSupported(strong, handles, x, path);
      if x !in handles {
        var y :| y in xs && Holds(strong, y, x);
        SupportedHasPath(strong, handles, xs, [y], y);
      }
    }
    if x < |strong| && x in handles { assert Sustains(strong, handles, x, [x]); }
    if y :| x < |strong| && Sustained(strong, handles, y) && Holds(strong, y, x) {
      var path :| Sustains(strong, handles, y, path);
      PathIsSupported(strong, handles, y, path);
      var xs := (set z | z in path) + {x};
      forall z | z in xs ensures z < |strong| && (z in handles || HeldWithin(strong, xs, z)) {
        if z == x { assert y in xs; } else if z !in handles {
          var u :| u in (set v | v in path) && Holds(strong, u, z);
          assert u in xs;
        }
      }
      SupportedHasPath(strong, handles, xs, [x], x);
    }
  }

  /** Support does not depend on what others hold. */
  lemma SupportStays(was: seq<multiset<nat>>, now: seq<multiset<nat>>, handles: multiset<nat>, xs: set<nat>)
    requires |was| == |now| && Supported(was, handles, xs) && forall x | x in xs :: x < |now| && now[x] == was[x]
    ensures Supported(now, handles, xs)
  {
    forall x | x in xs && x !in handles ensures HeldWithin(now, xs, x) {
      var y :| y in xs && Holds(was, y, x);
      assert Holds(now, y, x);
    }
  }

  /** The counts are those of the references in `all`. */
  ghost predicate Tallied(counts: seq<nat>, all: multiset<nat>) {
    forall x: nat :: all[x] == if x < |counts| then counts[x] else 0
  }

  /** A state without references holds none. */
  ghost predicate Released(counts: seq<nat>, strong: seq<multiset<nat>>)
    requires |counts| == |strong|
  {
    forall x: nat | x < |counts| && counts[x] == 0 :: strong[x] == multiset{}
  }

  method Pick(refs: multiset<nat>) returns (r: nat)
    requires refs != multiset{}
    ensures r in refs
  {
    r :| r in refs;
  }

  lemma OneLess(counts: seq<nat>, all: multiset<nat>, r: nat)
    requires Tallied(counts, all) && r in all
    ensures r < |counts| && counts[r] > 0 && Tallied(counts[r := counts[r] - 1], all - multiset{r})
  {
  }

  lemma OneMore(counts: seq<nat>, all: multiset<nat>, r: nat)
    requires Tallied(counts, all) && r < |counts|
    ensures Tallied(counts[r := counts[r] + 1], all + multiset{r})
  {
  }

  lemma OneNew(counts: seq<nat>, all: multiset<nat>)
    requires Tallied(counts, all)
    ensures Tallied(counts + [1], all + multiset{|counts|})
  {
  }

  ghost predicate KeptIn(count: nat, held: multiset<nat>, was: multiset<nat>) {
    held == was || (count == 0 && held == multiset{})
  }

  ghost predicate Same(strong: seq<multiset<nat>>, was: seq<multiset<nat>>, xs: set<nat>) {
    forall x | x in xs :: x < |strong| == |was| && strong[x] == was[x]
  }

  lemma SameStays(strong: seq<multiset<nat>>, now: seq<multiset<nat>>, was: seq<multiset<nat>>, r: nat, xs: set<nat>)
    requires Same(strong, was, xs)
    requires now == strong || (r < |strong| && r !in xs && now == strong[r := multiset{}])
    ensures Same(now, was, xs)
  {
  }

  class Owners {
    var counts: seq<nat>
    var strong: seq<multiset<nat>>
    /** The future objects of the program, by the state they refer to. */
    ghost var handles: multiset<nat>

    /** `pending` references are about to be given up. */
    ghost predicate Balanced(pending: multiset<nat>)
      reads this
    {
      && |counts| == |strong|
      && Tallied(counts, handles + Held(strong) + pending)
      && Released(counts, strong)
    }

    predicate Canceled(n: nat)
      requires n < |counts|
      reads this
    {
      counts[n] == 0
    }

    constructor ()
      ensures Balanced(multiset{}) && counts == [] && handles == multiset{}
    {
      counts, strong, handles := [], [], multiset{};
    }

    /** Gives up references, and with the last one of a state all that the state held in turn: what lives on is
        exactly what is sustained without them. */
    method Release(refs: multiset<nat>)
      requires Balanced(refs)
      modifies `counts, `strong
      ensures Balanced(multiset{}) && |counts| == old(|counts|)
      ensures forall x: nat | x < |counts| :: Kept(old(strong), x)
      ensures forall x: nat | x < |counts| :: counts[x] > 0 <==> Sustained(old(strong), handles, x)
    {
      hide Tallied, Held, Released, HeldWithin, Sustained;
      var pending := refs;
      while pending != multiset{}
        invariant Balanced(pending) && |counts| == old(|counts|)
        invariant forall x: nat | x < |counts| :: Kept(old(strong), x)
        invariant forall xs | Supported(old(strong), handles, xs) :: Untouched(old(strong), xs)
        decreases |pending| + |Held(strong)|
      {
        forall xs | Supported(old(strong), handles, xs) ensures Supported(strong, handles, xs) {
          assert Untouched(old(strong), xs);
          SupportStays(old(strong), strong, handles, xs);
        }
        pending := GiveUpOne(pending);
      }
      forall x: nat | x < |counts| ensures counts[x] > 0 <==> Sustained(old(strong), handles, x) {
        LivesExactly(old(strong), x);
      }
    }

    /** The state `x` holds what it held, or has come to an end. */
    ghost predicate Kept(was: seq<multiset<nat>>, x: nat)
      requires x < |counts| == |strong| && |was| == |strong|
      reads this
    {
      KeptIn(counts[x], strong[x], was[x])
    }

    ghost predicate Untouched(was: seq<multiset<nat>>, xs: set<nat>)
      reads this
    {
      Same(strong, was, xs)
    }

    lemma LivesExactly(was: seq<multiset<nat>>, x: nat)
      requires Balanced(multiset{}) && |was| == |strong| && x < |counts|
      requires forall y: nat | y < |counts| :: Kept(was, y)
      requires forall xs | Supported(was, handles, xs) :: Untouched(was, xs)
      ensures counts[x] > 0 <==> Sustained(was, handles, x)
    {
      hide Tallied, Held, Released;
      if counts[x] > 0 {
        var xs := set y: nat | y < |counts| && counts[y] > 0;
        forall y | y in xs ensures y < |was| && (y in handles || HeldWithin(was, xs, y)) {
          if y !in handles {
            var z := Holder(y);
            assert Kept(was, z) && Holds(was, z, y) && z in xs;
          }
        }
        SupportedHasPath(was, handles, xs, [x], x);
      }
      if path :| Sustains(was, handles, x, path) {
        PathIsSupported(was, handles, x, path);
        var xs := set y | y in path;
        assert Untouched(was, xs);
        SupportStays(was, strong, handles, xs);
        SupportedLives(xs, x, multiset{});
      }
    }

    /** A living state that no future refers to is held by a living one. */
    lemma Holder(x: nat) returns (y: nat)
      requires Balanced(multiset{}) && x < |counts| && counts[x] > 0 && x !in handles
      ensures y < |counts| && counts[y] > 0 && x in strong[y]
    {
      y := HeldBy(strong, x);
    }

    lemma SupportedLives(xs: set<nat>, x: nat, pending: multiset<nat>)
      requires Balanced(pending) && Supported(strong, handles, xs) && x in xs
      ensures x < |counts| && counts[x] > pending[x]
    {
      if x !in handles {
        var y :| y in xs && Holds(strong, y, x);
        HeldAfter(strong, y, multiset{});
      }
    }

    method GiveUpOne(pending: multiset<nat>) returns (pending': multiset<nat>)
      requires Balanced(pending) && pending != multiset{}
      modifies `counts, `strong
      ensures Balanced(pending') && |counts| == old(|counts|)
      ensures |pending'| + |Held(strong)| < |pending| + |Held(old(strong))|
      ensures forall x: nat, was | x < |counts| == |was| && old(Kept(was, x)) :: Kept(was, x)
      ensures forall xs, was | Supported(old(strong), handles, xs) && old(Untouched(was, xs)) :: Untouched(was, xs)
    {
      hide Tallied, Held, Supported, Same;
      var r := Pick(pending);
      pending' := pending - multiset{r};
      ghost var all := handles + Held(strong) + pending;
      forall xs | Supported(strong, handles, xs) && r in xs ensures r < |counts| && counts[r] > 1 {
        SupportedLives(xs, r, pending);
      }
      OneLess(counts, all, r);
      HeldAfter(strong, r, multiset{});
      assert all - multiset{r} == handles + Held(strong) + pending';
      counts := counts[r := counts[r] - 1];
      if counts[r] == 0 {
        pending' := pending' + strong[r];
        strong := strong[r := multiset{}];
        assert handles + Held(strong) + pending' == all - multiset{r};
      }
      forall xs, was | Supported(old(strong), handles, xs) && old(Untouched(was, xs)) ensures Untouched(was, xs) {
        SameStays(old(strong), strong, was, r, xs);
      }
    }

    /** A new state with its first future; the futures it captures are moved into it. */
    method NewState(captured: multiset<nat>) returns (n: nat)
      requires Balanced(multiset{}) && captured <= handles
      modifies this
      ensures Balanced(multiset{}) && n == old(|counts|) && |counts| == n + 1
      ensures handles == old(handles) - captured + multiset{n} && strong == old(strong) + [captured]
    {
      hide Tallied, Held;
      n := |counts|;
      ghost var all := handles + Held(strong);
      HeldNew(strong, captured);
      assert all + multiset{} == all;
      assert handles - captured + multiset{n} + (Held(strong) + captured) + multiset{} == all + multiset{n};
      OneNew(counts, all);
      counts, strong := counts + [1], strong + [captured];
      handles := handles - captured + multiset{n};
    }

    method CopyFuture(x: nat)
      requires Balanced(multiset{}) && x in handles
      modifies `counts, `handles
      ensures Balanced(multiset{}) && handles == old(handles) + multiset{x}
    {
      hide Tallied, Held;
      ghost var all := handles + Held(strong);
      OneLess(counts, all + multiset{}, x);
      assert all + multiset{} == all && handles + multiset{x} + Held(strong) + multiset{} == all + multiset{x};
      OneMore(counts, all, x);
      counts := counts[x := counts[x] + 1];
      handles := handles + multiset{x};
    }

    method DropFuture(x: nat)
      requires Balanced(multiset{}) && x in handles
      modifies this
      ensures Balanced(multiset{}) && handles == old(handles) - multiset{x} && |counts| == old(|counts|)
      ensures forall y: nat | y < |counts| :: Kept(old(strong), y)
      ensures forall y: nat | y < |counts| :: !Canceled(y) <==> Sustained(old(strong), handles, y)
    {
      hide Tallied, Held;
      assert handles - multiset{x} + Held(strong) + multiset{x} == handles + Held(strong) + multiset{};
      handles := handles - multiset{x};
      Release(multiset{x});
    }

    /** Moves a future of `x` into the state `n`: a reduction holds the inner future, and a detached future is held
        by its own state. */
    method Hold(n: nat, x: nat)
      requires Balanced(multiset{}) && x in handles && n < |counts| && !Canceled(n)
      modifies `strong, `handles
      ensures Balanced(multiset{}) && handles == old(handles) - multiset{x}
      ensures strong == old(strong)[n := old(strong)[n] + multiset{x}]
    {
      hide Tallied, Held;
      HeldAfter(strong, n, strong[n] + multiset{x});
      assert handles - multiset{x} + (Held(strong) - strong[n] + (strong[n] + multiset{x})) + multiset{}
          == handles + Held(strong) + multiset{};
      strong := strong[n := strong[n] + multiset{x}];
      handles := handles - multiset{x};
    }

    /** Completion: the state gives up futures that its function or its continuations held, its own among them. */
    method Forget(n: nat, refs: multiset<nat>)
      requires Balanced(multiset{}) && n < |counts| && refs <= strong[n] && !Canceled(n)
      modifies this
      ensures Balanced(multiset{}) && handles == old(handles) && |counts| == old(|counts|)
      ensures var was := old(strong)[n := old(strong)[n] - refs];
        forall y: nat | y < |counts| :: Kept(was, y) && (!Canceled(y) <==> Sustained(was, handles, y))
    {
      hide Tallied, Held, Sustained;
      HeldAfter(strong, n, strong[n] - refs);
      assert handles + (Held(strong) - strong[n] + (strong[n] - refs)) + refs == handles + Held(strong) + multiset{};
      strong := strong[n := strong[n] - refs];
      Release(refs);
    }
  }

  // ---------------------------------------------------------------------------
  // Cancellation

  /** A producer that has not run yet is canceled exactly when nothing sustains its state: no path through the
      futures that states captured, hold, or were detached with leads to it from a future, or from a state that is
      itself held along the path. */
  lemma CanceledIffUnsustained(o: Owners, x: nat)
    requires o.Balanced(multiset{}) && x < |o.counts|
    ensures o.Canceled(x) <==> !Sustained(o.strong, o.handles, x)
  {
    hide Tallied, Held, Released, HeldWithin, Sustained;
    o.LivesExactly(o.strong, x);
  }

  /** Every reference leads to a state of lower rank, or back to the state itself. */
  ghost predicate Ranked(strong: seq<multiset<nat>>, rank: nat -> nat) {
    forall y: nat, x | Holds(strong, y, x) :: x == y || rank(x) < rank(y)
  }

  ghost predicate Reached(strong: seq<multiset<nat>>, handles: multiset<nat>, x: nat, path: seq<nat>) {
    && Path(strong, path) && path[|path| - 1] == x
    && (path[0] in handles || Holds(strong, path[0], path[0]))
  }

  /** Without rings of several states: exactly when no future reaches the state, and no detached one does. */
  lemma CanceledIffUnreachable(o: Owners, rank: nat -> nat, x: nat)
    requires o.Balanced(multiset{}) && x < |o.counts| && Ranked(o.strong, rank)
    ensures o.Canceled(x) <==> !exists path: seq<nat> :: Reached(o.strong, o.handles, x, path)
  {
    CanceledIffUnsustained(o, x);
    if path :| Sustains(o.strong, o.handles, x, path) {
      if i: nat :| i < |path| && Holds(o.strong, path[i], path[0]) { RanksFall(o.strong, rank, path, i); }
      assert Reached(o.strong, o.handles, x, path);
    }
    if path :| Reached(o.strong, o.handles, x, path) {
      assert Sustains(o.strong, o.handles, x, path);
    }
  }

  lemma {:induction false} RanksFall(strong: seq<multiset<nat>>, rank: nat -> nat, path: seq<nat>, i: nat)
    requires Path(strong, path) && Ranked(strong, rank) && i < |path|
    ensures path[i] == path[0] || rank(path[i]) < rank(path[0])
    decreases i
  {
    if i > 0 {
      RanksFall(strong, rank, path, i - 1);
      assert Holds(strong, path[i - 1], path[i - 1 + 1]);
    }
  }

  /** A state with a continuation, whose state captures a future of the first. */
  method MakeContinuation() returns (o: Owners)
    ensures o.Balanced(multiset{}) && fresh(o) && |o.counts| == 2
    ensures o.handles == multiset{0, 1} && o.strong == [multiset{}, multiset{0}]
  {
    hide Tallied, Held, Sustained, Released;
    o := new Owners();
    var f := o.NewState(multiset{});
    TwoFutures(o.handles);
    o.CopyFuture(f);
    var returned := o.NewState(multiset{f});
  }

  lemma TwoFutures(handles: multiset<nat>)
    requires handles == multiset{} - multiset{} + multiset{0}
    ensures 0 in handles && handles + multiset{0} == multiset{0, 0}
    ensures multiset{0} <= multiset{0, 0} && multiset{0, 0} - multiset{0} + multiset{1} == multiset{0, 1}
  {
  }

  /** The function of the first state returns a continuation of its own future: a third state captures the future
      returned, and the reduction of the first holds the third. */
  method MakeRing() returns (o: Owners)
    ensures o.Balanced(multiset{}) && fresh(o) && |o.counts| == 3
    ensures o.handles == multiset{0} && o.strong == [multiset{2}, multiset{0}, multiset{1}]
  {
    hide Tallied, Held, Sustained, Released;
    o := MakeContinuation();
    ThreeFutures();
    var held := o.NewState(multiset{1});
    HandleLives(o, 0);
    o.Hold(0, held);
    RingOf(o.strong);
  }

  lemma ThreeFutures()
    ensures multiset{1} <= multiset{0, 1} && multiset{0, 1} - multiset{1} + multiset{2} == multiset{0, 2}
    ensures 0 in multiset{0, 2} && 2 in multiset{0, 2} && multiset{0, 2} - multiset{2} == multiset{0}
  {
  }

  /** A ring of several states outlives all futures. */
  method RingOutlivesFutures() returns (o: Owners)
    ensures o.Balanced(multiset{}) && o.handles == multiset{} && |o.counts| == 3
    ensures !o.Canceled(0)
    ensures forall path: seq<nat> :: !Reached(o.strong, o.handles, 0, path)
  {
    hide Tallied, Held, Sustained, Released;
    o := MakeRing();
    ghost var ring := o.strong;
    o.DropFuture(0);
    RingSustains(ring, o.handles);
    assert o.Kept(ring, 0) && o.Kept(ring, 1) && o.Kept(ring, 2);
    NoDetachedReach(o.strong, o.handles);
  }

  lemma RingOf(strong: seq<multiset<nat>>)
    requires strong == ([multiset{}, multiset{0}] + [multiset{1}])[0 := multiset{} + multiset{2}]
    ensures strong == [multiset{2}, multiset{0}, multiset{1}]
  {
    assert strong[0] == multiset{2} && strong[1] == multiset{0} && strong[2] == multiset{1};
  }

  lemma HandleLives(o: Owners, x: nat)
    requires o.Balanced(multiset{}) && x in o.handles
    ensures x < |o.counts| && !o.Canceled(x)
  {
    OneLess(o.counts, o.handles + Held(o.strong) + multiset{}, x);
  }

  lemma NoDetachedReach(strong: seq<multiset<nat>>, handles: multiset<nat>)
    requires handles == multiset{} && strong == [multiset{2}, multiset{0}, multiset{1}]
    ensures forall x: nat, path: seq<nat> :: !Reached(strong, handles, x, path)
  {
    forall x: nat, path: seq<nat> ensures !Reached(strong, handles, x, path) {
      if path != [] { assert !Holds(strong, path[0], path[0]); }
    }
  }

  lemma RingSustains(ring: seq<multiset<nat>>, handles: multiset<nat>)
    requires ring == [multiset{2}, multiset{0}, multiset{1}]
    ensures Sustained(ring, handles, 0) && Sustained(ring, handles, 1) && Sustained(ring, handles, 2)
  {
    assert Holds(ring, 1, 0) && Holds(ring, 0, 2) && Holds(ring, 2, 1);
    assert Sustains(ring, handles, 1, [0, 2, 1]);
    assert Sustains(ring, handles, 0, [2, 1, 0]);
    assert Sustains(ring, handles, 2, [1, 0, 2]);
  }

  /** What neither a future nor a state refers to is not sustained. */
  lemma NothingRefers(strong: seq<multiset<nat>>, handles: multiset<nat>, x: nat)
    requires x !in handles && x !in Held(strong)
    ensures !Sustained(strong, handles, x)
  {
    hide Sustained;
    SustainedBy(strong, handles, x);
    forall y | Holds(strong, y, x) ensures false { HeldAfter(strong, y, multiset{}); }
  }

  /** A detached state lives while it holds the future of itself, whoever else lets go; once it gives that future
      up, it lives on exactly if something else sustains it, and not if nothing else refers to it. */
  lemma DetachedLivesUntilForgotten(o: Owners, n: nat)
    requires o.Balanced(multiset{}) && n < |o.counts| && n in o.strong[n]
    ensures !o.Canceled(n)
    ensures var after := o.strong[n := o.strong[n] - multiset{n}];
      o.counts[n] == 1 ==> !Sustained(after, o.handles, n)
  {
    HeldAfter(o.strong, n, o.strong[n] - multiset{n});
    var after := o.strong[n := o.strong[n] - multiset{n}];
    if o.counts[n] == 1 { NothingRefers(after, o.handles, n); }
  }

  /** What the completion of a detached state does: it ends, if its own future was the last one. */
  method CompleteDetached(o: Owners, n: nat)
    requires o.Balanced(multiset{}) && n < |o.counts| && n in o.strong[n]
    modifies o
    ensures o.Balanced(multiset{}) && o.handles == old(o.handles) && |o.counts| == old(|o.counts|)
    ensures old(o.counts[n]) == 1 ==> o.Canceled(n)
    ensures var after := old(o.strong)[n := old(o.strong)[n] - multiset{n}];
      forall y: nat | y < |o.counts| :: o.Canceled(y) <==> !Sustained(after, o.handles, y)
  {
    hide Tallied, Held, Sustained, Released;
    DetachedLivesUntilForgotten(o, n);
    o.Forget(n, multiset{n});
  }

  /** A release runs up a chain of states, each held by the one before it alone, and stops at the first state that
      something else sustains. */
  lemma {:induction false} ReleaseRunsUpChain(strong: seq<multiset<nat>>, handles: multiset<nat>, chain: seq<nat>,
                                              m: nat)
    requires m < |chain| && Path(strong, chain)
    requires chain[0] !in handles && chain[0] !in Held(strong)
    requires forall i: nat | 0 < i < m :: chain[i] !in handles && HeldOnlyBy(strong, chain[i], chain[i - 1])
    ensures forall i: nat | i < m :: !Sustained(strong, handles, chain[i])
    ensures Sustained(strong, handles, chain[m]) <==>
      chain[m] in handles
      || exists y :: Sustained(strong, handles, y) && Holds(strong, y, chain[m]) && (m > 0 ==> y != chain[m - 1])
    ensures Sustained(strong, handles, chain[m]) ==>
      forall i: nat | m <= i < |chain| :: Sustained(strong, handles, chain[i])
    decreases m
  {
    hide Sustained, Held;
    if m == 0 {
      NothingRefers(strong, handles, chain[0]);
    } else {
      ReleaseRunsUpChain(strong, handles, chain, m - 1);
      if m == 1 {
        NothingRefers(strong, handles, chain[0]);
      } else {
        assert HeldOnlyBy(strong, chain[m - 1], chain[m - 2]);
      }
    }
    SustainedBy(strong, handles, chain[m]);
    if Sustained(strong, handles, chain[m]) { ChainSustained(strong, handles, chain, m); }
  }

  ghost predicate HeldOnlyBy(strong: seq<multiset<nat>>, x: nat, y: nat) {
    forall z | Holds(strong, z, x) :: z == y
  }

  lemma {:induction false} ChainSustained(strong: seq<multiset<nat>>, handles: multiset<nat>, chain: seq<nat>, m: nat)
    requires Path(strong, chain) && m < |chain| && Sustained(strong, handles, chain[m])
    ensures forall i: nat | m <= i < |chain| :: Sustained(strong, handles, chain[i])
    decreases |chain| - m
  {
    hide Sustained;
    if m + 1 < |chain| {
      assert Holds(strong, chain[m], chain[m + 1]);
      SustainedBy(strong, handles, chain[m + 1]);
      ChainSustained(strong, handles, chain, m + 1);
    }
  }
}
