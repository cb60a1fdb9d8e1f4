/** Graphs of packaged tasks, `then` and `recover` on copyable futures: in whatever order
    the executors run them, every future gets the outcome of direct evaluation. */
module Graphs {
  import opened Basics

  /** What a function of the program returns or throws: an outcome, or a future, which is flattened. */
  datatype Result<V, E> = Plain(o: Outcome<V, E>) | Future(k: nat)

  datatype Node<!V, !E> =
    | Package(run: () -> Result<V, E>)
    | Then(up: nat, onValue: V -> Result<V, E>)
    | Recover(up: nat, onReady: Outcome<V, E> -> Result<V, E>)

  type Graph<!V, !E> = seq<Node<V, E>>

  /** A node refers to earlier ones: the future it continues, and those its function may return. */
  ghost predicate Earlier<V(!new), E(!new)>(g: Graph<V, E>, n: nat)
    requires n < |g|
  {
    match g[n]
    case Package(run) => Before(run(), n)
    case Then(up, f) => up < n && forall v: V :: Before(f(v), n)
    case Recover(up, f) => up < n && forall o: Outcome<V, E> :: Before(f(o), n)
  }

  predicate Before<V, E>(r: Result<V, E>, n: nat) {
    r.Future? ==> r.k < n
  }

  ghost predicate Sensible<V(!new), E(!new)>(g: Graph<V, E>) {
    forall n: nat | n < |g| :: Earlier(g, n)
  }

  /** The result of the function of node `n`, given the outcome upstream; `then` passes a failure by. */
  function Run<V, E>(node: Node<V, E>, up: Outcome<V, E>): Result<V, E> {
    match node
    case Package(run) => run()
    case Then(_, f) => if up.Value? then f(up.value) else Plain(up)
    case Recover(_, f) => f(up)
  }

  /** Direct evaluation. */
  ghost function Eval<V(!new), E(!new)>(g: Graph<V, E>, n: nat): Outcome<V, E>
    requires Sensible(g) && n < |g|
    decreases n, 1
  {
    assert Earlier(g, n);
    Flatten(g, n, EvalRun(g, n))
  }

  ghost function EvalRun<V(!new), E(!new)>(g: Graph<V, E>, n: nat): (r: Result<V, E>)
    requires Sensible(g) && n < |g|
    ensures Before(r, n)
    decreases n, 0
  {
    assert Earlier(g, n);
    match g[n]
    case Package(run) => run()
    case Then(up, f) => Run(g[n], Eval(g, up))
    case Recover(up, f) => Run(g[n], Eval(g, up))
  }

  ghost function Flatten<V(!new), E(!new)>(g: Graph<V, E>, n: nat, r: Result<V, E>): Outcome<V, E>
    requires Sensible(g) && n < |g| && Before(r, n)
    decreases n, 0
  {
    match r
    case Plain(o) => o
    case Future(k) => Eval(g, k)
  }

  // ---------------------------------------------------------------------------
  // Schedules

  datatype Phase<V, E> =
    | Waiting
    | Submitted          // its executor has it
    | Reducing(k: nat)   // its function returned the future of node `k`
    | Ready(o: Outcome<V, E>)

  type State<V, E> = seq<Phase<V, E>>

  datatype Event = Submit(n: nat) | Call(n: nat) | Reduce(n: nat)

  predicate UpReady<V, E>(g: Graph<V, E>, s: State<V, E>, n: nat)
    requires n < |g|
  {
    g[n].Package? || (g[n].up < |s| && s[g[n].up].Ready?)
  }

  predicate Enabled<V, E>(g: Graph<V, E>, s: State<V, E>, e: Event) {
    && e.n < |g| == |s|
    && match e
       case Submit(n) => s[n].Waiting? && UpReady(g, s, n)
       case Call(n) => s[n].Submitted? && UpReady(g, s, n)
       case Reduce(n) => s[n].Reducing? && s[n].k < |s| && s[s[n].k].Ready?
  }

  function Called<V, E>(g: Graph<V, E>, s: State<V, E>, n: nat): Result<V, E>
    requires n < |g| && UpReady(g, s, n)
  {
    if g[n].Package? then g[n].run() else Run(g[n], s[g[n].up].o)
  }

  function Next<V, E>(g: Graph<V, E>, s: State<V, E>, e: Event): State<V, E>
    requires Enabled(g, s, e)
  {
    match e
    case Submit(n) => s[n := Submitted]
    case Call(n) =>
      var r := Called(g, s, n);
      s[n := if r.Plain? then Ready(r.o) else Reducing(r.k)]
    case Reduce(n) => s[n := s[s[n].k]]
  }

  function Start<V, E>(g: Graph<V, E>): State<V, E> {
    seq(|g|, n => Waiting)
  }

  function After<V, E>(g: Graph<V, E>, es: seq<Event>): Option<State<V, E>> {
    if es == [] then Some(Start(g)) else
      var s, e := After(g, es[..|es| - 1]), es[|es| - 1];
      if s.Some? && Enabled(g, s.value, e) then Some(Next(g, s.value, e)) else None
  }

  /** What is known of a node agrees with direct evaluation. */
  ghost predicate Agrees<V(!new), E(!new)>(g: Graph<V, E>, n: nat, phase: Phase<V, E>)
    requires Sensible(g) && n < |g|
  {
    && (phase.Ready? ==> phase.o == Eval(g, n))
    && (phase.Reducing? ==> EvalRun(g, n) == Future(phase.k))
  }

  ghost predicate AllAgree<V(!new), E(!new)>(g: Graph<V, E>, s: State<V, E>)
    requires Sensible(g)
  {
    |s| == |g| && forall n: nat | n < |s| :: Agrees(g, n, s[n])
  }

  lemma AgreeStays<V(!new), E(!new)>(g: Graph<V, E>, s: State<V, E>, e: Event)
    requires Sensible(g) && AllAgree(g, s) && Enabled(g, s, e)
    ensures AllAgree(g, Next(g, s, e))
  {
    hide Eval, EvalRun, Agrees;
    match e {
      case Submit(n) => NothingKnown(g, n);
      case Call(n) => CallAgrees(g, s, n);
      case Reduce(n) => ReduceAgrees(g, s, n);
    }
  }

  lemma NothingKnown<V(!new), E(!new)>(g: Graph<V, E>, n: nat)
    requires Sensible(g) && n < |g|
    ensures Agrees(g, n, Submitted) && Agrees(g, n, Waiting)
  {
  }

  lemma CallAgrees<V(!new), E(!new)>(g: Graph<V, E>, s: State<V, E>, n: nat)
    requires Sensible(g) && AllAgree(g, s) && Enabled(g, s, Call(n))
    ensures Agrees(g, n, Next(g, s, Call(n))[n])
  {
    assert Earlier(g, n);
    if !g[n].Package? { assert Agrees(g, g[n].up, s[g[n].up]); }
    assert Called(g, s, n) == EvalRun(g, n);
  }

  lemma ReduceAgrees<V(!new), E(!new)>(g: Graph<V, E>, s: State<V, E>, n: nat)
    requires Sensible(g) && AllAgree(g, s) && Enabled(g, s, Reduce(n))
    ensures Agrees(g, n, Next(g, s, Reduce(n))[n])
  {
    assert Agrees(g, n, s[n]) && Agrees(g, s[n].k, s[s[n].k]);
  }

  /** Under every schedule a future that is ready has the outcome of direct evaluation. */
  lemma {:induction false} EveryScheduleAgrees<V(!new), E(!new)>(g: Graph<V, E>, es: seq<Event>)
    requires Sensible(g) && After(g, es).Some?
    ensures AllAgree(g, After(g, es).value)
    decreases |es|
  {
    hide Agrees, Enabled, Next;
    if es == [] {
      forall n: nat | n < |g| ensures Agrees(g, n, Start(g)[n]) { NothingKnown(g, n); }
    } else {
      EveryScheduleAgrees(g, es[..|es| - 1]);
      AgreeStays(g, After(g, es[..|es| - 1]).value, es[|es| - 1]);
    }
  }

  /** How many steps the nodes still have to take. */
  function Left<V, E>(s: State<V, E>): nat {
    if s == [] then 0 else
      (match s[0] case Waiting => 3 case Submitted => 2 case Reducing(_) => 1 case Ready(_) => 0) + Left(s[1..])
  }

  lemma {:induction false} LeftAfter<V, E>(s: State<V, E>, n: nat, phase: Phase<V, E>)
    requires n < |s|
    ensures Left(s[n := phase]) == Left(s) - Left([s[n]]) + Left([phase])
  {
    if n == 0 {
      assert s[0 := phase][1..] == s[1..];
    } else {
      assert s[n := phase][1..] == s[1..][n - 1 := phase];
      LeftAfter(s[1..], n - 1, phase);
    }
  }

  /** No schedule goes on for ever. */
  lemma {:induction false} SchedulesEnd<V, E>(g: Graph<V, E>, es: seq<Event>)
    requires After(g, es).Some?
    ensures |es| + Left(After(g, es).value) <= 3 * |g|
    decreases |es|
  {
    if es == [] {
      StartLeft(g);
    } else {
      SchedulesEnd(g, es[..|es| - 1]);
      var s, e := After(g, es[..|es| - 1]).value, es[|es| - 1];
      LeftAfter(s, e.n, Next(g, s, e)[e.n]);
    }
  }

  lemma {:induction false} StartLeft<V, E>(g: Graph<V, E>)
    ensures Left(Start(g)) == 3 * |g|
  {
    if g != [] {
      StartLeft(g[1..]);
      assert Start(g)[1..] == Start(g[1..]);
    }
  }

  /** A schedule that cannot go on has completed every future, with the outcome of direct evaluation. */
  lemma {:induction false} FinishedIsEvaluated<V(!new), E(!new)>(g: Graph<V, E>, es: seq<Event>, n: nat)
    requires Sensible(g) && After(g, es).Some? && n < |g|
    requires forall e: Event :: !Enabled(g, After(g, es).value, e)
    ensures After(g, es).value[n] == Ready(Eval(g, n))
    decreases n
  {
    EveryScheduleAgrees(g, es);
    var s := After(g, es).value;
    assert Agrees(g, n, s[n]) && Earlier(g, n);
    assert !Enabled(g, s, Submit(n)) && !Enabled(g, s, Call(n)) && !Enabled(g, s, Reduce(n));
    if !g[n].Package? { FinishedIsEvaluated(g, es, g[n].up); }
    if s[n].Reducing? { FinishedIsEvaluated(g, es, s[n].k); }
  }

  // ---------------------------------------------------------------------------
  // What each kind of node does, read off the futures of a run

  predicate Known<V(==), E(==)>(s: State<V, E>, k: nat, o: Outcome<V, E>) {
    k < |s| && s[k] == Ready(o)
  }

  /** A function that returned `r` gives `o`: its own outcome, or that of the future it returned. */
  predicate Gives<V(==), E(==)>(s: State<V, E>, r: Result<V, E>, o: Outcome<V, E>) {
    match r
    case Plain(p) => o == p
    case Future(k) => Known(s, k, o)
  }

  /** A function that returned `r` has left its node in `phase`. */
  predicate Leaves<V(==), E(==)>(s: State<V, E>, r: Result<V, E>, phase: Phase<V, E>) {
    if phase.Ready? then Gives(s, r, phase.o) else phase.Reducing? && r == Future(phase.k)
  }

  /** A package calls its function; `recover` calls it with the outcome upstream, whatever that is; `then` calls it
      with the value upstream, and hands a failure on. */
  predicate Does<V(==), E(==)>(s: State<V, E>, node: Node<V, E>, phase: Phase<V, E>) {
    match node
    case Package(run) => Leaves(s, run(), phase)
    case Recover(up, f) => up < |s| && s[up].Ready? && Leaves(s, f(s[up].o), phase)
    case Then(up, f) =>
      && up < |s| && s[up].Ready?
      && match s[up].o
         case Value(v) => Leaves(s, f(v), phase)
         case Failure(_) => phase == s[up]
  }

  ghost predicate DoneRight<V, E>(g: Graph<V, E>, s: State<V, E>, n: nat)
    requires n < |g| == |s|
  {
    && (s[n].Ready? || s[n].Reducing? ==> Does(s, g[n], s[n]))
    && (s[n].Submitted? && !g[n].Package? ==> g[n].up < |s| && s[g[n].up].Ready?)
  }

  lemma DoesStill<V, E>(s: State<V, E>, n: nat, phase: Phase<V, E>, node: Node<V, E>, was: Phase<V, E>)
    requires n < |s| && !s[n].Ready? && Does(s, node, was)
    ensures Does(s[n := phase], node, was)
  {
  }

  lemma NextDoes<V, E>(g: Graph<V, E>, s: State<V, E>, e: Event, n: nat)
    requires Enabled(g, s, e) && n < |g| && DoneRight(g, s, n)
    ensures DoneRight(g, Next(g, s, e), n)
  {
    hide Does;
    var t := Next(g, s, e);
    if n != e.n {
      if s[n].Ready? || s[n].Reducing? { DoesStill(s, e.n, t[e.n], g[n], s[n]); }
    } else {
      match e {
        case Submit(_) =>
        case Call(_) => CallDoes(g, s, n);
        case Reduce(_) => ReduceDoes(s, g[n], n);
      }
    }
  }

  lemma CallDoes<V, E>(g: Graph<V, E>, s: State<V, E>, n: nat)
    requires Enabled(g, s, Call(n))
    ensures Does(Next(g, s, Call(n)), g[n], Next(g, s, Call(n))[n])
  {
  }

  lemma ReduceDoes<V, E>(s: State<V, E>, node: Node<V, E>, n: nat)
    requires n < |s| && s[n].Reducing? && s[n].k < |s| && s[s[n].k].Ready? && Does(s, node, s[n])
    ensures Does(s[n := s[s[n].k]], node, s[s[n].k])
  {
  }

  /** In every run every node that is ready has done what its kind of node does, and none that continues a future has
      been submitted before that future was ready. */
  lemma {:induction false} EveryNodeDoes<V, E>(g: Graph<V, E>, es: seq<Event>, n: nat)
    requires After(g, es).Some? && n < |g|
    ensures |After(g, es).value| == |g| && DoneRight(g, After(g, es).value, n)
    decreases |es|
  {
    hide Does, Enabled, Next;
    if es != [] {
      EveryNodeDoes(g, es[..|es| - 1], n);
      SizeStays(g, After(g, es[..|es| - 1]).value, es[|es| - 1]);
      NextDoes(g, After(g, es[..|es| - 1]).value, es[|es| - 1], n);
    }
  }

  lemma SizeStays<V, E>(g: Graph<V, E>, s: State<V, E>, e: Event)
    requires Enabled(g, s, e)
    ensures |Next(g, s, e)| == |s| == |g|
  {
  }

  /** A `then` whose future is ready has called its function with the value upstream, and has the outcome of that, or
      of the future that it returned; if there is a failure upstream it has that failure. */
  lemma ThenApplies<V, E>(g: Graph<V, E>, es: seq<Event>, n: nat)
    requires After(g, es).Some? && n < |g| == |After(g, es).value| && g[n].Then? && After(g, es).value[n].Ready?
    ensures var s, up, f := After(g, es).value, g[n].up, g[n].onValue;
      && up < |s| && s[up].Ready?
      && (s[up].o.Value? && f(s[up].o.value).Plain? ==> s[n].o == f(s[up].o.value).o)
      && (s[up].o.Value? && f(s[up].o.value).Future? ==> Known(s, f(s[up].o.value).k, s[n].o))
      && (s[up].o.Failure? ==> s[n].o == s[up].o)
  {
    EveryNodeDoes(g, es, n);
  }

  /** A `recover` whose future is ready has called its function with the outcome upstream, value or failure. */
  lemma RecoverApplies<V, E>(g: Graph<V, E>, es: seq<Event>, n: nat)
    requires After(g, es).Some? && n < |g| == |After(g, es).value| && g[n].Recover? && After(g, es).value[n].Ready?
    ensures var s, up, f := After(g, es).value, g[n].up, g[n].onReady;
      && up < |s| && s[up].Ready?
      && (f(s[up].o).Plain? ==> s[n].o == f(s[up].o).o)
      && (f(s[up].o).Future? ==> Known(s, f(s[up].o).k, s[n].o))
  {
    EveryNodeDoes(g, es, n);
  }

  lemma PackageApplies<V, E>(g: Graph<V, E>, es: seq<Event>, n: nat)
    requires After(g, es).Some? && n < |g| == |After(g, es).value| && g[n].Package? && After(g, es).value[n].Ready?
    ensures var s, r := After(g, es).value, g[n].run();
      && (r.Plain? ==> s[n].o == r.o)
      && (r.Future? ==> Known(s, r.k, s[n].o))
  {
    EveryNodeDoes(g, es, n);
  }
}
