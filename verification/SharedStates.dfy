/** The one-shot state behind a future: completed by whichever handle still refers to it, read by continuations.

    A state is what one shared state holds, together with the threads between two locked regions; an event is
    one locked region, or one step outside the lock, of any thread.
  */
module SharedStates {
  import opened Basics

  /** The thread that completes the state. */
  datatype Completer<V, E, C> =
    | Nobody
    | Storing(o: Outcome<V, E>)   // about to write the result, outside the lock
    | Stored                      // the result is written, but not yet published
    | Delivering(todo: seq<C>)    // published; these continuations are still to be submitted

  /** `handles` says which tasks and promises refer to this state. */
  datatype State<V, E, C> = State(
    handles: seq<bool>, held: bool, completer: Completer<V, E, C>,
    result: Option<Outcome<V, E>>, ready: bool, waiting: seq<C>,
    late: seq<C>, inOrder: seq<C>, submitted: seq<C>, completions: nat)

  datatype Event<V, E, C> =
    | NewHandle                         // an empty task or promise
    | Move(i: nat, j: nat)              // handle `i` is assigned handle `j`
    | Drop(i: nat)                      // the destructor of handle `i`
    | Set(i: nat, o: Outcome<V, E>)     // a value or an exception is set through handle `i`
    | Release                           // the last future goes away
    | Store
    | Publish
    | Deliver
    | Attach(c: C)
    | DeliverLate(k: nat)

  /** A new state has one handle, its packaged task. */
  function Start<V, E, C>(): State<V, E, C> {
    State([true], true, Nobody, None, false, [], [], [], [], 0)
  }

  predicate Enabled<V, E, C>(s: State<V, E, C>, e: Event<V, E, C>) {
    match e
    case NewHandle => true
    case Move(i, j) => i < |s.handles| && j < |s.handles|
    case Drop(i) => i < |s.handles|
    case Set(i, _) => i < |s.handles|
    case Release => s.held
    case Store => s.completer.Storing?
    case Publish => s.completer.Stored?
    case Deliver => s.completer.Delivering? && s.completer.todo != []
    case Attach(_) => s.held
    case DeliverLate(k) => k < |s.late|
  }

  /** Handle `i` gives up its claim: if it refers to the state and the state still exists, this completes it. */
  function Completed<V, E, C>(s: State<V, E, C>, i: nat, o: Outcome<V, E>): State<V, E, C>
    requires i < |s.handles|
  {
    if s.handles[i] && s.held
    then s.(handles := s.handles[i := false], completer := Storing(o), completions := s.completions + 1)
    else s.(handles := s.handles[i := false])
  }

  /** An assignment breaks the promise it overwrites, unless it assigns a handle to itself. */
  function Moved<V, E, C>(s: State<V, E, C>, i: nat, j: nat, broken: E): State<V, E, C>
    requires i < |s.handles| && j < |s.handles|
  {
    if i == j then s else
      var t := Completed(s, i, Failure(broken));
      t.(handles := t.handles[i := s.handles[j]][j := false])
  }

  function Next<V, E, C>(s: State<V, E, C>, e: Event<V, E, C>, broken: E): State<V, E, C>
    requires Enabled(s, e)
  {
    match e
    case NewHandle => s.(handles := s.handles + [false])
    case Move(i, j) => Moved(s, i, j, broken)
    case Drop(i) => Completed(s, i, Failure(broken))
    case Set(i, o) => if s.held then Completed(s, i, o) else s
    case Release => s.(held := false)
    case Store => s.(result := Some(s.completer.o), completer := Stored)
    case Publish => s.(ready := true, completer := Delivering(s.waiting), waiting := [])
    case Deliver =>
      var todo := s.completer.todo;
      s.(submitted := s.submitted + [todo[0]], inOrder := s.inOrder + [todo[0]], completer := Delivering(todo[1..]))
    case Attach(c) => if s.ready then s.(late := s.late + [c]) else s.(waiting := s.waiting + [c])
    case DeliverLate(k) =>
      s.(submitted := s.submitted + [s.late[k]], late := s.late[..k] + s.late[k + 1..])
  }

  function After<V, E, C>(es: seq<Event<V, E, C>>, broken: E): Option<State<V, E, C>> {
    if es == [] then Some(Start()) else
      var s, e := After(es[..|es| - 1], broken), es[|es| - 1];
      if s.Some? && Enabled(s.value, e) then Some(Next(s.value, e, broken)) else None
  }

  predicate Published<V, E, C>(es: seq<Event<V, E, C>>) {
    es != [] && (es[|es| - 1].Publish? || Published(es[..|es| - 1]))
  }

  /** The continuations attached in a run; with `early`, only those attached before the result was published. */
  function Attached<V, E, C>(es: seq<Event<V, E, C>>, early: bool): seq<C> {
    if es == [] then [] else
      var before, e := es[..|es| - 1], es[|es| - 1];
      Attached(before, early) + if e.Attach? && !(early && Published(before)) then [e.c] else []
  }

  // ---------------------------------------------------------------------------
  // Completed at most once

  /** At most one handle refers to the state, none once a completion has begun, and until then one does. */
  ghost predicate OneClaim<V, E, C>(s: State<V, E, C>) {
    && AtMostOne(s.handles)
    && (s.completions > 0 ==> s.completions == 1 && !AtLeastOne(s.handles))
    && (s.completions == 0 && s.held ==> AtLeastOne(s.handles))
    && (s.completions == 0 <==> s.completer.Nobody?)
    && (s.result.Some? <==> s.completer.Stored? || s.completer.Delivering?)
    && (s.ready <==> s.completer.Delivering?)
  }

  /** At most one of the handles is set. */
  ghost predicate AtMostOne(handles: seq<bool>) {
    forall i: nat, j: nat | i < |handles| && j < |handles| && handles[i] && handles[j] :: i == j
  }

  ghost predicate AtLeastOne(handles: seq<bool>) {
    exists i: nat | i < |handles| :: handles[i]
  }

  lemma ClaimPasses(handles: seq<bool>, i: nat, j: nat)
    requires i < |handles| && j < |handles| && i != j && AtMostOne(handles)
    ensures var moved := handles[i := false][i := handles[j]][j := false];
      && AtMostOne(moved)
      && (AtLeastOne(handles) && !handles[i] ==> AtLeastOne(moved))
      && (handles[i] || !AtLeastOne(handles) ==> !AtLeastOne(moved))
  {
    var moved := handles[i := false][i := handles[j]][j := false];
    if AtLeastOne(handles) && !handles[i] {
      var k: nat :| k < |handles| && handles[k];
      assert if k == j then moved[i] else moved[k];
    }
  }

  lemma ClaimEnds(handles: seq<bool>, i: nat)
    requires i < |handles| && AtMostOne(handles)
    ensures var fewer := handles[i := false];
      && AtMostOne(fewer)
      && (AtLeastOne(handles) && !handles[i] ==> AtLeastOne(fewer))
      && (handles[i] || !AtLeastOne(handles) ==> !AtLeastOne(fewer))
  {
    var fewer := handles[i := false];
    if AtLeastOne(handles) && !handles[i] {
      var k: nat :| k < |handles| && handles[k];
      assert fewer[k];
    }
  }

  lemma ClaimAlone(handles: seq<bool>)
    requires AtMostOne(handles)
    ensures AtMostOne(handles + [false]) && (AtLeastOne(handles) <==> AtLeastOne(handles + [false]))
  {
    if AtLeastOne(handles) {
      var k: nat :| k < |handles| && handles[k];
      assert (handles + [false])[k];
    }
  }

  lemma OneClaimStays<V, E, C>(s: State<V, E, C>, e: Event<V, E, C>, broken: E)
    requires OneClaim(s) && Enabled(s, e)
    ensures OneClaim(Next(s, e, broken))
    ensures s.ready ==> Next(s, e, broken).ready && Next(s, e, broken).result == s.result
  {
    hide AtMostOne, AtLeastOne;
    match e {
      case NewHandle => ClaimAlone(s.handles);
      case Move(i, j) => if i != j { ClaimPasses(s.handles, i, j); Held(s.handles, i); }
      case Drop(i) => ClaimEnds(s.handles, i); Held(s.handles, i);
      case Set(i, _) => ClaimEnds(s.handles, i); Held(s.handles, i);
      case _ =>
    }
  }

  lemma Held(handles: seq<bool>, i: nat)
    requires i < |handles|
    ensures handles[i] ==> AtLeastOne(handles)
  {
  }

  // ---------------------------------------------------------------------------
  // Every continuation is submitted once

  function Todo<V, E, C>(s: State<V, E, C>): seq<C> {
    if s.completer.Delivering? then s.completer.todo else []
  }

  /** The continuations attached early are submitted in their order; all those attached have been submitted or
      will be, none twice, and none before the result is published. */
  ghost predicate Accounted<V, E, C>(s: State<V, E, C>, es: seq<Event<V, E, C>>) {
    && Ordered(s.inOrder, Todo(s), s.waiting, Attached(es, true))
    && Tallied(s.submitted, Todo(s), s.waiting, s.late, Attached(es, false))
    && (s.submitted != [] || s.late != [] ==> s.ready) && (s.ready ==> s.waiting == [])
    && (s.ready <==> Published(es))
  }

  ghost predicate Ordered<C>(done: seq<C>, todo: seq<C>, waiting: seq<C>, attached: seq<C>) {
    done + todo + waiting == attached
  }

  ghost predicate Tallied<C>(submitted: seq<C>, todo: seq<C>, waiting: seq<C>, late: seq<C>, attached: seq<C>) {
    multiset(submitted) + multiset(todo) + multiset(waiting) + multiset(late) == multiset(attached)
  }

  lemma AccountedStays<V, E, C>(s: State<V, E, C>, es: seq<Event<V, E, C>>, broken: E)
    requires es != [] && OneClaim(s) && Enabled(s, es[|es| - 1]) && Accounted(s, es[..|es| - 1])
    ensures Accounted(Next(s, es[|es| - 1], broken), es)
  {
    hide OneClaim, Completed, Moved, Ordered, Tallied, Attached, Published;
    Readiness(s);
    var before := es[..|es| - 1];
    var early, all := Attached(before, true), Attached(before, false);
    AttachedNext(es);
    match es[|es| - 1] {
      case Publish => PublishKeeps(s.inOrder, s.submitted, s.waiting, s.late, early, all);
      case Deliver => DeliverKeeps(s.inOrder, s.submitted, Todo(s), s.waiting, s.late, early, all);
      case DeliverLate(k) => LateKeeps(s.submitted, Todo(s), s.waiting, s.late, k, all);
      case Attach(c) => AttachKeeps(s.inOrder, s.submitted, Todo(s), s.waiting, s.late, early, all, c);
      case Move(i, j) => HandlesOnly(s, i, j, Failure(broken), broken);
      case Drop(i) => HandlesOnly(s, i, i, Failure(broken), broken);
      case Set(i, o) => HandlesOnly(s, i, i, o, broken);
      case _ =>
    }
  }

  lemma AttachedNext<V, E, C>(es: seq<Event<V, E, C>>)
    requires es != []
    ensures var before, e := es[..|es| - 1], es[|es| - 1];
      && Attached(es, false) == (if e.Attach? then Attached(before, false) + [e.c] else Attached(before, false))
      && Attached(es, true) ==
         (if e.Attach? && !Published(before) then Attached(before, true) + [e.c] else Attached(before, true))
      && (Published(es) <==> e.Publish? || Published(before))
  {
  }

  lemma Readiness<V, E, C>(s: State<V, E, C>)
    requires OneClaim(s)
    ensures s.ready <==> s.completer.Delivering?
  {
  }

  /** Handles may change hands and complete the state; what concerns continuations stays. */
  lemma HandlesOnly<V, E, C>(s: State<V, E, C>, i: nat, j: nat, o: Outcome<V, E>, broken: E)
    requires OneClaim(s) && i < |s.handles| && j < |s.handles|
    ensures forall t | t == Completed(s, i, o) || t == Moved(s, i, j, broken) ::
      && t.inOrder == s.inOrder && Todo(t) == Todo(s) && t.waiting == s.waiting && t.submitted == s.submitted
      && t.late == s.late && t.ready == s.ready
  {
    hide AtMostOne;
    Held(s.handles, i);
  }

  lemma PublishKeeps<C>(done: seq<C>, submitted: seq<C>, waiting: seq<C>, late: seq<C>, early: seq<C>, all: seq<C>)
    requires Ordered(done, [], waiting, early) && Tallied(submitted, [], waiting, late, all)
    ensures Ordered(done, waiting, [], early) && Tallied(submitted, waiting, [], late, all)
  {
  }

  lemma DeliverKeeps<C>(done: seq<C>, submitted: seq<C>, todo: seq<C>, waiting: seq<C>, late: seq<C>,
                        early: seq<C>, all: seq<C>)
    requires todo != [] && Ordered(done, todo, waiting, early) && Tallied(submitted, todo, waiting, late, all)
    ensures Ordered(done + [todo[0]], todo[1..], waiting, early)
    ensures Tallied(submitted + [todo[0]], todo[1..], waiting, late, all)
  {
    assert todo == [todo[0]] + todo[1..];
  }

  lemma LateKeeps<C>(submitted: seq<C>, todo: seq<C>, waiting: seq<C>, late: seq<C>, k: nat, all: seq<C>)
    requires k < |late| && Tallied(submitted, todo, waiting, late, all)
    ensures Tallied(submitted + [late[k]], todo, waiting, late[..k] + late[k + 1..], all)
  {
    assert late == late[..k] + [late[k]] + late[k + 1..];
  }

  lemma AttachKeeps<C>(done: seq<C>, submitted: seq<C>, todo: seq<C>, waiting: seq<C>, late: seq<C>,
                       early: seq<C>, all: seq<C>, c: C)
    requires Ordered(done, todo, waiting, early) && Tallied(submitted, todo, waiting, late, all)
    ensures Ordered(done, todo, waiting + [c], early + [c])
    ensures Tallied(submitted, todo, waiting + [c], late, all + [c])
    ensures Tallied(submitted, todo, waiting, late + [c], all + [c])
  {
  }

  /** Over any run of handles being moved, overwritten, set and dropped while continuations are attached, the
      state is completed at most once and every continuation is accounted for. */
  lemma {:induction false} EveryRunKeepsFaith<V, E, C>(es: seq<Event<V, E, C>>, broken: E)
    requires After(es, broken).Some?
    ensures var s := After(es, broken).value; OneClaim(s) && Accounted(s, es)
    decreases |es|
  {
    hide OneClaim, Accounted, Next, Enabled;
    if es == [] {
      StartIsFair<V, E, C>();
    } else {
      EveryRunKeepsFaith(es[..|es| - 1], broken);
      var s := After(es[..|es| - 1], broken).value;
      OneClaimStays(s, es[|es| - 1], broken);
      AccountedStays(s, es, broken);
    }
  }

  lemma StartIsFair<V, E, C>()
    ensures OneClaim(Start<V, E, C>()) && Accounted(Start<V, E, C>(), [])
  {
    assert Start<V, E, C>().handles[0];
  }

  /** Once the result is published and every thread has done what it was about to do, each continuation has been
      submitted exactly once, the early ones in the order in which they were attached. */
  lemma AllSubmitted<V, E, C>(es: seq<Event<V, E, C>>, broken: E)
    requires After(es, broken).Some?
    ensures var s := After(es, broken).value;
      s.completer == Delivering([]) && s.late == [] ==>
        s.inOrder == Attached(es, true) && multiset(s.submitted) == multiset(Attached(es, false))
  {
    hide After, Attached, OneClaim, Published;
    EveryRunKeepsFaith(es, broken);
    var s := After(es, broken).value;
    if s.completer == Delivering([]) && s.late == [] {
      Readiness(s);
      Settled(s.inOrder, s.submitted, Attached(es, true), Attached(es, false));
    }
  }

  lemma Settled<C>(done: seq<C>, submitted: seq<C>, early: seq<C>, all: seq<C>)
    requires Ordered(done, [], [], early) && Tallied(submitted, [], [], [], all)
    ensures done == early && multiset(submitted) == multiset(all)
  {
    assert done + [] + [] == done;
  }

  /** What was published does not change, whatever happens after. */
  lemma {:induction false} ResultIsFinal<V, E, C>(es: seq<Event<V, E, C>>, more: seq<Event<V, E, C>>, broken: E)
    requires After(es + more, broken).Some?
    ensures After(es, broken).Some?
    ensures var s, t := After(es, broken).value, After(es + more, broken).value;
      s.ready ==> t.ready && s.result.Some? && t.result == s.result
    decreases |more|
  {
    if more == [] {
      assert es + more == es;
      EveryRunKeepsFaith(es, broken);
    } else {
      var less := more[..|more| - 1];
      assert (es + more)[..|es + more| - 1] == es + less;
      ResultIsFinal(es, less, broken);
      EveryRunKeepsFaith(es + less, broken);
      OneClaimStays(After(es + less, broken).value, more[|more| - 1], broken);
    }
  }

  // ---------------------------------------------------------------------------
  // A completion goes on to its end

  /** Steps that are left to the threads between two locked regions. */
  function Left<V, E, C>(s: State<V, E, C>): nat {
    |s.late| + match s.completer
               case Nobody => 0
               case Storing(_) => 2 + |s.waiting|
               case Stored => 1 + |s.waiting|
               case Delivering(todo) => |todo|
  }

  /** The steps of those threads; everything else is done by whoever has a handle or a future. */
  predicate Inside<V, E, C>(e: Event<V, E, C>) {
    e.Store? || e.Publish? || e.Deliver? || e.DeliverLate?
  }

  lemma EveryStepCounts<V, E, C>(s: State<V, E, C>, e: Event<V, E, C>, broken: E)
    requires OneClaim(s) && Enabled(s, e) && Inside(e)
    ensures Left(Next(s, e, broken)) == Left(s) - 1
  {
    hide AtMostOne, AtLeastOne;
  }

  lemma SomeStep<V, E, C>(s: State<V, E, C>) returns (e: Event<V, E, C>)
    requires Left(s) > 0
    ensures Inside(e) && Enabled(s, e)
  {
    e := if s.late != [] then DeliverLate(0)
         else match s.completer case Storing(_) => Store case Stored => Publish case _ => Deliver;
  }

  /** From every state the threads can go on by themselves until every continuation that may be submitted has been: once
      a completion has begun, all of them, each exactly once, and the early ones in order. */
  lemma {:induction false} CanDeliver<V, E, C>(es: seq<Event<V, E, C>>, broken: E) returns (more: seq<Event<V, E, C>>)
    requires After(es, broken).Some?
    ensures |more| == Left(After(es, broken).value) && (forall i | 0 <= i < |more| :: Inside(more[i]))
    ensures After(es + more, broken).Some?
    ensures After(es, broken).value.completions > 0 ==>
      var s := After(es + more, broken).value;
      s.ready && s.inOrder == Attached(es, true) && multiset(s.submitted) == multiset(Attached(es, false))
    decreases Left(After(es, broken).value)
  {
    hide Next, Enabled, OneClaim, Accounted, Left, Inside, Attached;
    var s := After(es, broken).value;
    EveryRunKeepsFaith(es, broken);
    if Left(s) == 0 {
      more := [];
      assert es + more == es;
      AllSubmitted(es, broken);
      NothingLeft(s);
    } else {
      var e := SomeStep(s);
      var es' := es + [e];
      assert es'[..|es'| - 1] == es;
      EveryStepCounts(s, e, broken);
      CompletionsStay(s, e, broken);
      AttachedSame(es, e);
      var rest := CanDeliver(es', broken);
      more := [e] + rest;
      assert es + more == es' + rest;
    }
  }

  lemma NothingLeft<V, E, C>(s: State<V, E, C>)
    requires OneClaim(s) && Left(s) == 0
    ensures s.completions > 0 ==> s.completer == Delivering([]) && s.late == [] && s.ready
  {
  }

  lemma CompletionsStay<V, E, C>(s: State<V, E, C>, e: Event<V, E, C>, broken: E)
    requires Enabled(s, e) && Inside(e)
    ensures Next(s, e, broken).completions == s.completions
  {
  }

  lemma AttachedSame<V, E, C>(es: seq<Event<V, E, C>>, e: Event<V, E, C>)
    requires Inside(e)
    ensures Attached(es + [e], true) == Attached(es, true) && Attached(es + [e], false) == Attached(es, false)
  {
    assert (es + [e])[..|es|] == es;
  }

  /** Handles are made, moved, set and dropped, and continuations attached, without waiting for anyone. */
  lemma CallersNeverWait<V, E, C>(s: State<V, E, C>, i: nat, j: nat, o: Outcome<V, E>, c: C, broken: E)
    requires i < |s.handles| && j < |s.handles|
    ensures Enabled<V, E, C>(s, NewHandle) && Enabled<V, E, C>(s, Move(i, j)) && Enabled<V, E, C>(s, Event.Drop(i))
    ensures Enabled<V, E, C>(s, Set(i, o))
    ensures s.held ==> Enabled<V, E, C>(s, Attach(c)) && Enabled<V, E, C>(s, Release)
    ensures Next(s, NewHandle, broken).handles == s.handles + [false]
  {
  }

  // ---------------------------------------------------------------------------
  // What is published is what was set

  /** Which handle has the claim on the state after an event, if `c` had it before: an assignment passes it on, and it
      is gone once it has been used, dropped, or overwritten. */
  function PassClaim<V, E, C>(c: Option<nat>, held: bool, e: Event<V, E, C>): Option<nat> {
    if e.Move? && e.i != e.j then (if c == Some(e.j) then Some(e.i) else if c == Some(e.i) then None else c)
    else if (e.Drop? || (e.Set? && held)) && c == Some(e.i) then None
    else c
  }

  /** The outcome that an event gives the state: what is set through the handle that has the claim, or a broken promise
      when that handle is dropped or overwritten; none when no future is held. */
  function Use<V, E, C>(c: Option<nat>, held: bool, e: Event<V, E, C>, broken: E): Option<Outcome<V, E>> {
    if !held || c.None? then None
    else if e.Set? && c == Some(e.i) then Some(e.o)
    else if (e.Drop? || (e.Move? && e.i != e.j)) && c == Some(e.i) then Some(Failure(broken))
    else None
  }

  predicate Released<V, E, C>(es: seq<Event<V, E, C>>) {
    es != [] && (es[|es| - 1].Release? || Released(es[..|es| - 1]))
  }

  /** Who has the claim, read off the events; at first the packaged task. */
  function Claimant<V, E, C>(es: seq<Event<V, E, C>>): Option<nat> {
    if es == [] then Some(0)
    else PassClaim(Claimant(es[..|es| - 1]), !Released(es[..|es| - 1]), es[|es| - 1])
  }

  /** The outcome of the run, read off the events. */
  function Completion<V, E, C>(es: seq<Event<V, E, C>>, broken: E): Option<Outcome<V, E>> {
    if es == [] then None else
      var before := es[..|es| - 1];
      var o := Use(Claimant(before), !Released(before), es[|es| - 1], broken);
      if o.Some? then o else Completion(before, broken)
  }

  ghost predicate Claimed(handles: seq<bool>, c: Option<nat>) {
    && (forall i: nat | i < |handles| :: handles[i] <==> c == Some(i))
    && (c.Some? ==> c.value < |handles|)
  }

  /** With what outcome a state was completed. */
  predicate Faithful<V(==), E(==), C>(s: State<V, E, C>, outcome: Option<Outcome<V, E>>) {
    match s.completer
    case Nobody => s.result.None? && outcome.None?
    case Storing(o) => s.result.None? && outcome == Some(o)
    case _ => s.result.Some? && outcome == s.result
  }

  lemma ClaimedStays<V, E, C>(s: State<V, E, C>, e: Event<V, E, C>, c: Option<nat>, broken: E)
    requires Enabled(s, e) && Claimed(s.handles, c)
    ensures Claimed(Next(s, e, broken).handles, PassClaim(c, s.held, e))
    ensures Next(s, e, broken).held <==> s.held && !e.Release?
  {
  }

  lemma FaithfulStays<V, E, C>(s: State<V, E, C>, e: Event<V, E, C>, c: Option<nat>, broken: E,
                               outcome: Option<Outcome<V, E>>)
    requires OneClaim(s) && Enabled(s, e) && Claimed(s.handles, c) && Faithful(s, outcome)
    ensures var o := Use(c, s.held, e, broken); Faithful(Next(s, e, broken), if o.Some? then o else outcome)
  {
    hide AtMostOne, AtLeastOne;
    if c.Some? { Held(s.handles, c.value); }
  }

  lemma {:induction false} EveryRunIsFaithful<V, E, C>(es: seq<Event<V, E, C>>, broken: E)
    requires After(es, broken).Some?
    ensures var s := After(es, broken).value;
      Claimed(s.handles, Claimant(es)) && s.held == !Released(es) && Faithful(s, Completion(es, broken))
    decreases |es|
  {
    hide Claimed, Faithful, Next, Enabled, OneClaim, Accounted, PassClaim, Use;
    if es == [] {
      StartIsFaithful<V, E, C>(broken);
    } else {
      var before := es[..|es| - 1];
      EveryRunIsFaithful(before, broken);
      EveryRunKeepsFaith(before, broken);
      var s, c := After(before, broken).value, Claimant(before);
      ClaimedStays(s, es[|es| - 1], c, broken);
      FaithfulStays(s, es[|es| - 1], c, broken, Completion(before, broken));
    }
  }

  lemma StartIsFaithful<V, E, C>(broken: E)
    ensures Claimed(Start<V, E, C>().handles, Some(0)) && Faithful(Start<V, E, C>(), None)
  {
  }

  /** In every run a published result is the outcome with which the claim was used first. */
  lemma PublishedIsWhatWasSet<V, E, C>(es: seq<Event<V, E, C>>, broken: E)
    requires After(es, broken).Some?
    ensures var s := After(es, broken).value;
      && (s.ready ==> s.result.Some? && s.result == Completion(es, broken))
      && (s.completions == 0 <==> Completion(es, broken).None?)
  {
    hide Completion, Claimant, Released, After, AtMostOne, AtLeastOne, Accounted;
    EveryRunIsFaithful(es, broken);
    EveryRunKeepsFaith(es, broken);
  }

  /** The completion with `o` has begun, and perhaps been published. */
  predicate Pledged<V(==), E(==), C>(s: State<V, E, C>, o: Outcome<V, E>) {
    match s.completer
    case Nobody => false
    case Storing(p) => p == o
    case _ => s.result == Some(o)
  }

  lemma PledgedStays<V, E, C>(s: State<V, E, C>, e: Event<V, E, C>, o: Outcome<V, E>, broken: E)
    requires OneClaim(s) && Enabled(s, e) && Pledged(s, o)
    ensures Pledged(Next(s, e, broken), o)
  {
    hide AtMostOne, AtLeastOne;
    match e {
      case Move(i, _) => Held(s.handles, i);
      case Drop(i) => Held(s.handles, i);
      case Set(i, _) => Held(s.handles, i);
      case _ =>
    }
  }

  /** Whether `e` uses the claim on a state that is held, and with what outcome: a handle that has it is set, or it is
      dropped or overwritten. */
  predicate Completes<V(==), E(==), C>(s: State<V, E, C>, e: Event<V, E, C>, o: Outcome<V, E>, broken: E) {
    && s.held
    && match e
       case Set(i, p) => i < |s.handles| && s.handles[i] && p == o
       case Drop(i) => i < |s.handles| && s.handles[i] && o == Failure(broken)
       case Move(i, j) => i < |s.handles| && s.handles[i] && i != j && o == Failure(broken)
       case _ => false
  }

  /** Whatever happens after a claim has been used, what is published is the outcome that it was used with. */
  lemma {:induction false} UseIsPublished<V, E, C>(es: seq<Event<V, E, C>>, e: Event<V, E, C>,
                                                   more: seq<Event<V, E, C>>, o: Outcome<V, E>, broken: E)
    requires After(es + [e] + more, broken).Some?
    requires After(es, broken).Some? && Completes(After(es, broken).value, e, o, broken)
    ensures var s := After(es + [e] + more, broken).value; Pledged(s, o) && (s.ready ==> s.result == Some(o))
    decreases |more|
  {
    hide OneClaim, Accounted, Next, Enabled, Pledged;
    var all := es + [e] + more;
    EveryRunKeepsFaith(all, broken);
    if more == [] {
      assert all == es + [e] && all[..|all| - 1] == es;
      UsePledges(After(es, broken).value, e, o, broken);
    } else {
      var less := more[..|more| - 1];
      assert all[..|all| - 1] == es + [e] + less;
      UseIsPublished(es, e, less, o, broken);
      EveryRunKeepsFaith(es + [e] + less, broken);
      PledgedStays(After(es + [e] + less, broken).value, more[|more| - 1], o, broken);
    }
    ReadyMeans(After(all, broken).value, o);
  }

  lemma UsePledges<V, E, C>(s: State<V, E, C>, e: Event<V, E, C>, o: Outcome<V, E>, broken: E)
    requires Enabled(s, e) && Completes(s, e, o, broken)
    ensures Pledged(Next(s, e, broken), o)
  {
  }

  lemma ReadyMeans<V, E, C>(s: State<V, E, C>, o: Outcome<V, E>)
    requires OneClaim(s) && Pledged(s, o)
    ensures s.ready ==> s.result == Some(o)
  {
  }

  // ---------------------------------------------------------------------------
  // The objects; every method of the state is one locked region, or one step of a thread outside the lock

  class SharedBase<V, E, C> {
    /** Whether a future still keeps the state alive: whether a weak pointer to it can be locked. */
    var held: bool
    var result: Option<Outcome<V, E>>
    var ready: bool
    var waiting: seq<C>
    ghost var completer: Completer<V, E, C>
    ghost var late: seq<C>
    ghost var inOrder: seq<C>
    ghost var submitted: seq<C>
    ghost var completions: nat

    constructor ()
      ensures held && Now([]) == Start<V, E, C>().(handles := [])
    {
      held, result, ready, waiting := true, None, false, [];
      completer, late, inOrder, submitted, completions := Nobody, [], [], [], 0;
    }

    /** The state, seen together with all handles there are. */
    ghost function Now(all: seq<Promise<V, E, C>>): State<V, E, C>
      reads this, all
    {
      var handles := seq(|all|, i requires 0 <= i < |all| reads all, this => all[i].p == this);
      State(handles, held, completer, result, ready, waiting, late, inOrder, submitted, completions)
    }

    /** A thread has locked its handle and goes on to complete the state. */
    ghost method Claim(o: Outcome<V, E>)
      modifies `completer, `completions
      ensures completer == Storing(o) && completions == old(completions) + 1
    {
      completer, completions := Storing(o), completions + 1;
    }

    method WriteResult(o: Outcome<V, E>, broken: E, ghost all: seq<Promise<V, E, C>>)
      requires completer == Storing(o)
      modifies `result, `completer
      ensures Now(all) == Next(old(Now(all)), Store, broken)
    {
      result := Some(o);
      completer := Stored;
    }

    /** The locked region of a completion; the continuations it returns are submitted outside the lock. */
    method Proceed(broken: E, ghost all: seq<Promise<V, E, C>>) returns (todo: seq<C>)
      requires completer.Stored?
      modifies `ready, `waiting, `completer
      ensures Now(all) == Next(old(Now(all)), Publish, broken) && completer == Delivering(todo)
    {
      ready := true;
      todo, waiting := waiting, [];
      completer := Delivering(todo);
    }

    /** The locked region of `recover` and `on_completion`; a caller who is told that the result is ready
        submits the continuation itself. */
    method AttachContinuation(c: C, broken: E, ghost all: seq<Promise<V, E, C>>) returns (isReady: bool)
      requires held
      modifies `waiting, `late
      ensures Now(all) == Next(old(Now(all)), Attach(c), broken) && isReady == ready
    {
      isReady := ready;
      if isReady { late := late + [c]; } else { waiting := waiting + [c]; }
    }
  }

  ghost predicate AllDistinct<V, E, C>(all: seq<Promise<V, E, C>>) {
    forall i: nat, j: nat | i < j < |all| :: all[i] != all[j]
  }

  /** A promise or a packaged task: a weak pointer to a shared state. */
  class Promise<V, E, C> {
    var p: SharedBase?<V, E, C>

    /** Move assignment.  `b` is any shared state, `all` are all the handles. */
    method Assign(x: Promise<V, E, C>, broken: E,
                  ghost all: seq<Promise<V, E, C>>, ghost i: nat, ghost j: nat, ghost b: SharedBase<V, E, C>)
      requires i < |all| && j < |all| && all[i] == this && all[j] == x && AllDistinct(all)
      modifies this, x, p
      ensures b.Now(all) == Next(old(b.Now(all)), Move(i, j), broken)
    {
      if this == x {
        assert i == j;
        return;
      }
      if p != null && p.held { p.Claim(Failure(broken)); }
      p := x.p;
      x.p := null;
    }

    /** `set_value`, `set_exception`, or a call by which a packaged task hands its claim on. */
    method SetOutcome(o: Outcome<V, E>, broken: E,
                      ghost all: seq<Promise<V, E, C>>, ghost i: nat, ghost b: SharedBase<V, E, C>)
      requires i < |all| && all[i] == this && AllDistinct(all)
      modifies this, p
      ensures b.Now(all) == Next(old(b.Now(all)), Set(i, o), broken)
    {
      if p != null && p.held {
        var locked := p;
        p := null;
        locked.Claim(o);
      }
    }

    /** The destructor. */
    method Destroy(broken: E, ghost all: seq<Promise<V, E, C>>, ghost i: nat, ghost b: SharedBase<V, E, C>)
      requires i < |all| && all[i] == this && AllDistinct(all)
      modifies this, p
      ensures b.Now(all) == Next(old(b.Now(all)), Event.Drop(i), broken)
    {
      if p != null && p.held { p.Claim(Failure(broken)); }
      p := null;
    }
  }
}
