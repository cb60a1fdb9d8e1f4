/** Waiting for a future with a timeout: either the waiter or the held continuation gets the outcome. */
module TimedWaits {
  import opened Basics

  /** The continuation on the awaited future. */
  datatype Continuation<V, E> =
    | Pending
    | Arrived(o: Outcome<V, E>)   // the future is complete, and the continuation is about to look for the waiter
    | Inside(o: Outcome<V, E>)    // it has found the waiter, and is about to take the lock
    | Done(o: Outcome<V, E>)      // its own future holds `o`

  datatype Waiter<V, E> =
    | Waiting
    | Woken(result: Option<Outcome<V, E>>)   // what `wait_for` brings back
    | Returned(result: Option<Outcome<V, E>>)

  datatype State<V, E> = State(
    continuation: Continuation<V, E>, waiter: Waiter<V, E>, timedOut: bool, result: Option<Outcome<V, E>>)

  datatype Event<V, E> =
    | Complete(o: Outcome<V, E>)
    | Find
    | Set
    | Wake        // the condition holds
    | TimeOut     // the time is up, whether or not the condition holds by then
    | Return

  function Start<V, E>(): State<V, E> {
    State(Pending, Waiting, false, None)
  }

  predicate Enabled<V, E>(s: State<V, E>, e: Event<V, E>) {
    match e
    case Complete(_) => s.continuation.Pending?
    case Find => s.continuation.Arrived?
    case Set => s.continuation.Inside?
    case Wake => s.waiter.Waiting? && s.result.Some?
    case TimeOut => s.waiter.Waiting?
    case Return => s.waiter.Woken?
  }

  /** `filler` is the failure that the continuation leaves behind when the waiter has the outcome. */
  function Next<V, E>(s: State<V, E>, e: Event<V, E>, filler: E): State<V, E>
    requires Enabled(s, e)
  {
    match e
    case Complete(o) => s.(continuation := Arrived(o))
    case Find =>
      var o := s.continuation.o;
      s.(continuation := if s.waiter.Returned? then Done(o) else Inside(o))
    case Set =>
      var o := s.continuation.o;
      if s.timedOut then s.(continuation := Done(o))
      else s.(result := Some(o), continuation := Done(Failure(filler)))
    case Wake => Woke(s)
    case TimeOut => Woke(s)
    case Return => s.(waiter := Returned(s.waiter.result))
  }

  /** The end of `wait_for`, still under the lock. */
  function Woke<V, E>(s: State<V, E>): State<V, E> {
    if s.result.Some? then s.(timedOut := false, waiter := Woken(s.result), result := None)
    else s.(timedOut := true, waiter := Woken(None))
  }

  function After<V, E>(es: seq<Event<V, E>>, filler: E): Option<State<V, E>> {
    if es == [] then Some(Start()) else
      var s, e := After(es[..|es| - 1], filler), es[|es| - 1];
      if s.Some? && Enabled(s.value, e) then Some(Next(s.value, e, filler)) else None
  }

  /** The outcome with which the awaited future was completed in a run. */
  function Completion<V, E>(es: seq<Event<V, E>>): Option<Outcome<V, E>> {
    if es == [] then None else
      var e := es[|es| - 1];
      if e.Complete? then Some(e.o) else Completion(es[..|es| - 1])
  }

  /** What the waiter has, while or after it returns. */
  function Got<V, E>(s: State<V, E>): Option<Outcome<V, E>> {
    if s.waiter.Waiting? then s.result else s.waiter.result
  }

  ghost predicate Fair<V, E>(s: State<V, E>, completion: Option<Outcome<V, E>>, filler: E) {
    && (s.continuation.Pending? <==> completion.None?)
    && (s.continuation.Arrived? || s.continuation.Inside? ==>
          completion == Some(s.continuation.o) && Got(s) == None)
    && (Got(s).Some? ==> Got(s) == completion && s.continuation == Done(Failure(filler)))
    && (Got(s).None? && s.continuation.Done? ==> completion == Some(s.continuation.o) && !s.waiter.Waiting?)
    && (s.timedOut <==> !s.waiter.Waiting? && s.waiter.result.None?)
  }

  lemma {:induction false} EveryRunIsFair<V, E>(es: seq<Event<V, E>>, filler: E)
    requires After(es, filler).Some?
    ensures Fair(After(es, filler).value, Completion(es), filler)
    decreases |es|
  {
    if es != [] {
      EveryRunIsFair(es[..|es| - 1], filler);
      FairStays(After(es[..|es| - 1], filler).value, Completion(es[..|es| - 1]), es[|es| - 1], filler);
    }
  }

  lemma FairStays<V, E>(s: State<V, E>, completion: Option<Outcome<V, E>>, e: Event<V, E>, filler: E)
    requires Enabled(s, e) && Fair(s, completion, filler)
    ensures Fair(Next(s, e, filler), if e.Complete? then Some(e.o) else completion, filler)
  {
  }

  /** Once the wait has returned and the continuation has run, exactly one of them has the outcome of the awaited
      future, and it is the one that `await_for` returns: the result if it is valid, or else the held future. */
  lemma OneHasTheOutcome<V, E>(es: seq<Event<V, E>>, filler: E)
    requires After(es, filler).Some?
    requires var s := After(es, filler).value; s.waiter.Returned? && s.continuation.Done?
    ensures var s := After(es, filler).value;
      var returned := if s.waiter.result.Some? then s.waiter.result else Some(s.continuation.o);
      && returned.Some? && returned == Completion(es)
      && (s.waiter.result.Some? ==> s.continuation.o == Failure(filler))
      && s.result.None?
  {
    EveryRunIsFair(es, filler);
    NothingLeft(es, filler);
  }

  /** A result is stored only while someone waits for it. */
  lemma {:induction false} NothingLeft<V, E>(es: seq<Event<V, E>>, filler: E)
    requires After(es, filler).Some?
    ensures var s := After(es, filler).value; s.result.Some? ==> s.waiter.Waiting?
    decreases |es|
  {
    if es != [] {
      NothingLeft(es[..|es| - 1], filler);
      EveryRunIsFair(es[..|es| - 1], filler);
    }
  }

  /** How many more events there can be. */
  function Steps<V, E>(s: State<V, E>): nat {
    (match s.continuation case Pending => 3 case Arrived(_) => 2 case Inside(_) => 1 case Done(_) => 0)
    + (match s.waiter case Waiting => 2 case Woken(_) => 1 case Returned(_) => 0)
  }

  lemma {:induction false} RunsAreShort<V, E>(es: seq<Event<V, E>>, filler: E)
    requires After(es, filler).Some?
    ensures |es| + Steps(After(es, filler).value) <= 5
    decreases |es|
  {
    if es != [] { RunsAreShort(es[..|es| - 1], filler); }
  }

  predicate Over<V, E>(s: State<V, E>) {
    s.waiter.Returned? && s.continuation.Done?
  }

  lemma SomeStep<V, E>(s: State<V, E>, o: Outcome<V, E>, completion: Option<Outcome<V, E>>, filler: E)
    returns (e: Event<V, E>)
    requires !Over(s) && Fair(s, completion, filler)
    ensures Enabled(s, e) && !e.TimeOut? && (e.Complete? ==> s.continuation.Pending? && e.o == o)
  {
    e := match s.continuation
         case Pending => Complete(o)
         case Arrived(_) => Find
         case Inside(_) => Set
         case Done(_) => if s.waiter.Waiting? then Wake else Return;
  }

  /** Neither side can be stuck, even if the time is never up: once the future is complete the continuation can run, and
      the wait returns; a future that is not may become so at any time, with any outcome `o`. */
  lemma {:induction false} AlwaysReturns<V, E>(es: seq<Event<V, E>>, o: Outcome<V, E>, filler: E)
    returns (more: seq<Event<V, E>>)
    requires After(es, filler).Some?
    ensures After(es + more, filler).Some? && Over(After(es + more, filler).value)
    ensures forall i | 0 <= i < |more| :: !more[i].TimeOut?
    ensures Completion(es + more) == if Completion(es).Some? then Completion(es) else Some(o)
    decreases if |es| <= 5 then 5 - |es| else 0
  {
    hide Over, Enabled, Next, Fair, After, Completion, Steps;
    RunsAreShort(es, filler);
    EveryRunIsFair(es, filler);
    var s := After(es, filler).value;
    if Over(s) {
      more := [];
      assert es + more == es;
      OverIsComplete(es, filler);
    } else {
      var e := SomeStep(s, o, Completion(es), filler);
      OneMore(es, e, filler);
      RunsAreShort(es + [e], filler);
      PendingIsOpen(es, filler);
      var rest := AlwaysReturns(es + [e], o, filler);
      more := [e] + rest;
      assert es + more == es + [e] + rest;
    }
  }

  lemma OneMore<V, E>(es: seq<Event<V, E>>, e: Event<V, E>, filler: E)
    requires After(es, filler).Some? && Enabled(After(es, filler).value, e)
    ensures After(es + [e], filler).Some?
    ensures Completion(es + [e]) == if e.Complete? then Some(e.o) else Completion(es)
  {
    assert (es + [e])[..|es|] == es;
  }

  lemma OverIsComplete<V, E>(es: seq<Event<V, E>>, filler: E)
    requires After(es, filler).Some? && Over(After(es, filler).value)
    ensures Completion(es).Some?
  {
    EveryRunIsFair(es, filler);
  }

  lemma PendingIsOpen<V, E>(es: seq<Event<V, E>>, filler: E)
    requires After(es, filler).Some?
    ensures After(es, filler).value.continuation.Pending? ==> Completion(es).None?
  {
    EveryRunIsFair(es, filler);
  }

  /** A result that is there when the wait ends is what it brings back, even if the time is up. */
  lemma StoredIsTaken<V, E>(es: seq<Event<V, E>>, e: Event<V, E>, filler: E)
    requires After(es, filler).Some? && Enabled(After(es, filler).value, e) && (e.Wake? || e.TimeOut?)
    ensures var s, t := After(es, filler).value, Next(After(es, filler).value, e, filler);
      && t.waiter.Woken? && t.waiter.result == s.result && t.continuation == s.continuation
      && (t.waiter.result.Some? <==> Completion(es).Some? && s.continuation == Done(Failure(filler)) && s.result.Some?)
  {
    EveryRunIsFair(es, filler);
  }

  /** What is shared between the waiter and the continuation; both methods are one locked region. */
  class BlockingGetGuarded<V, E> {
    var timedOut: bool
    var result: Option<Outcome<V, E>>

    constructor ()
      ensures !timedOut && result == None
    {
      timedOut, result := false, None;
    }

    /** What the future of the continuation is to hold. */
    method SetResult(o: Outcome<V, E>, filler: E, ghost s: State<V, E>) returns (rest: Outcome<V, E>)
      requires s.continuation == Inside(o) && s.timedOut == timedOut && s.result == result
      modifies this
      ensures var t := Next(s, Set, filler);
        t.timedOut == timedOut && t.result == result && t.continuation == Done(rest)
    {
      if timedOut { return o; }
      result := Some(o);
      rest := Failure(filler);
    }

    method WaitFor(ghost s: State<V, E>) returns (got: Option<Outcome<V, E>>)
      requires s.waiter.Waiting? && s.timedOut == timedOut && s.result == result
      modifies this
      ensures var t := Woke(s);
        t.timedOut == timedOut && t.result == result && t.waiter == Woken(got)
    {
      timedOut := result.None?;
      if timedOut { return None; }
      got, result := result, None;
    }
  }
}
