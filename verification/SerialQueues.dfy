/** The serial queue: tasks run one at a time, in the order they were enqueued, on an executor that
    promises neither.

    A state is what the mutex protects together with the threads that are between two locked regions;
    an event is one locked region, or one step outside the lock.  A run is any interleaving of events.
  */
module SerialQueues {
  import opened Basics

  datatype Mode = Single | All

  /** A thread that holds the right to drain. */
  datatype Drain<T> =
    | Kicking                          // about to hand a drain task to the executor
    | Waiting                          // the drain task is with the executor
    | Holding(local: seq<T>)           // draining; these tasks have left the queue
    | Running(task: T, local: seq<T>)  // inside a task

  datatype State<T> = State(running: bool, queue: seq<T>, drains: seq<Drain<T>>, executed: seq<T>)

  datatype Event<T> = Enqueue(task: T) | Submit(i: nat) | Take(i: nat) | Call(i: nat) | Return(i: nat) | Check(i: nat)

  function Start<T>(): State<T> {
    State(false, [], [], [])
  }

  predicate Enabled<T>(s: State<T>, e: Event<T>) {
    match e
    case Enqueue(_) => true
    case Submit(i) => i < |s.drains| && s.drains[i].Kicking?
    case Take(i) => i < |s.drains| && s.drains[i].Waiting?
    case Call(i) => i < |s.drains| && s.drains[i].Holding? && s.drains[i].local != []
    case Return(i) => i < |s.drains| && s.drains[i].Running?
    case Check(i) => i < |s.drains| && s.drains[i].Holding? && s.drains[i].local == []
  }

  /** How many tasks a drain takes under the lock. */
  function Batch<T>(mode: Mode, queue: seq<T>): (n: nat)
    ensures n <= |queue|
  {
    if mode.All? then |queue| else if queue == [] then 0 else 1
  }

  function Next<T>(mode: Mode, s: State<T>, e: Event<T>): State<T>
    requires Enabled(s, e)
  {
    match e
    case Enqueue(f) =>
      s.(queue := s.queue + [f], running := true,
         drains := if s.running then s.drains else s.drains + [Kicking])
    case Submit(i) => s.(drains := s.drains[i := Waiting])
    case Take(i) =>
      var n := Batch(mode, s.queue);
      s.(queue := s.queue[n..], drains := s.drains[i := Holding(s.queue[..n])])
    case Call(i) =>
      var l := s.drains[i].local;
      s.(drains := s.drains[i := Running(l[0], l[1..])])
    case Return(i) =>
      s.(executed := s.executed + [s.drains[i].task], drains := s.drains[i := Holding(s.drains[i].local)])
    case Check(i) =>
      if s.queue == [] then s.(running := false, drains := s.drains[..i] + s.drains[i + 1..])
      else s.(drains := s.drains[i := Kicking])
  }

  /** Where a run leads, if every one of its events can happen in its turn. */
  function After<T>(mode: Mode, es: seq<Event<T>>): Option<State<T>> {
    if es == [] then Some(Start()) else
      var s := After(mode, es[..|es| - 1]);
      var e := es[|es| - 1];
      if s.Some? && Enabled(s.value, e) then Some(Next(mode, s.value, e)) else None
  }

  /** The tasks enqueued in a run, in order. */
  function Enqueued<T>(es: seq<Event<T>>): seq<T> {
    if es == [] then [] else
      var e := es[|es| - 1];
      Enqueued(es[..|es| - 1]) + if e.Enqueue? then [e.task] else []
  }

  /** The tasks that have left the queue and have not come back from running. */
  function Held<T>(d: Drain<T>): seq<T> {
    match d
    case Holding(local) => local
    case Running(f, local) => [f] + local
    case _ => []
  }

  function InFlight<T>(s: State<T>): seq<T> {
    if |s.drains| == 1 then Held(s.drains[0]) else []
  }

  /** The right to drain exists once, exactly while `running` is set; what waits has someone to run it. */
  ghost predicate OneDrain<T>(s: State<T>) {
    && |s.drains| == (if s.running then 1 else 0)
    && (s.queue != [] ==> s.running)
    && (s.drains != [] && (s.drains[0].Kicking? || s.drains[0].Waiting?) ==> s.queue != [])
  }

  lemma OneDrainStays<T>(mode: Mode, s: State<T>, e: Event<T>)
    requires OneDrain(s) && Enabled(s, e)
    ensures OneDrain(Next(mode, s, e))
  {
  }

  lemma OrderStays<T>(mode: Mode, s: State<T>, e: Event<T>)
    requires OneDrain(s) && Enabled(s, e)
    ensures var s' := Next(mode, s, e);
      s'.executed + InFlight(s') + s'.queue
      == s.executed + InFlight(s) + s.queue + if e.Enqueue? then [e.task] else []
  {
  }

  /** In every run nothing is lost, repeated or reordered, and at most one task is inside its call. */
  lemma {:induction false} EveryRunIsSerial<T>(mode: Mode, es: seq<Event<T>>)
    requires After(mode, es).Some?
    ensures var s := After(mode, es).value;
      && OneDrain(s)
      && s.executed + InFlight(s) + s.queue == Enqueued(es)
    decreases |es|
  {
    if es != [] {
      var before := es[..|es| - 1];
      EveryRunIsSerial(mode, before);
      var s, e := After(mode, before).value, es[|es| - 1];
      OneDrainStays(mode, s, e);
      OrderStays(mode, s, e);
    }
  }

  /** What `single` pops is there: the queue is not empty when its drain task comes to run. */
  lemma SingleNeverPopsEmpty<T>(es: seq<Event<T>>, i: nat)
    requires After(Single, es).Some? && Enabled(After(Single, es).value, Take(i))
    ensures var s := After(Single, es).value;
      s.queue != [] && Next(Single, s, Take(i)).drains[i] == Holding([s.queue[0]])
  {
    EveryRunIsSerial(Single, es);
  }

  // ---------------------------------------------------------------------------
  // No lost wakeup

  function Work<T>(s: State<T>): nat {
    5 * |s.queue| + if |s.drains| != 1 then 0 else Effort(s.drains[0])
  }

  function Effort<T>(d: Drain<T>): nat {
    match d
    case Kicking => 1
    case Waiting => 0
    case Holding(local) => 2 + 2 * |local|
    case Running(_, local) => 3 + 2 * |local|
  }

  /** While there is a drain, it can take a step of its own; each such step brings the end nearer. */
  lemma DrainsProgress<T>(mode: Mode, s: State<T>, e: Event<T>)
    requires OneDrain(s)
    ensures Enabled(s, e) && !e.Enqueue? ==> Work(Next(mode, s, e)) < Work(s)
    ensures s.drains != [] ==>
      Enabled<T>(s, Submit(0)) || Enabled<T>(s, Take(0)) || Enabled<T>(s, Call(0)) || Enabled<T>(s, Return(0))
      || Enabled<T>(s, Check(0))
  {
  }

  /** Once no more tasks come, only so many steps remain, and when none is left every task enqueued has run,
      in the order of enqueuing; in this the two modes do not differ. */
  lemma {:induction false} EveryTaskRuns<T>(mode: Mode, es: seq<Event<T>>, more: seq<Event<T>>)
    requires After(mode, es + more).Some? && forall e | e in more :: !e.Enqueue?
    ensures After(mode, es).Some? && |more| + Work(After(mode, es + more).value) <= Work(After(mode, es).value)
    ensures var s := After(mode, es + more).value;
      s.drains == [] ==> s.executed == Enqueued(es) && s.queue == []
    decreases |more|
  {
    EveryRunIsSerial(mode, es + more);
    EnqueuedBefore(es, more);
    if more == [] {
      assert es + more == es;
    } else {
      var less := more[..|more| - 1];
      assert (es + more)[..|es + more| - 1] == es + less;
      EveryTaskRuns(mode, es, less);
      EveryRunIsSerial(mode, es + less);
      DrainsProgress(mode, After(mode, es + less).value, more[|more| - 1]);
    }
  }

  lemma {:induction false} EnqueuedBefore<T>(es: seq<Event<T>>, more: seq<Event<T>>)
    requires forall e | e in more :: !e.Enqueue?
    ensures Enqueued(es + more) == Enqueued(es)
    decreases |more|
  {
    if more == [] {
      assert es + more == es;
    } else {
      assert (es + more)[..|es + more| - 1] == es + more[..|more| - 1];
      EnqueuedBefore(es, more[..|more| - 1]);
    }
  }

  /** From every state the drains can go on until everything enqueued has run. */
  lemma {:induction false} CanRunAll<T>(mode: Mode, es: seq<Event<T>>) returns (more: seq<Event<T>>)
    requires After(mode, es).Some?
    ensures After(mode, es + more).Some? && forall e | e in more :: !e.Enqueue?
    ensures var s := After(mode, es + more).value; s.drains == [] && s.executed == Enqueued(es) && s.queue == []
    decreases Work(After(mode, es).value)
  {
    hide Enabled, Next, Work;
    var s := After(mode, es).value;
    EveryRunIsSerial(mode, es);
    if s.drains == [] {
      more := [];
      assert es + more == es;
      EveryTaskRuns(mode, es, more);
    } else {
      DrainsProgress(mode, s, Submit(0));
      var e: Event<T> :=
        if Enabled<T>(s, Submit(0)) then Submit(0)
        else if Enabled<T>(s, Take(0)) then Take(0)
        else if Enabled<T>(s, Call(0)) then Call(0)
        else if Enabled<T>(s, Return(0)) then Return(0)
        else Check(0);
      DrainsProgress(mode, s, e);
      assert (es + [e])[..|es|] == es;
      var rest := CanRunAll(mode, es + [e]);
      more := [e] + rest;
      assert es + more == es + [e] + rest;
      EveryTaskRuns(mode, es, more);
    }
  }

  /** Whoever enqueues never has to wait, and what is enqueued is last in the order. */
  lemma EnqueueNeverWaits<T>(mode: Mode, es: seq<Event<T>>, task: T)
    requires After(mode, es).Some?
    ensures After(mode, es + [Enqueue(task)]).Some? && Enqueued(es + [Enqueue(task)]) == Enqueued(es) + [task]
  {
    assert (es + [Enqueue(task)])[..|es|] == es;
  }

  /** `all` takes everything that is in the queue, `single` one task, which is there. */
  lemma TakesItsBatch<T>(mode: Mode, es: seq<Event<T>>, i: nat)
    requires After(mode, es).Some? && Enabled(After(mode, es).value, Take(i))
    ensures var s, t := After(mode, es).value, Next(mode, After(mode, es).value, Take(i));
      && s.queue != [] && t.drains[i] == Holding(if mode.All? then s.queue else [s.queue[0]])
      && t.queue == if mode.All? then [] else s.queue[1..]
  {
    EveryRunIsSerial(mode, es);
  }

  // ---------------------------------------------------------------------------
  // The queue itself; every method is one locked region, or one step of a thread outside the lock

  class SerialInstance<T> {
    const mode: Mode
    var running: bool
    var queue: seq<T>
    /** The threads between the locked regions. */
    ghost var drains: seq<Drain<T>>
    ghost var executed: seq<T>

    ghost function Now(): State<T>
      reads this
    {
      State(running, queue, drains, executed)
    }

    ghost predicate Valid()
      reads this
    {
      OneDrain(Now())
    }

    constructor (mode: Mode)
      ensures Valid() && Now() == Start() && this.mode == mode
    {
      this.mode := mode;
      running, queue, drains, executed := false, [], [], [];
    }

    /** The locked region of `enqueue`; a caller that finds the queue idle goes on to kick it. */
    method Append(f: T) returns (wasRunning: bool)
      requires Valid()
      modifies this
      ensures Valid() && Now() == Next(mode, old(Now()), Enqueue(f))
      ensures wasRunning == old(running)
    {
      wasRunning := true;
      queue := queue + [f];
      wasRunning, running := running, wasRunning;
      if !wasRunning { drains := drains + [Kicking]; }
    }

    ghost method Kick(i: nat)
      requires Valid() && Enabled(Now(), Submit(i))
      modifies `drains
      ensures Valid() && Now() == Next(mode, old(Now()), Submit(i))
    {
      drains := drains[i := Waiting];
    }

    /** The locked region that `all` begins with. */
    method SwapQueue(ghost i: nat) returns (local: seq<T>)
      requires Valid() && Enabled(Now(), Take(i)) && mode.All?
      modifies this
      ensures Valid() && Now() == Next(mode, old(Now()), Take(i)) && drains[i] == Holding(local)
    {
      local := [];
      assert queue[|queue|..] == [] && queue[..|queue|] == queue;
      local, queue := queue, local;
      drains := drains[i := Holding(local)];
    }

    /** The locked region that `single` begins with; it does not look whether there is a task to pop. */
    method PopTask(ghost i: nat) returns (f: T)
      requires Valid() && Enabled(Now(), Take(i)) && mode.Single?
      modifies this
      ensures Valid() && Now() == Next(mode, old(Now()), Take(i)) && drains[i] == Holding([f])
    {
      assert queue[..1] == [queue[0]];
      f, queue := PopFront(queue);
      drains := drains[i := Holding([f])];
    }

    /** One task of the batch is popped and entered; the queue itself is not touched. */
    method Enter(local: seq<T>, ghost i: nat) returns (f: T, rest: seq<T>)
      requires Valid() && Enabled(Now(), Call(i)) && drains[i].local == local
      modifies `drains
      ensures Valid() && Now() == Next(mode, old(Now()), Call(i)) && drains[i] == Running(f, rest)
    {
      f, rest := PopFront(local);
      drains := drains[i := Running(f, rest)];
    }

    ghost method Leave(i: nat)
      requires Valid() && Enabled(Now(), Return(i))
      modifies `drains, `executed
      ensures Valid() && Now() == Next(mode, old(Now()), Return(i))
    {
      executed := executed + [drains[i].task];
      drains := drains[i := Holding(drains[i].local)];
    }

    /** `empty`: a drain that finds nothing gives up the right to drain before it lets go of the lock. */
    method FindEmpty(ghost i: nat) returns (empty: bool)
      requires Valid() && Enabled(Now(), Check(i))
      modifies this
      ensures Valid() && Now() == Next(mode, old(Now()), Check(i))
      ensures empty <==> |drains| < old(|drains|)
    {
      empty := queue == [];
      if empty {
        running := false;
        drains := drains[..i] + drains[i + 1..];
      } else {
        drains := drains[i := Kicking];
      }
    }
  }

  method PopFront<T>(q: seq<T>) returns (f: T, rest: seq<T>)
    requires q != []
    ensures q == [f] + rest
  {
    f, rest := q[0], q[1..];
  }
}
