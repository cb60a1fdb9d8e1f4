/** One process of a channel: what its mutex protects, and what each locked region does to it.

    The process is a functor, every receiver is ready, and the buffer size is 1.
  */
module Processes {
  import opened Basics
  import opened MergeQueues

  datatype Core<M> = Core(
    queue: Merge<M>,   // the messages that have arrived
    running: bool,
    suspended: nat,    // how many more clear-to-sends it waits for
    closing: bool,     // all senders are gone, and the process has not noticed yet
    final: bool,
    senders: nat)

  const BUFFER_SIZE := 1

  function NewProcess<M>(kind: Kind, n: nat): Core<M>
    requires 0 < n
  {
    Core(NoMessages(kind, n), false, 0, false, false, n)
  }

  predicate Sane<M>(c: Core<M>) {
    Proper(c.queue)
  }

  /** Whether a process that is not running would have something to do. */
  predicate HasWork<M>(c: Core<M>)
    requires Sane(c)
  {
    !Empty(c.queue) || c.closing
  }

  /** `enqueue`: a message arrives in queue `i`; an idle process starts to run. */
  function Enqueued<M>(c: Core<M>, i: nat, m: M): Core<M>
    requires Sane(c) && i < |c.queue.queues|
  {
    c.(queue := Appended(c.queue, i, m), running := true)
  }

  /** `remove_sender`: the last one closes the queue. */
  function SenderRemoved<M>(c: Core<M>): Core<M>
    requires 0 < c.senders
  {
    if c.senders == 1 then c.(senders := 0, closing := true, running := true) else c.(senders := c.senders - 1)
  }

  /** `pop_from_queue`: a message, or else the news that the queue is closed. */
  function PoppedFrom<M>(c: Core<M>): Core<M>
    requires Sane(c)
  {
    if Empty(c.queue) then c.(closing := false, final := c.closing) else c.(queue := Popped(c.queue))
  }

  function Message<M>(c: Core<M>): Option<seq<M>>
    requires Sane(c)
  {
    if Empty(c.queue) then None else Some(Front(c.queue))
  }

  /** Whether the upstream process of queue `i` is told after a pop that it may send again. */
  predicate Clears<M>(c: Core<M>, i: nat)
    requires Sane(c) && i < |c.queue.queues|
  {
    !Empty(c.queue) && Room(Size(Popped(c.queue), i))
  }

  predicate Room(size: Option<nat>) {
    size.Some? && size.value <= BUFFER_SIZE - 1
  }

  /** Those that are told are those whose message was taken, and who have no other waiting. */
  lemma ClearsWhatItTook<M>(c: Core<M>, i: nat)
    requires Sane(c) && i < |c.queue.queues| && !Empty(c.queue)
    ensures Clears(c, i) <==> Taps(c.queue, i) && c.queue.queues[i] != [] && c.queue.queues[i][1..] == []
  {
  }

  /** `task_done`: the step found no message. */
  function TaskDone<M>(c: Core<M>): Core<M>
    requires Sane(c)
  {
    c.(running := HasWork(c))
  }

  /** `clear_to_send`; a final process ignores it. */
  function Cleared<M>(c: Core<M>): Core<M>
    requires Sane(c)
  {
    if c.final then c else
      var left := if c.suspended > 0 then c.suspended - 1 else 0;
      if left == 0 && !HasWork(c) then c.(suspended := 0, running := false) else c.(suspended := left)
  }

  /** Whether this clear-to-send lets the process run on. */
  predicate Resumes<M>(c: Core<M>)
    requires Sane(c)
  {
    !c.final && c.suspended <= 1 && HasWork(c)
  }

  /** The part of `broadcast` under the process mutex.  Short of room, the process suspends for the `n` receivers and
      itself, so that it does not run on while it is still broadcasting. */
  function Suspended<M>(c: Core<M>, n: nat, minimumFree: nat): Core<M> {
    c.(suspended := if minimumFree <= 1 then n + 1 else 1)
  }

  const SIZE_MAX: nat := 0xFFFF_FFFF_FFFF_FFFF

  /** How much room a queue has left, subtracted as a `size_t`. */
  function FreeBuffer<M>(queue: seq<M>): nat {
    (BUFFER_SIZE - |queue|) % (SIZE_MAX + 1)
  }

  /** The least room of all downstream queues; without any there is none. */
  function MinimumFree<M>(queues: seq<seq<M>>): nat {
    if queues == [] then 0 else LeastFree(queues)
  }

  function LeastFree<M>(queues: seq<seq<M>>): nat {
    if queues == [] then SIZE_MAX else
      var least, free := LeastFree(queues[..|queues| - 1]), FreeBuffer(queues[|queues| - 1]);
      if free < least then free else least
  }

  /** With a buffer of 1 a broadcast suspends the process unless every downstream queue has two messages or more:
      the room of such a queue wraps around to nearly all there is. */
  lemma SuspendsExactly<M>(c: Core<M>, queues: seq<seq<M>>)
    requires forall q | q in queues :: |q| <= SIZE_MAX
    ensures MinimumFree(queues) <= 1 <==> queues == [] || exists q | q in queues :: |q| <= 1
    ensures Suspended(c, |queues|, MinimumFree(queues)).suspended
      == if forall q | q in queues :: |q| > 1 then 1 else |queues| + 1
  {
    LeastIsShort(queues);
  }

  lemma {:induction false} LeastIsShort<M>(queues: seq<seq<M>>)
    requires forall q | q in queues :: |q| <= SIZE_MAX
    ensures LeastFree(queues) <= 1 <==> exists q | q in queues :: |q| <= 1
  {
    if queues != [] {
      var before, last := queues[..|queues| - 1], queues[|queues| - 1];
      assert queues == before + [last];
      LeastIsShort(before);
      RoomWraps(last);
    }
  }

  lemma RoomWraps<M>(queue: seq<M>)
    requires |queue| <= SIZE_MAX
    ensures FreeBuffer(queue) == if |queue| <= 1 then 1 - |queue| else SIZE_MAX + 2 - |queue|
    ensures FreeBuffer(queue) <= 1 <==> |queue| <= 1
  {
  }

  // ---------------------------------------------------------------------------
  // The process itself; every method is one locked region

  class SharedProcess<M> {
    const inbox: MergeQueue<M>
    var running: bool
    var suspendCount: nat
    var closeQueue: bool
    var final: bool
    var senderCount: nat

    ghost function Now(): Core<M>
      reads this, inbox
    {
      Core(inbox.Now(), running, suspendCount, closeQueue, final, senderCount)
    }

    ghost predicate Valid()
      reads this, inbox
    {
      inbox.Valid()
    }

    constructor (kind: Kind, n: nat)
      requires 0 < n
      ensures Valid() && fresh(inbox) && Now() == NewProcess<M>(kind, n)
    {
      inbox := new MergeQueue(kind, n);
      running, suspendCount, closeQueue, final, senderCount := false, 0, false, false, n;
    }

    method Enqueue(i: nat, m: M) returns (doRun: bool)
      requires Valid() && i < |inbox.queues|
      modifies this, inbox
      ensures Valid() && Now() == Enqueued(old(Now()), i, m) && doRun == !old(running)
    {
      inbox.Append(i, m);
      doRun := !running;
      running := running || doRun;
    }

    method RemoveSender() returns (doRun: bool)
      requires Valid() && 0 < senderCount
      modifies this
      ensures Valid() && Now() == SenderRemoved(old(Now())) && doRun == (old(senderCount) == 1 && !old(running))
    {
      doRun := false;
      senderCount := senderCount - 1;
      if senderCount == 0 {
        closeQueue := true;
        doRun := !running;
        running := running || doRun;
      }
    }

    method PopFromQueue() returns (message: Option<seq<M>>, doClear: seq<bool>, doClose: bool)
      requires Valid()
      modifies this, inbox
      ensures Valid() && Now() == PoppedFrom(old(Now())) && message == Message(old(Now()))
      ensures |doClear| == |inbox.queues| == old(|inbox.queues|)
      ensures forall i: nat | i < |doClear| :: doClear[i] <==> Clears(old(Now()), i)
      ensures doClose == (message.None? && old(closeQueue))
    {
      hide Empty, Taps, Front, Popped;
      doClose := false;
      doClear := seq(|inbox.queues|, i => false);
      var empty := inbox.IsEmpty();
      if empty {
        doClose, closeQueue := closeQueue, doClose;
        final := doClose;
        message := None;
      } else {
        var front := inbox.FrontAndPop();
        message := Some(front);
        var sizes := inbox.Sizes();
        doClear := seq(|sizes|, i requires 0 <= i < |sizes| => Room(sizes[i]));
      }
    }

    method FinishTask() returns (doRun: bool, doFinal: bool)
      requires Valid()
      modifies this
      ensures Valid() && Now() == TaskDone(old(Now())) && doRun == HasWork(old(Now())) && doFinal == old(final)
    {
      var empty := inbox.IsEmpty();
      doRun := !empty || closeQueue;
      running := doRun;
      doFinal := final;
    }

    method ClearToSend() returns (doRun: bool)
      requires Valid()
      modifies this
      ensures Valid() && Now() == Cleared(old(Now())) && doRun == Resumes(old(Now()))
    {
      if final { return false; }
      doRun := false;
      if suspendCount > 0 { suspendCount := suspendCount - 1; }
      if suspendCount == 0 {
        var empty := inbox.IsEmpty();
        if !empty || closeQueue {
          doRun := true;
        } else {
          running := false;
        }
      }
    }

    /** The first part of `broadcast`: `n` downstream queues, and the least room in them. */
    method Suspend(n: nat, minimumFree: nat)
      requires Valid()
      modifies `suspendCount
      ensures Valid() && Now() == Suspended(old(Now()), n, minimumFree)
    {
      var suspendProcess := minimumFree <= 1;
      if suspendProcess {
        suspendCount := n + 1;
      } else {
        suspendCount := 1;
      }
    }
  }
}
