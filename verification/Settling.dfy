/** A net of channels that nothing is put into any more, nor taken away from, comes to rest: whatever order its
    processes act in, there is a bound on how often they do. */
module Settling {
  import opened Basics
  import MQ = MergeQueues
  import opened Processes
  import opened Channels
  import opened Flows

  /** Events that do not come from outside. */
  predicate Inside<M>(e: Event<M>) {
    !e.Put? && !e.Close?
  }

  // ---------------------------------------------------------------------------
  // A weight that every such event lowers

  /** What one message in a queue of `p` may still set off, or the news that its queues are closed.  It is never less
      than that of a process further downstream. */
  ghost function Worth<M>(net: Net<M>, p: nat): nat
    decreases if p < |net.feeders| then |net.feeders| - p else 0
  {
    if p < |net.feeders| then
      var further := Worth(net, p + 1);
      further + 2 * |net.feeders[p]| + 3 + Each(|net.Down(p)|, further)
    else 0
  }

  /** To hand `n` downstream queues a message, or the news that it was the last one. */
  function Each(n: nat, worth: nat): nat {
    n * (worth + 4)
  }

  function Times(n: nat, worth: nat): nat {
    n * worth
  }

  function Count<M>(queues: seq<seq<M>>): nat {
    if queues == [] then 0 else Count(queues[..|queues| - 1]) + |queues[|queues| - 1]|
  }

  /** A step scheduled, which may turn out to find nothing to do, or being executed. */
  function StepEffort<M>(pr: Proc<M>, d: nat, further: nat): nat
    requires Sane(pr.core)
  {
    (if pr.runs == 0 then 0 else if HasWork(pr.core) then 1 else 3)
    + if pr.acts == [] then 0 else ActEffort(pr.acts[0], d, further)
  }

  function ActEffort<M>(a: Act<M>, d: nat, further: nat): nat {
    match a
    case Stepping(toClear, message) => 2 * |toClear| + if message.Some? then 3 + Each(d, further) else 2
    case Sending(_, unsent) => 2 + Each(|unsent|, further)
  }

  /** The end of a process: noticed, about to be passed on, or being passed on. */
  function EndEffort<M>(pr: Proc<M>, worth: nat, d: nat, further: nat): nat {
    (if pr.core.closing then worth else 0)
    + (if pr.core.final && !pr.done then Each(d, further) else 0)
    + Each(|pr.dropping|, further)
  }

  /** What a process with `d` downstream queues may still do. */
  function Effort<M>(pr: Proc<M>, worth: nat, d: nat, further: nat): nat
    requires Sane(pr.core)
  {
    Times(Count(pr.core.queue.queues), worth) + StepEffort(pr, d, further) + EndEffort(pr, worth, d, further)
  }

  ghost function EffortAt<M>(net: Net<M>, s: State<M>, p: nat): nat
    requires Shaped(net, s) && p < |s.procs|
  {
    Effort(s.procs[p], Worth(net, p), |net.Down(p)|, Worth(net, p + 1))
  }

  /** What the first `k` processes may still do. */
  ghost function Efforts<M>(net: Net<M>, s: State<M>, k: nat): nat
    requires Shaped(net, s) && k <= |s.procs|
  {
    if k == 0 then 0 else Efforts(net, s, k - 1) + EffortAt(net, s, k - 1)
  }

  ghost function Total<M>(net: Net<M>, s: State<M>): nat
    requires Shaped(net, s)
  {
    Efforts(net, s, |s.procs|)
  }

  lemma OneLess(n: nat, worth: nat)
    requires 0 < n
    ensures Each(n, worth) == Each(n - 1, worth) + worth + 4
  {
  }

  lemma OneMore(n: nat, worth: nat)
    ensures Times(n + 1, worth) == Times(n, worth) + worth
  {
  }

  lemma {:induction false} Fewer(n: nat, m: nat, worth: nat)
    requires n < m
    ensures Times(n, worth) + worth <= Times(m, worth)
  {
    hide Times;
    OneMore(m - 1, worth);
    if n < m - 1 { Fewer(n, m - 1, worth); }
  }

  lemma {:induction false} WorthFurther<M>(net: Net<M>, p: nat, q: nat)
    requires p <= q
    ensures Worth(net, q) <= Worth(net, p)
    decreases q - p
  {
    if p < q { WorthFurther(net, p + 1, q); }
  }

  lemma WorthIs<M>(net: Net<M>, p: nat)
    requires p < |net.feeders|
    ensures Worth(net, p) >= Worth(net, p + 1) + 2 * |net.feeders[p]| + 3 + Each(|net.Down(p)|, Worth(net, p + 1))
  {
  }

  // ---------------------------------------------------------------------------
  // How many messages wait in the queues of a process

  lemma {:induction false} CountAppended<M>(queues: seq<seq<M>>, i: nat, x: M)
    requires i < |queues|
    ensures Count(queues[i := queues[i] + [x]]) == Count(queues) + 1
  {
    var r, last := queues[i := queues[i] + [x]], |queues| - 1;
    if i == last {
      assert r[..last] == queues[..last];
    } else {
      assert r[..last] == queues[..last][i := queues[..last][i] + [x]];
      CountAppended(queues[..last], i, x);
    }
  }

  ghost predicate NoLonger<M>(a: seq<seq<M>>, b: seq<seq<M>>) {
    |a| == |b| && forall i: nat | i < |a| :: |a[i]| <= |b[i]|
  }

  lemma {:induction false} CountShorter<M>(a: seq<seq<M>>, b: seq<seq<M>>)
    requires NoLonger(a, b)
    ensures Count(a) <= Count(b)
    ensures (exists i: nat | i < |a| :: |a[i]| < |b[i]|) ==> Count(a) < Count(b)
    decreases |a|
  {
    if a != [] {
      CountShorter(a[..|a| - 1], b[..|b| - 1]);
      forall i: nat | i < |a| && |a[i]| < |b[i]| ensures Count(a) < Count(b) {
        if i < |a| - 1 { assert |a[..|a| - 1][i]| < |b[..|b| - 1][i]|; }
      }
    }
  }

  lemma CountPopped<M>(m: MQ.Merge<M>)
    requires MQ.Proper(m) && !MQ.Empty(m)
    ensures Count(MQ.Popped(m).queues) < Count(m.queues)
  {
    hide MQ.Popped, MQ.Empty, MQ.Taps;
    var r := MQ.Popped(m).queues;
    forall i: nat | i < |r| ensures |r[i]| <= |m.queues[i]| {
      PoppedQueue(m, i);
    }
    var i := Tapped(m);
    PoppedQueue(m, i);
    assert |r[i]| < |m.queues[i]|;
    CountShorter(r, m.queues);
  }

  lemma Tapped<M>(m: MQ.Merge<M>) returns (i: nat)
    requires MQ.Proper(m) && !MQ.Empty(m)
    ensures i < |m.queues| && MQ.Taps(m, i) && m.queues[i] != []
  {
    i := if m.kind.Zip? then 0 else if m.kind.RoundRobin? then m.index else MQ.FirstFull(m.queues);
  }

  /** A message once there stays there, whatever else is appended. */
  lemma WorkStays<M>(m: MQ.Merge<M>, i: nat, x: M)
    requires MQ.Proper(m) && i < |m.queues| && !MQ.Empty(m)
    ensures !MQ.Empty(MQ.Appended(m, i, x))
  {
    var r := MQ.Appended(m, i, x);
    if m.kind.Unordered? { assert r.queues[MQ.FirstFull(m.queues)] != []; }
  }

  // ---------------------------------------------------------------------------
  // What an event does to the effort of the process it concerns

  lemma EffortReceive<M>(pr: Proc<M>, j: nat, m: M, worth: nat, d: nat, further: nat)
    requires HasQueues(pr, |pr.arrived|) && j < |pr.arrived|
    ensures Effort(Receive(pr, j, m), worth, d, further) <= Effort(pr, worth, d, further) + worth + 3
  {
    hide MQ.Empty, Count, Times, Each, ActEffort;
    var r := Receive(pr, j, m);
    CountAppended(pr.core.queue.queues, j, m);
    OneMore(Count(pr.core.queue.queues), worth);
    if !MQ.Empty(pr.core.queue) { WorkStays(pr.core.queue, j, m); }
    assert EndEffort(r, worth, d, further) == EndEffort(pr, worth, d, further);
  }

  lemma EffortLose<M>(pr: Proc<M>, j: nat, worth: nat, d: nat, further: nat)
    requires HasQueues(pr, |pr.arrived|)
    ensures Effort(Lose(pr, j), worth, d, further) <= Effort(pr, worth, d, further) + worth + 3
  {
    hide MQ.Empty, Count, Times, Each, ActEffort;
  }

  /** A clear-to-send makes a process run only when there is something to do. */
  lemma EffortResume<M>(pr: Proc<M>, worth: nat, d: nat, further: nat)
    requires HasQueues(pr, |pr.arrived|)
    ensures Effort(Resume(pr), worth, d, further) <= Effort(pr, worth, d, further) + 1
  {
    hide MQ.Empty, Count, Times, Each, ActEffort;
  }

  lemma EffortStep<M>(pr: Proc<M>, fed: set<nat>, k: nat, down: set<Edge>, n: nat, worth: nat, further: nat)
    requires Local(pr, k, down, n) && 0 < pr.runs
    requires worth >= 2 * n + 3 + Each(|down|, further)
    ensures Effort(Step(pr, fed), worth, |down|, further) < Effort(pr, worth, |down|, further)
  {
    hide MQ.Empty, MQ.Popped, MQ.Front, Clears, Count, Times, Each;
    var r := Step(pr, fed);
    if MQ.Empty(pr.core.queue) {
      forall i: nat | i < n ensures !Clears(pr.core, i) { NothingClears(pr.core, i); }
      assert ToClear(r) == {};
    } else {
      CountPopped(pr.core.queue);
      Fewer(Count(r.core.queue.queues), Count(pr.core.queue.queues), worth);
      FewSlots(ToClear(r), n);
    }
  }

  lemma FewSlots(s: set<nat>, n: nat)
    requires forall i | i in s :: i < n
    ensures |s| <= n
  {
    SubsetSize(s, Slots(n));
  }

  lemma SubsetSize<A>(a: set<A>, b: set<A>)
    requires a <= b
    ensures |a| <= |b|
  {
    assert b == a + (b - a);
  }

  lemma EffortClear1<M>(pr: Proc<M>, j: nat, worth: nat, d: nat, further: nat)
    requires HasQueues(pr, |pr.arrived|) && j in ToClear(pr)
    ensures Effort(Clear1(pr, j), worth, d, further) == Effort(pr, worth, d, further) - 2
  {
    hide MQ.Empty, Count, Times, Each;
  }

  lemma EffortStart<M>(pr: Proc<M>, m: M, worth: nat, down: set<Edge>, further: nat)
    requires HasQueues(pr, |pr.arrived|) && InStep(pr) && pr.acts[0].message.Some?
    ensures Effort(StartSending(pr, m, down), worth, |down|, further) < Effort(pr, worth, |down|, further)
  {
    hide MQ.Empty, Count, Times, Each;
  }

  lemma EffortSend1<M>(pr: Proc<M>, e: Edge, worth: nat, d: nat, further: nat)
    requires HasQueues(pr, |pr.arrived|) && e in Unsent(pr)
    ensures Effort(Send1(pr, e), worth, d, further) == Effort(pr, worth, d, further) - (further + 4)
  {
    hide MQ.Empty, Count, Times, Each;
    OneLess(|Unsent(pr)|, further);
  }

  lemma EffortClearSelf<M>(pr: Proc<M>, k: nat, down: set<Edge>, n: nat, worth: nat, d: nat, further: nat)
    requires Local(pr, k, down, n) && InSend(pr)
    ensures Effort(Ended(Resume(pr)), worth, d, further) < Effort(pr, worth, d, further)
  {
    hide MQ.Empty, Count, Times, Each;
    assert Ended(Resume(pr)).acts == [];
  }

  lemma EffortFinish<M>(pr: Proc<M>, k: nat, down: set<Edge>, n: nat, worth: nat, further: nat)
    requires Local(pr, k, down, n) && InStep(pr) && pr.acts[0].message.None?
    ensures Effort(FinishStep(pr, down), worth, |down|, further) < Effort(pr, worth, |down|, further)
  {
    hide MQ.Empty, Count, Times, Each;
    NoneLeft(further);
  }

  lemma NoneLeft(worth: nat)
    ensures Each(0, worth) == 0
  {
  }

  lemma EffortDrop<M>(pr: Proc<M>, e: Edge, worth: nat, d: nat, further: nat)
    requires HasQueues(pr, |pr.arrived|) && e in pr.dropping
    ensures Effort(pr.(dropping := pr.dropping - {e}), worth, d, further)
      == Effort(pr, worth, d, further) - (further + 4)
  {
    hide MQ.Empty, Count, Times, Each, ActEffort;
    OneLess(|pr.dropping|, further);
  }

  // ---------------------------------------------------------------------------
  // The whole net

  /** Only the process `p` has changed. */
  lemma {:induction false} OneChanged<M>(net: Net<M>, s: State<M>, t: State<M>, p: nat, k: nat)
    requires Shaped(net, s) && Shaped(net, t) && p < |s.procs| && k <= |s.procs|
    requires forall x: nat | x < |s.procs| && x != p :: t.procs[x] == s.procs[x]
    ensures Efforts(net, t, k) == Efforts(net, s, k) + if p < k then EffortAt(net, t, p) - EffortAt(net, s, p) else 0
    decreases k
  {
    hide Effort, Shaped, Worth, Net.Down;
    if k > 0 {
      SameSize(net, s, t);
      OneChanged(net, s, t, p, k - 1);
    }
  }

  lemma SameSize<M>(net: Net<M>, s: State<M>, t: State<M>)
    requires Shaped(net, s) && Shaped(net, t)
    ensures |s.procs| == |t.procs| == |net.feeders|
  {
  }

  /** One process has changed, or two. */
  lemma Changed<M>(net: Net<M>, s: State<M>, t: State<M>, p: nat, q: nat)
    requires Shaped(net, s) && Shaped(net, t) && p < |s.procs| && q < |s.procs|
    requires forall x: nat | x < |s.procs| && x != p && x != q :: t.procs[x] == s.procs[x]
    ensures |t.procs| == |s.procs|
    ensures p == q ==> Total(net, t) == Total(net, s) + EffortAt(net, t, p) - EffortAt(net, s, p)
    ensures p != q ==>
      Total(net, t)
      == Total(net, s) + EffortAt(net, t, p) - EffortAt(net, s, p) + EffortAt(net, t, q) - EffortAt(net, s, q)
  {
    hide Effort, Worth, Net.Down, HasQueues, Efforts;
    SameSize(net, s, t);
    var m := With(s, p, t.procs[p]);
    OneChanged(net, s, m, p, |s.procs|);
    OneChanged(net, m, t, q, |s.procs|);
  }

  /** Every event inside a net lowers what it may still do. */
  lemma EveryStepCosts<M>(net: Net<M>, s: State<M>, e: Event<M>)
    requires net.Built() && Inv(net, s) && Shaped(net, s) && Enabled(net, s, e) && Inside(e)
    ensures Shaped(net, Next(net, s, e)) && Total(net, Next(net, s, e)) < Total(net, s)
  {
    hide Inv, Shaped, Enabled, Next, Total;
    ShapedStays(net, s, e);
    match e {
      case Begin(p) => CostOne(net, s, e, p);
      case Broadcast(p) => CostOne(net, s, e, p);
      case ClearSelf(p) => CostOne(net, s, e, p);
      case Finish(p) => CostOne(net, s, e, p);
      case Clear(edge) => CostClear(net, s, edge);
      case Send(p, edge) => CostSend(net, s, p, edge);
      case Drop(p, edge) => CostDrop(net, s, p, edge);
    }
  }

  lemma CostOne<M>(net: Net<M>, s: State<M>, e: Event<M>, p: nat)
    requires net.Built() && Inv(net, s) && Shaped(net, s) && Enabled(net, s, e)
    requires e in {Begin(p), Event.Broadcast(p), ClearSelf(p), Finish(p)}
    requires Shaped(net, Next(net, s, e))
    ensures Total(net, Next(net, s, e)) < Total(net, s)
  {
    hide Inv, Local, Linked, Effort, Worth, Net.Down, Step, StartSending, Resume, Ended, FinishStep, Total, Shaped;
    SameSize(net, s, s);
    var t, pr, n, down := Next(net, s, e), s.procs[p], |net.feeders[p]|, net.Down(p);
    var worth, further, k := Worth(net, p), Worth(net, p + 1), |s.owed * net.Down(p)|;
    ShapedAt(net, s, p);
    InvAt(net, s, p);
    match e {
      case Begin(_) =>
        WorthIs(net, p);
        EffortStep(pr, Fed(net, p), k, down, n, worth, further);
      case Broadcast(_) =>
        EffortStart(pr, net.run(p, pr.acts[0].message.value), worth, down, further);
      case ClearSelf(_) =>
        EffortClearSelf(pr, k, down, n, worth, |down|, further);
      case Finish(_) =>
        EffortFinish(pr, k, down, n, worth, further);
    }
    Changed(net, s, t, p, p);
  }

  lemma CostClear<M>(net: Net<M>, s: State<M>, e: Edge)
    requires net.Built() && Inv(net, s) && Shaped(net, s) && Enabled<M>(net, s, Clear(e))
    requires Shaped(net, Next<M>(net, s, Clear(e)))
    ensures Total(net, Next<M>(net, s, Clear(e))) < Total(net, s)
  {
    hide Inv, Local, Linked, Effort, Worth, Net.Down, Clear1, Resume, Total, Shaped, ToClear;
    var t, p, q := Next<M>(net, s, Clear(e)), net.feeders[e.0][e.1].p, e.0;
    InvOn(net, s, e);
    ShapedAt(net, s, p);
    ShapedAt(net, s, q);
    EffortClear1(s.procs[q], e.1, Worth(net, q), |net.Down(q)|, Worth(net, q + 1));
    EffortResume(s.procs[p], Worth(net, p), |net.Down(p)|, Worth(net, p + 1));
    Changed(net, s, t, p, q);
  }

  lemma CostSend<M>(net: Net<M>, s: State<M>, p: nat, e: Edge)
    requires net.Built() && Inv(net, s) && Shaped(net, s) && Enabled<M>(net, s, Send(p, e))
    requires Shaped(net, Next<M>(net, s, Send(p, e)))
    ensures Total(net, Next<M>(net, s, Send(p, e))) < Total(net, s)
  {
    hide Inv, Local, Linked, Effort, Worth, Net.Down, Receive, Send1, Total, Shaped;
    var t, q := Next<M>(net, s, Send(p, e)), e.0;
    InvOn(net, s, e);
    ShapedAt(net, s, p);
    ShapedAt(net, s, q);
    EffortSend1(s.procs[p], e, Worth(net, p), |net.Down(p)|, Worth(net, p + 1));
    EffortReceive(s.procs[q], e.1, s.procs[p].acts[0].m, Worth(net, q), |net.Down(q)|, Worth(net, q + 1));
    WorthFurther(net, p + 1, q);
    Changed(net, s, t, p, q);
  }

  lemma CostDrop<M>(net: Net<M>, s: State<M>, p: nat, e: Edge)
    requires net.Built() && Inv(net, s) && Shaped(net, s) && Enabled<M>(net, s, Drop(p, e))
    requires Shaped(net, Next<M>(net, s, Drop(p, e)))
    ensures Total(net, Next<M>(net, s, Drop(p, e))) < Total(net, s)
  {
    hide Inv, Local, Linked, Effort, Worth, Net.Down, Lose, Total, Shaped;
    var t, q := Next<M>(net, s, Drop(p, e)), e.0;
    InvOn(net, s, e);
    ShapedAt(net, s, p);
    ShapedAt(net, s, q);
    EffortDrop(s.procs[p], e, Worth(net, p), |net.Down(p)|, Worth(net, p + 1));
    EffortLose(s.procs[q], e.1, Worth(net, q), |net.Down(q)|, Worth(net, q + 1));
    WorthFurther(net, p + 1, q);
    Changed(net, s, t, p, q);
  }

  ghost predicate AllInside<M>(es: seq<Event<M>>) {
    forall e | e in es :: Inside(e)
  }

  /** However a net that has come so far goes on by itself, it does so for no more events than its state allows. */
  lemma {:induction false} SettlesWithin<M>(net: Net<M>, es: seq<Event<M>>, more: seq<Event<M>>)
    requires net.Built() && After(net, es + more).Some? && AllInside(more)
    ensures After(net, es).Some?
    ensures |more| + Total(net, After(net, es + more).value) <= Total(net, After(net, es).value)
    decreases |more|
  {
    hide Inv, Shaped, Enabled, Next, Total;
    if more == [] {
      assert es + more == es;
    } else {
      var before, last := more[..|more| - 1], more[|more| - 1];
      assert (es + more)[..|es + more| - 1] == es + before && (es + more)[|es + more| - 1] == last;
      assert last in more;
      SettlesWithin(net, es, before);
      EveryRunIsSound(net, es + before);
      EveryStepCosts(net, After(net, es + before).value, last);
    }
  }

  /** It can always go on by itself to a state of rest. */
  lemma {:induction false} ComesToRest<M>(net: Net<M>, es: seq<Event<M>>) returns (more: seq<Event<M>>)
    requires net.Built() && After(net, es).Some?
    ensures AllInside(more) && After(net, es + more).Some? && Quiet(net, After(net, es + more).value)
    decreases Total(net, After(net, es).value)
  {
    hide Inv, Shaped, Enabled, Next, Total, CanAct;
    var s := After(net, es).value;
    if Quiet(net, s) {
      more := [];
      assert es + more == es;
    } else {
      var e := SomeEvent(net, s);
      var es' := es + [e];
      assert es'[..|es'| - 1] == es;
      EveryRunIsSound(net, es);
      EveryStepCosts(net, s, e);
      var rest := ComesToRest(net, es');
      more := [e] + rest;
      assert es + more == es' + rest;
    }
  }

  lemma SomeEvent<M>(net: Net<M>, s: State<M>) returns (e: Event<M>)
    requires !Quiet(net, s)
    ensures Enabled(net, s, e) && Inside(e)
  {
    hide Enabled;
    var p: nat, f: Edge :| CanAct(net, s, p, f);
    e := if Enabled<M>(net, s, Begin(p)) then Begin(p)
         else if Enabled<M>(net, s, Clear(f)) then Clear(f)
         else if Enabled<M>(net, s, Event.Broadcast(p)) then Event.Broadcast(p)
         else if Enabled<M>(net, s, Send(p, f)) then Send(p, f)
         else if Enabled<M>(net, s, ClearSelf(p)) then ClearSelf(p)
         else if Enabled<M>(net, s, Finish(p)) then Finish(p)
         else Drop(p, f);
  }

  /** So a net of lines that is left alone comes to rest, and then has delivered everything put into it, and has closed
      what was closed: each process has emitted the result of every message put into its line, and has ended exactly if
      the sender of its line has gone. */
  lemma LeftAloneDelivers<M>(net: Net<M>, es: seq<Event<M>>, more: seq<Event<M>>, p: nat)
    requires net.Built() && After(net, es + more).Some? && AllInside(more) && AllLines(net) && Line(net, p)
    ensures After(net, es).Some? && |more| <= Total(net, After(net, es).value)
    ensures Quiet(net, After(net, es + more).value) ==>
      var pr, closed := After(net, es + more).value.procs[p], Event.Close(Head(net, p)) in es;
      && pr.emitted == Through(net, p, Puts(es, Head(net, p)))
      && (pr.core.final <==> closed) && (pr.done <==> closed) && pr.dropping == {}
  {
    hide Shaped, Total, Quiet, After, Through, Line, AllLines;
    SettlesWithin(net, es, more);
    if Quiet(net, After(net, es + more).value) {
      RestIsDelivered(net, es + more, p);
      RestIsClosed(net, es + more, p);
      NothingPut(es, more, Head(net, p));
    }
  }

  lemma {:induction false} NothingPut<M>(es: seq<Event<M>>, more: seq<Event<M>>, e: Edge)
    requires AllInside(more)
    ensures Puts(es + more, e) == Puts(es, e)
    ensures Event.Close(e) in es + more <==> Event.Close(e) in es
    decreases |more|
  {
    if more == [] {
      assert es + more == es;
    } else {
      var before, last := more[..|more| - 1], more[|more| - 1];
      assert (es + more)[..|es + more| - 1] == es + before && (es + more)[|es + more| - 1] == last;
      assert last in more;
      NothingPut(es, before, e);
    }
  }
}
