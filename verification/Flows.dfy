/** What flows through a net of channels: nothing is lost, repeated or reordered, a closed net drains before it
    ends, and a net at rest has delivered everything. */
module Flows {
  import opened Basics
  import MQ = MergeQueues
  import opened Processes
  import opened Channels

  function Firsts<M>(taken: seq<seq<M>>): seq<M> {
    if taken == [] then [] else
      var last := taken[|taken| - 1];
      Firsts(taken[..|taken| - 1]) + if last == [] then [] else [last[0]]
  }

  /** How many messages the process has popped and not yet broadcast the result of. */
  function Pending<M>(pr: Proc<M>): nat {
    if InStep(pr) && pr.acts[0].message.Some? then 1 else 0
  }

  /** What a process has taken and emitted agree. */
  ghost predicate Told<M>(net: Net<M>, p: nat, pr: Proc<M>) {
    && |pr.emitted| + Pending(pr) == |pr.taken|
    && (forall i | 0 <= i < |pr.emitted| :: pr.emitted[i] == net.run(p, pr.taken[i]))
    && (Pending(pr) == 1 ==> pr.taken[|pr.taken| - 1] == pr.acts[0].message.value)
    && (InSend(pr) ==> pr.emitted != [] && pr.acts[0].m == pr.emitted[|pr.emitted| - 1])
    && ToClear(pr) <= Fed(net, p)
    && (|pr.arrived| == 1 ==> pr.arrived[0] == Firsts(pr.taken) + Queue(pr, 0)
                              && forall i | 0 <= i < |pr.taken| :: |pr.taken[i]| == 1)
  }

  /** What has arrived over an edge is what was emitted, except for a message not yet sent. */
  ghost predicate Flown<M>(pp: Proc<M>, qq: Proc<M>, e: Edge) {
    && e.1 < |qq.arrived|
    && (e in Unsent(pp) ==> pp.emitted != [])
    && qq.arrived[e.1] == if e in Unsent(pp) then pp.emitted[..|pp.emitted| - 1] else pp.emitted
  }

  ghost predicate FlownAt<M>(net: Net<M>, s: State<M>, e: Edge)
    requires FromEdge(net, e) && |s.procs| == |net.feeders|
  {
    var p := net.feeders[e.0][e.1].p;
    p < e.0 && Flown(s.procs[p], s.procs[e.0], e)
  }

  ghost predicate ToldAt<M>(net: Net<M>, s: State<M>, p: nat)
    requires p < |s.procs|
  {
    Told(net, p, s.procs[p])
  }

  ghost predicate FlowsWell<M>(net: Net<M>, s: State<M>) {
    && |s.procs| == |net.feeders|
    && (forall p: nat | p < |s.procs| :: ToldAt(net, s, p))
    && (forall e: Edge | FromEdge(net, e) :: FlownAt(net, s, e))
  }

  // ---------------------------------------------------------------------------
  // One process

  lemma ToldReceive<M>(net: Net<M>, p: nat, pr: Proc<M>, j: nat, m: M)
    requires Told(net, p, pr) && HasQueues(pr, |pr.arrived|) && j < |pr.arrived|
    ensures Told(net, p, Receive(pr, j, m))
  {
  }

  lemma ToldLose<M>(net: Net<M>, p: nat, pr: Proc<M>, j: nat)
    requires Told(net, p, pr) && HasQueues(pr, |pr.arrived|)
    ensures Told(net, p, Lose(pr, j))
  {
  }

  lemma ToldResume<M>(net: Net<M>, p: nat, pr: Proc<M>)
    requires Told(net, p, pr) && HasQueues(pr, |pr.arrived|)
    ensures Told(net, p, Resume(pr))
  {
  }

  lemma ToldStep<M>(net: Net<M>, p: nat, pr: Proc<M>)
    requires Told(net, p, pr) && HasQueues(pr, |pr.arrived|) && 0 < pr.runs && pr.acts == []
    ensures Told(net, p, Step(pr, Fed(net, p)))
  {
    hide MQ.Empty, MQ.Popped, MQ.Front, Fed, Clears;
    var r := Step(pr, Fed(net, p));
    assert pr.taken + [] == pr.taken && ToClear(r) <= Fed(net, p);
    if !MQ.Empty(pr.core.queue) {
      var x := MQ.Front(pr.core.queue);
      assert r.taken == pr.taken + [x] && r.taken[..|pr.taken|] == pr.taken;
      if |pr.arrived| == 1 {
        OnlyFront(pr.core.queue);
        assert x == [x[0]];
        assert Firsts(r.taken) + Queue(r, 0) == Firsts(pr.taken) + (x + Queue(r, 0));
      }
    }
  }

  /** With a single queue, every strategy takes from its front. */
  lemma OnlyFront<M>(m: MQ.Merge<M>)
    requires MQ.Proper(m) && !MQ.Empty(m) && |m.queues| == 1
    ensures |MQ.Front(m)| == 1 && m.queues[0] == MQ.Front(m) + MQ.Popped(m).queues[0]
  {
  }

  lemma ToldClear1<M>(net: Net<M>, p: nat, pr: Proc<M>, j: nat)
    requires Told(net, p, pr) && HasQueues(pr, |pr.arrived|) && InStep(pr)
    ensures Told(net, p, Clear1(pr, j))
  {
  }

  lemma ToldStart<M>(net: Net<M>, p: nat, pr: Proc<M>, down: set<Edge>)
    requires Told(net, p, pr) && HasQueues(pr, |pr.arrived|) && Pending(pr) == 1
    ensures Told(net, p, StartSending(pr, net.run(p, pr.acts[0].message.value), down))
  {
  }

  lemma ToldSend<M>(net: Net<M>, p: nat, pr: Proc<M>, e: Edge)
    requires Told(net, p, pr) && HasQueues(pr, |pr.arrived|) && InSend(pr)
    ensures Told(net, p, Send1(pr, e))
  {
  }

  lemma ToldClearSelf<M>(net: Net<M>, p: nat, pr: Proc<M>)
    requires Told(net, p, pr) && HasQueues(pr, |pr.arrived|) && InSend(pr) && |pr.acts| == 1
    ensures Told(net, p, Ended(Resume(pr)))
  {
  }

  lemma ToldFinish<M>(net: Net<M>, p: nat, pr: Proc<M>, down: set<Edge>)
    requires Told(net, p, pr) && HasQueues(pr, |pr.arrived|) && InStep(pr) && Pending(pr) == 0 && |pr.acts| == 1
    ensures Told(net, p, FinishStep(pr, down))
  {
  }

  // ---------------------------------------------------------------------------
  // The whole net

  /** Nothing that an edge has seen flow has changed. */
  ghost predicate SameFlow<M>(pp: Proc<M>, qq: Proc<M>, pp': Proc<M>, qq': Proc<M>, e: Edge) {
    && (e in Unsent(pp) <==> e in Unsent(pp')) && pp.emitted == pp'.emitted
    && |qq.arrived| == |qq'.arrived| && (e.1 < |qq.arrived| ==> qq.arrived[e.1] == qq'.arrived[e.1])
  }

  lemma FlowSurvives<M>(net: Net<M>, s: State<M>, t: State<M>, f: Edge)
    requires FromEdge(net, f) && |t.procs| == |s.procs| == |net.feeders| && FlownAt(net, s, f)
    requires var p := net.feeders[f.0][f.1].p;
      p < f.0 ==> SameFlow(s.procs[p], s.procs[f.0], t.procs[p], t.procs[f.0], f)
    ensures FlownAt(net, t, f)
  {
  }

  lemma ToldNext<M>(net: Net<M>, s: State<M>, e: Event<M>, p: nat)
    requires net.Built() && Inv(net, s) && Shaped(net, s) && Enabled(net, s, e) && FlowsWell(net, s)
    requires p < |net.feeders|
    ensures |Next(net, s, e).procs| == |s.procs| && ToldAt(net, Next(net, s, e), p)
  {
    hide Inv, Shaped, FlowsWell, Next, ToldAt;
    if e.Clear? || e.Send? || e.Drop? { ToldBetween(net, s, e, p); } else { ToldAlone(net, s, e, p); }
  }

  lemma ToldAlone<M>(net: Net<M>, s: State<M>, e: Event<M>, p: nat)
    requires net.Built() && Inv(net, s) && Shaped(net, s) && Enabled(net, s, e) && FlowsWell(net, s)
    requires p < |net.feeders|
    requires !(e.Clear? || e.Send? || e.Drop?)
    ensures |Next(net, s, e).procs| == |s.procs| && ToldAt(net, Next(net, s, e), p)
  {
    hide Told, Local, Linked, Flown, Net.Down;
    hide Receive, Lose, Step, Resume, Clear1, StartSending, Send1, Ended, FinishStep;
    var pr := s.procs[p];
    assert ToldAt(net, s, p) && LocalAt(net, s, p);
    Alone(pr, |s.owed * net.Down(p)|, net.Down(p), |net.feeders[p]|);
    ShapedAt(net, s, p);
    match e {
      case Put(d, m) => if p == d.0 { ToldReceive(net, p, pr, d.1, m); }
      case Close(d) => if p == d.0 { ToldLose(net, p, pr, d.1); }
      case Begin(x) => if p == x { ToldStep(net, p, pr); }
      case Broadcast(x) => if p == x { ToldStart(net, p, pr, net.Down(p)); }
      case ClearSelf(x) => if p == x { ToldClearSelf(net, p, pr); }
      case Finish(x) => if p == x { ToldFinish(net, p, pr, net.Down(p)); }
    }
  }

  lemma ToldBetween<M>(net: Net<M>, s: State<M>, e: Event<M>, p: nat)
    requires net.Built() && Inv(net, s) && Shaped(net, s) && Enabled(net, s, e) && FlowsWell(net, s)
    requires p < |net.feeders|
    requires e.Clear? || e.Send? || e.Drop?
    ensures |Next(net, s, e).procs| == |s.procs| && ToldAt(net, Next(net, s, e), p)
  {
    hide Told, Local, Linked, Flown, Net.Down;
    hide Receive, Lose, Step, Resume, Clear1, StartSending, Send1, Ended, FinishStep;
    var pr := s.procs[p];
    assert ToldAt(net, s, p) && LocalAt(net, s, p);
    Alone(pr, |s.owed * net.Down(p)|, net.Down(p), |net.feeders[p]|);
    ShapedAt(net, s, p);
    match e {
      case Clear(d) =>
        assert LinkedAt(net, s, d);
        if p == d.0 { ToldClear1(net, p, pr, d.1); }
        if p == net.feeders[d.0][d.1].p { ToldResume(net, p, pr); }
      case Send(x, d) =>
        assert x < d.0;
        if p == x { ToldSend(net, p, pr, d); }
        if p == d.0 { ToldReceive(net, p, pr, d.1, s.procs[x].acts[0].m); }
      case Drop(x, d) =>
        assert x < d.0;
        if p == x { ToldDrop(net, p, pr, d); }
        if p == d.0 { ToldLose(net, p, pr, d.1); }
    }
  }

  lemma ToldDrop<M>(net: Net<M>, p: nat, pr: Proc<M>, d: Edge)
    requires Told(net, p, pr)
    ensures Told(net, p, pr.(dropping := pr.dropping - {d}))
  {
  }

  /** A broadcast adds to what is emitted, and makes it unsent on every edge. */
  lemma FlownStart<M>(pp: Proc<M>, qq: Proc<M>, e: Edge, m: M, down: set<Edge>)
    requires Flown(pp, qq, e) && HasQueues(pp, |pp.arrived|) && InStep(pp) && e in down
    ensures Flown(StartSending(pp, m, down), qq, e)
  {
  }

  /** A message sent has arrived. */
  lemma FlownSend<M>(net: Net<M>, p: nat, pp: Proc<M>, qq: Proc<M>, e: Edge)
    requires Flown(pp, qq, e) && HasQueues(pp, |pp.arrived|) && HasQueues(qq, |qq.arrived|)
    requires e in Unsent(pp) && Told(net, p, pp)
    ensures Flown(Send1(pp, e), Receive(qq, e.1, pp.acts[0].m), e)
  {
  }

  /** What the events that move no message along an edge keep. */
  lemma FlowKeeps<M>(pr: Proc<M>, j: nat, e: Edge, down: set<Edge>, fed: set<nat>)
    requires HasQueues(pr, |pr.arrived|)
    ensures var r := Resume(pr); r.acts == pr.acts && r.emitted == pr.emitted && r.arrived == pr.arrived
    ensures var r := Lose(pr, j); r.acts == pr.acts && r.emitted == pr.emitted && r.arrived == pr.arrived
    ensures InStep(pr) ==> var r := Clear1(pr, j);
      Unsent(r) == Unsent(pr) && r.emitted == pr.emitted && r.arrived == pr.arrived
    ensures InSend(pr) ==> var r := Send1(pr, e);
      Unsent(r) == Unsent(pr) - {e} && r.emitted == pr.emitted && r.arrived == pr.arrived
    ensures InSend(pr) && |pr.acts| == 1 && Unsent(pr) == {} ==> var r := Ended(Resume(pr));
      Unsent(r) == Unsent(pr) && r.emitted == pr.emitted && r.arrived == pr.arrived
    ensures InStep(pr) && |pr.acts| == 1 ==> var r := FinishStep(pr, down);
      Unsent(r) == Unsent(pr) && r.emitted == pr.emitted && r.arrived == pr.arrived
    ensures pr.acts == [] && 0 < pr.runs ==> var r := Step(pr, fed);
      Unsent(r) == Unsent(pr) && r.emitted == pr.emitted && r.arrived == pr.arrived
  {
  }

  lemma MessageKeeps<M>(pr: Proc<M>, j: nat, m: M, down: set<Edge>)
    requires HasQueues(pr, |pr.arrived|)
    ensures InStep(pr) ==> var r := StartSending(pr, m, down); r.arrived == pr.arrived
    ensures j < |pr.arrived| ==> var r := Receive(pr, j, m);
      && r.acts == pr.acts && r.emitted == pr.emitted && |r.arrived| == |pr.arrived|
      && forall i: nat | i < |pr.arrived| && i != j :: r.arrived[i] == pr.arrived[i]
  {
  }

  lemma FlownNext<M>(net: Net<M>, s: State<M>, e: Event<M>, f: Edge)
    requires net.Built() && Inv(net, s) && Shaped(net, s) && Enabled(net, s, e) && FlowsWell(net, s)
    requires FromEdge(net, f)
    ensures |Next(net, s, e).procs| == |s.procs| && FlownAt(net, Next(net, s, e), f)
  {
    hide Told, Local, Linked, Flown, Net.Down, HasQueues;
    hide Receive, Lose, Step, Resume, Clear1, StartSending, Send1, Ended, FinishStep;
    var t, p, q := Next(net, s, e), net.feeders[f.0][f.1].p, f.0;
    assert FlownAt(net, s, f) && LinkedAt(net, s, f);
    assert ToldAt(net, s, p) && LocalAt(net, s, p) && LocalAt(net, s, q);
    Alone(s.procs[p], |s.owed * net.Down(p)|, net.Down(p), |net.feeders[p]|);
    Alone(s.procs[q], |s.owed * net.Down(q)|, net.Down(q), |net.feeders[q]|);
    ShapedAt(net, s, p);
    ShapedAt(net, s, q);
    match e {
      case Broadcast(x) =>
        if p == x {
          net.DownFeeds(p, f);
          FlownStart(s.procs[p], s.procs[q], f, net.run(p, s.procs[p].acts[0].message.value), net.Down(p));
        } else {
          FlownElse(net, s, e, f);
        }
      case Send(x, d) =>
        if f == d { FlownSend(net, p, s.procs[p], s.procs[q], f); } else { FlownElse(net, s, e, f); }
      case _ => FlownElse(net, s, e, f);
    }
  }

  /** What an event keeps of one process, as far as the flow is concerned. */
  ghost predicate Kept<M>(e: Event<M>, x: nat, a: Proc<M>, b: Proc<M>) {
    && (e != Event.Broadcast(x) ==>
          b.emitted == a.emitted && Unsent(b) == Unsent(a) - if e.Send? && e.p == x then {e.e} else {})
    && |b.arrived| == |a.arrived|
    && forall j: nat | j < |a.arrived| && !((e.Put? || e.Send?) && e.e == (x, j)) :: b.arrived[j] == a.arrived[j]
  }

  lemma KeptNext<M>(net: Net<M>, s: State<M>, e: Event<M>, x: nat)
    requires net.Built() && Inv(net, s) && Shaped(net, s) && Enabled(net, s, e) && x < |net.feeders|
    ensures |Next(net, s, e).procs| == |s.procs| && Kept(e, x, s.procs[x], Next(net, s, e).procs[x])
  {
    hide Inv, Shaped, Next, Kept;
    match e {
      case Put(_, _) => KeptMessage(net, s, e, x);
      case Broadcast(_) => KeptMessage(net, s, e, x);
      case Send(_, _) => KeptMessage(net, s, e, x);
      case Close(_) => KeptClose(net, s, e, x);
      case Drop(_, _) => KeptClose(net, s, e, x);
      case _ => KeptStep(net, s, e, x);
    }
  }

  lemma KeptMessage<M>(net: Net<M>, s: State<M>, e: Event<M>, x: nat)
    requires net.Built() && Inv(net, s) && Shaped(net, s) && Enabled(net, s, e) && x < |net.feeders|
    requires e.Put? || e.Broadcast? || e.Send?
    ensures |Next(net, s, e).procs| == |s.procs| && Kept(e, x, s.procs[x], Next(net, s, e).procs[x])
  {
    hide Local, Linked, Net.Down, HasQueues;
    hide Receive, Lose, Step, Resume, Clear1, StartSending, Send1, Ended, FinishStep;
    var pr := s.procs[x];
    assert LocalAt(net, s, x);
    Alone(pr, |s.owed * net.Down(x)|, net.Down(x), |net.feeders[x]|);
    ShapedAt(net, s, x);
    match e {
      case Put(d, m) => MessageKeeps(pr, d.1, m, {});
      case Broadcast(y) => if x == y { MessageKeeps(pr, 0, net.run(x, pr.acts[0].message.value), net.Down(x)); }
      case Send(y, d) =>
        FlowKeeps(pr, d.1, d, {}, {});
        MessageKeeps(pr, d.1, s.procs[y].acts[0].m, {});
    }
  }

  lemma KeptClose<M>(net: Net<M>, s: State<M>, e: Event<M>, x: nat)
    requires net.Built() && Inv(net, s) && Shaped(net, s) && Enabled(net, s, e) && x < |net.feeders|
    requires e.Close? || e.Drop?
    ensures |Next(net, s, e).procs| == |s.procs| && Kept(e, x, s.procs[x], Next(net, s, e).procs[x])
  {
    hide Local, Linked, Net.Down, HasQueues;
    hide Receive, Lose, Step, Resume, Clear1, StartSending, Send1, Ended, FinishStep;
    var pr := s.procs[x];
    assert LocalAt(net, s, x);
    Alone(pr, |s.owed * net.Down(x)|, net.Down(x), |net.feeders[x]|);
    ShapedAt(net, s, x);
    match e {
      case Close(d) => FlowKeeps(pr, d.1, d, {}, {});
      case Drop(y, d) => FlowKeeps(pr, d.1, d, {}, {});
    }
  }

  lemma KeptStep<M>(net: Net<M>, s: State<M>, e: Event<M>, x: nat)
    requires net.Built() && Inv(net, s) && Shaped(net, s) && Enabled(net, s, e) && x < |net.feeders|
    requires e.Begin? || e.Clear? || e.ClearSelf? || e.Finish?
    ensures |Next(net, s, e).procs| == |s.procs| && Kept(e, x, s.procs[x], Next(net, s, e).procs[x])
  {
    hide Local, Linked, Net.Down, HasQueues;
    hide Receive, Lose, Step, Resume, Clear1, StartSending, Send1, Ended, FinishStep;
    var pr := s.procs[x];
    assert LocalAt(net, s, x);
    Alone(pr, |s.owed * net.Down(x)|, net.Down(x), |net.feeders[x]|);
    ShapedAt(net, s, x);
    match e {
      case Begin(y) => FlowKeeps(pr, 0, (0, 0), {}, Fed(net, x));
      case Clear(d) =>
        assert LinkedAt(net, s, d);
        FlowKeeps(pr, d.1, d, {}, {});
      case ClearSelf(y) => FlowKeeps(pr, 0, (0, 0), {}, {});
      case Finish(y) => FlowKeeps(pr, 0, (0, 0), net.Down(x), {});
    }
  }

  /** An event that moves no message along `f`. */
  lemma FlownElse<M>(net: Net<M>, s: State<M>, e: Event<M>, f: Edge)
    requires net.Built() && Inv(net, s) && Shaped(net, s) && Enabled(net, s, e) && FlowsWell(net, s)
    requires FromEdge(net, f)
    requires !(e.Broadcast? && net.Feeds(e.p, f)) && !(e.Send? && e.e == f)
    ensures |Next(net, s, e).procs| == |s.procs| && FlownAt(net, Next(net, s, e), f)
  {
    hide Told, Local, Linked, Flown, Net.Down, HasQueues, Next, Shaped;
    var p, q := net.feeders[f.0][f.1].p, f.0;
    assert FlownAt(net, s, f);
    KeptNext(net, s, e, p);
    KeptNext(net, s, e, q);
    FlowSurvives(net, s, Next(net, s, e), f);
  }

  /** What an event leaves as it was, in every process and on every edge. */
  lemma FlowsStay<M>(net: Net<M>, s: State<M>, e: Event<M>)
    requires net.Built() && Inv(net, s) && Shaped(net, s) && Enabled(net, s, e) && FlowsWell(net, s)
    ensures FlowsWell(net, Next(net, s, e))
  {
    hide Inv, Shaped, Told, Flown, Net.Down, Enabled, Next;
    var t := Next(net, s, e);
    NextSize(net, s, e);
    forall p: nat | p < |t.procs| ensures ToldAt(net, t, p) { ToldNext(net, s, e, p); }
    forall f: Edge | FromEdge(net, f) ensures FlownAt(net, t, f) { FlownNext(net, s, e, f); }
  }

  lemma NextSize<M>(net: Net<M>, s: State<M>, e: Event<M>)
    requires net.Built() && Shaped(net, s) && Enabled(net, s, e)
    ensures |Next(net, s, e).procs| == |s.procs| == |net.feeders|
  {
    hide HasQueues;
  }

  // ---------------------------------------------------------------------------
  // Runs

  /** In every interleaving, what arrives over an edge is what was emitted into it, in that order, and every
      process emits its results in the order of the messages it took. */
  lemma {:induction false} EveryRunFlows<M>(net: Net<M>, es: seq<Event<M>>)
    requires net.Built() && After(net, es).Some?
    ensures FlowsWell(net, After(net, es).value)
    decreases |es|
  {
    hide Inv, Shaped, Enabled, Next, FlowsWell;
    if es == [] {
      StartFlows(net);
    } else {
      EveryRunFlows(net, es[..|es| - 1]);
      EveryRunIsSound(net, es[..|es| - 1]);
      FlowsStay(net, After(net, es[..|es| - 1]).value, es[|es| - 1]);
    }
  }

  lemma StartFlows<M>(net: Net<M>)
    requires net.Built()
    ensures FlowsWell(net, Start(net))
  {
    hide Net.Down;
    var s := Start(net);
    forall p: nat | p < |s.procs| ensures ToldAt(net, s, p) {
      assert s.procs[p].arrived == seq(|net.feeders[p]|, j => []);
    }
    forall e: Edge | FromEdge(net, e) ensures FlownAt(net, s, e) {
      assert net.feeders[e.0][e.1].p < e.0;
    }
  }

  /** The messages put into an edge from outside. */
  function Puts<M>(es: seq<Event<M>>, e: Edge): seq<M> {
    if es == [] then [] else
      var last := es[|es| - 1];
      Puts(es[..|es| - 1], e) + if last.Put? && last.e == e then [last.m] else []
  }

  lemma {:induction false} OutsideArrives<M>(net: Net<M>, es: seq<Event<M>>, e: Edge)
    requires net.Built() && After(net, es).Some? && net.IsEdge(e) && net.feeders[e.0][e.1].Outside?
    ensures var s := After(net, es).value;
      |s.procs[e.0].arrived| == |net.feeders[e.0]| && s.procs[e.0].arrived[e.1] == Puts(es, e)
    decreases |es|
  {
    hide Inv, Next, Enabled;
    if es != [] {
      var before, last := es[..|es| - 1], es[|es| - 1];
      OutsideArrives(net, before, e);
      EveryRunIsSound(net, before);
      var s := After(net, before).value;
      KeptNext(net, s, last, e.0);
      if last.Put? && last.e == e { PutArrives(net, s, e, last.m); } else { NotSent(net, s, last, e); }
    }
  }

  lemma PutArrives<M>(net: Net<M>, s: State<M>, e: Edge, m: M)
    requires net.Built() && Shaped(net, s) && Enabled(net, s, Put(e, m))
    ensures e.1 < |s.procs[e.0].arrived|
    ensures Next(net, s, Put(e, m)).procs[e.0].arrived[e.1] == s.procs[e.0].arrived[e.1] + [m]
  {
  }

  lemma NotSent<M>(net: Net<M>, s: State<M>, last: Event<M>, e: Edge)
    requires Enabled(net, s, last) && net.IsEdge(e) && net.feeders[e.0][e.1].Outside?
    ensures last.Send? ==> last.e != e
  {
  }

  /** `p` and all processes upstream of it have one queue each. */
  ghost predicate Line<M>(net: Net<M>, p: nat)
    requires net.Built()
    decreases p
  {
    && p < |net.feeders| && |net.feeders[p]| == 1
    && var f := net.feeders[p][0];
    f.From? ==> (assert f.p < p; Line(net, f.p))
  }

  /** Where the line that leads to `p` begins. */
  ghost function Head<M>(net: Net<M>, p: nat): (e: Edge)
    requires net.Built() && Line(net, p)
    ensures net.IsEdge(e) && net.feeders[e.0][e.1].Outside?
    decreases p
  {
    var f := net.feeders[p][0];
    if f.From? then (assert f.p < p; Head(net, f.p)) else (p, 0)
  }

  function Each<M>(net: Net<M>, p: nat, ms: seq<M>): seq<M> {
    seq(|ms|, i requires 0 <= i < |ms| => net.run(p, [ms[i]]))
  }

  /** What becomes of messages on their way through the processes of the line. */
  ghost function Through<M>(net: Net<M>, p: nat, ms: seq<M>): seq<M>
    requires net.Built() && Line(net, p)
    decreases p
  {
    var f := net.feeders[p][0];
    Each(net, p, if f.From? then (assert f.p < p; Through(net, f.p, ms)) else ms)
  }

  /** A process with nothing waiting and nothing pending has emitted the result of each message that arrived. */
  lemma AllEmitted<M>(net: Net<M>, p: nat, pr: Proc<M>)
    requires Told(net, p, pr) && |pr.arrived| == 1 && Queue(pr, 0) == [] && Pending(pr) == 0
    ensures pr.emitted == Each(net, p, pr.arrived[0])
  {
    hide Fed;
    FirstsAre(pr.taken);
    assert pr.arrived[0] == Firsts(pr.taken);
  }

  lemma {:induction false} FirstsAre<M>(taken: seq<seq<M>>)
    requires forall i | 0 <= i < |taken| :: |taken[i]| == 1
    ensures |Firsts(taken)| == |taken| && forall i | 0 <= i < |taken| :: taken[i] == [Firsts(taken)[i]]
  {
    if taken != [] { FirstsAre(taken[..|taken| - 1]); }
  }

  /** What a final process with one queue has left behind: nothing; and its sender is gone. */
  lemma FinalIsDry<M>(pr: Proc<M>, k: nat, down: set<Edge>)
    requires Local(pr, k, down, 1) && pr.core.final
    ensures Queue(pr, 0) == [] && Pending(pr) == 0 && 0 !in pr.open && Unsent(pr) == {}
  {
    EmptyIfOne(pr.core.queue);
  }

  lemma EmptyIfOne<M>(m: MQ.Merge<M>)
    requires MQ.Proper(m) && |m.queues| == 1
    ensures MQ.Empty(m) <==> m.queues[0] == []
  {
    MQ.EmptyMeansOwed(m);
  }

  /** A process on a line ends only after it has passed on every message put into the line before it closed. */
  lemma {:induction false} ClosesAfterDrain<M>(net: Net<M>, es: seq<Event<M>>, p: nat)
    requires net.Built() && After(net, es).Some? && Line(net, p)
    requires After(net, es).value.procs[p].core.final
    ensures var e := Head(net, p);
      && !Open(net, After(net, es).value, e)
      && After(net, es).value.procs[p].emitted == Through(net, p, Puts(es, e))
    decreases p
  {
    hide Local, Told, Flown, Linked, After, Each;
    EveryRunIsSound(net, es);
    EveryRunFlows(net, es);
    var s := After(net, es).value;
    assert LocalAt(net, s, p) && ToldAt(net, s, p);
    FinalIsDry(s.procs[p], |s.owed * net.Down(p)|, net.Down(p));
    AllEmitted(net, p, s.procs[p]);
    var e: Edge := (p, 0);
    if net.feeders[p][0].From? {
      var r := net.feeders[p][0].p;
      assert FromEdge(net, e) && LinkedAt(net, s, e) && FlownAt(net, s, e);
      UpstreamDone(s.procs[r], s.procs[p], e, e in s.owed);
      assert LocalAt(net, s, r);
      DoneIsFinal(s.procs[r], |s.owed * net.Down(r)|, net.Down(r));
      AllFlown(s.procs[r], s.procs[p], e);
      ClosesAfterDrain(net, es, r);
    } else {
      OutsideArrives(net, es, e);
    }
  }

  lemma UpstreamDone<M>(pp: Proc<M>, qq: Proc<M>, e: Edge, owed: bool)
    requires Linked(pp, qq, e, owed) && e.1 !in qq.open
    ensures pp.done
  {
  }

  lemma DoneIsFinal<M>(pr: Proc<M>, k: nat, down: set<Edge>)
    requires Local(pr, k, down, 1) && pr.done
    ensures pr.core.final && pr.acts == []
  {
  }

  lemma AllFlown<M>(pp: Proc<M>, qq: Proc<M>, e: Edge)
    requires Flown(pp, qq, e) && e !in Unsent(pp)
    ensures e.1 < |qq.arrived| && qq.arrived[e.1] == pp.emitted
  {
  }

  // ---------------------------------------------------------------------------
  // A net at rest

  /** Whether an event other than from outside can happen at process `p` or on edge `e`. */
  predicate CanAct<M>(net: Net<M>, s: State<M>, p: nat, e: Edge) {
    || Enabled<M>(net, s, Begin(p)) || Enabled<M>(net, s, Clear(e)) || Enabled<M>(net, s, Event.Broadcast(p))
    || Enabled<M>(net, s, Send(p, e)) || Enabled<M>(net, s, ClearSelf(p)) || Enabled<M>(net, s, Finish(p))
    || Enabled<M>(net, s, Drop(p, e))
  }

  ghost predicate Quiet<M>(net: Net<M>, s: State<M>) {
    forall p: nat, e: Edge :: !CanAct(net, s, p, e)
  }

  ghost predicate AllLines<M>(net: Net<M>) {
    forall p: nat | p < |net.feeders| :: |net.feeders[p]| == 1
  }

  /** A process with a step, or with a queue to let go of, can act. */
  lemma BusyCanAct<M>(net: Net<M>, s: State<M>, p: nat) returns (e: Edge)
    requires |s.procs| == |net.feeders| && p < |s.procs| && LocalAt(net, s, p) && ToldAt(net, s, p)
    requires var pr := s.procs[p]; pr.runs > 0 || pr.acts != [] || pr.dropping != {}
    ensures CanAct(net, s, p, e)
  {
    var pr := s.procs[p];
    e := (p, 0);
    if pr.dropping != {} {
      e := SomeOf(pr.dropping);
      net.DownFeeds(p, e);
    } else if Unsent(pr) != {} {
      e := SomeOf(Unsent(pr));
      net.DownFeeds(p, e);
    } else if ToClear(pr) != {} {
      var j := SomeOf(ToClear(pr));
      assert j in Fed(net, p);
      e := (p, j);
    }
  }

  lemma SomeOf<A>(s: set<A>) returns (x: A)
    requires s != {}
    ensures x in s
  {
    x :| x in s;
  }

  /** At rest no process has a step, or a queue to let go of. */
  lemma NoSteps<M>(net: Net<M>, s: State<M>, p: nat)
    requires net.Built() && Inv(net, s) && FlowsWell(net, s) && Quiet(net, s) && p < |s.procs|
    ensures s.procs[p].runs == 0 && s.procs[p].acts == [] && s.procs[p].dropping == {}
  {
    hide CanAct, Local, Told, Linked, Flown;
    assert LocalAt(net, s, p) && ToldAt(net, s, p);
    var pr := s.procs[p];
    if pr.runs > 0 || pr.acts != [] || pr.dropping != {} {
      var e := BusyCanAct(net, s, p);
    }
  }

  /** At rest nothing is running: a suspended process would wait for one further downstream, without end. */
  lemma {:induction false} NoneRuns<M>(net: Net<M>, s: State<M>, p: nat)
    requires net.Built() && Inv(net, s) && FlowsWell(net, s) && Quiet(net, s) && AllLines(net) && p < |s.procs|
    ensures !s.procs[p].core.running && Queue(s.procs[p], 0) == []
    decreases |s.procs| - p
  {
    hide Local, Linked, Flown, Told, Quiet, Net.Down;
    var pr := s.procs[p];
    assert LocalAt(net, s, p);
    NoSteps(net, s, p);
    IdleOrOwed(pr, |s.owed * net.Down(p)|, net.Down(p));
    if s.owed * net.Down(p) != {} {
      var e := SomeOf(s.owed * net.Down(p));
      net.DownFeeds(p, e);
      assert LinkedAt(net, s, e);
      NoSteps(net, s, e.0);
      StillQueued(pr, s.procs[e.0], e);
      NoneRuns(net, s, e.0);
    }
  }

  lemma IdleOrOwed<M>(pr: Proc<M>, k: nat, down: set<Edge>)
    requires Local(pr, k, down, 1) && pr.runs == 0 && pr.acts == []
    ensures pr.core.running <==> k > 0
    ensures !pr.core.running ==> Queue(pr, 0) == []
  {
    EmptyIfOne(pr.core.queue);
  }

  lemma StillQueued<M>(pp: Proc<M>, qq: Proc<M>, e: Edge)
    requires Linked(pp, qq, e, true) && pp.acts == [] && qq.acts == []
    ensures Queue(qq, e.1) != []
  {
  }

  /** A net of lines at rest has delivered everything: each process has emitted the result of every message put
      into its line. */
  lemma {:induction false} RestIsDelivered<M>(net: Net<M>, es: seq<Event<M>>, p: nat)
    requires net.Built() && After(net, es).Some? && AllLines(net) && Line(net, p)
    requires Quiet(net, After(net, es).value)
    ensures After(net, es).value.procs[p].emitted == Through(net, p, Puts(es, Head(net, p)))
    decreases p
  {
    hide Local, Told, Flown, Linked, After, Quiet, Each;
    EveryRunIsSound(net, es);
    EveryRunFlows(net, es);
    var s := After(net, es).value;
    assert ToldAt(net, s, p) && LocalAt(net, s, p);
    ShapedAt(net, s, p);
    NoSteps(net, s, p);
    NoneRuns(net, s, p);
    AllEmitted(net, p, s.procs[p]);
    var e: Edge := (p, 0);
    if net.feeders[p][0].From? {
      var r := net.feeders[p][0].p;
      assert FromEdge(net, e) && FlownAt(net, s, e);
      NoSteps(net, s, r);
      AllFlown(s.procs[r], s.procs[p], e);
      RestIsDelivered(net, es, r);
    } else {
      OutsideArrives(net, es, e);
    }
  }

  // ---------------------------------------------------------------------------
  // Closing

  /** An edge from outside is open until its sender goes away. */
  lemma {:induction false} OpenUntilClosed<M>(net: Net<M>, es: seq<Event<M>>, e: Edge)
    requires net.Built() && After(net, es).Some? && net.IsEdge(e) && net.feeders[e.0][e.1].Outside?
    ensures Open(net, After(net, es).value, e) <==> Event.Close(e) !in es
    decreases |es|
  {
    hide Inv, Next, Enabled, Open;
    if es == [] {
      StartsOpen(net, e);
    } else {
      var before, last := es[..|es| - 1], es[|es| - 1];
      assert es == before + [last];
      OpenUntilClosed(net, before, e);
      EveryRunIsSound(net, before);
      OpenNext(net, After(net, before).value, last, e);
    }
  }

  lemma StartsOpen<M>(net: Net<M>, e: Edge)
    requires net.Built() && net.IsEdge(e)
    ensures Open(net, Start(net), e)
  {
  }

  lemma OpenNext<M>(net: Net<M>, s: State<M>, last: Event<M>, e: Edge)
    requires net.Built() && Inv(net, s) && Shaped(net, s) && Enabled(net, s, last)
    requires net.IsEdge(e) && net.feeders[e.0][e.1].Outside?
    ensures Open(net, Next(net, s, last), e) <==> Open(net, s, e) && last != Event.Close(e)
  {
    hide Inv, HasQueues, Enqueued, SenderRemoved, Cleared, PoppedFrom, Clears, TaskDone, HasWork, Net.Down;
  }

  /** What is closed and at rest has ended: it has let go of every queue downstream. */
  lemma AtRestEnded<M>(pr: Proc<M>, k: nat, down: set<Edge>)
    requires Local(pr, k, down, 1) && pr.acts == [] && pr.dropping == {} && !pr.core.running
    ensures 0 !in pr.open <==> pr.core.final
    ensures pr.core.final <==> pr.done
  {
    assert 0 !in pr.open ==> pr.open == {} by {
      if pr.open != {} {
        var j := SomeOf(pr.open);
        assert j == 0;
      }
    }
  }

  /** A net of lines at rest has closed every process on a line whose sender has gone, and no other: each is final, and
      has told its downstream processes. */
  lemma {:induction false} RestIsClosed<M>(net: Net<M>, es: seq<Event<M>>, p: nat)
    requires net.Built() && After(net, es).Some? && AllLines(net) && Line(net, p)
    requires Quiet(net, After(net, es).value)
    ensures var pr, closed := After(net, es).value.procs[p], Event.Close(Head(net, p)) in es;
      && (pr.core.final <==> closed) && (pr.done <==> closed) && pr.dropping == {}
    decreases p
  {
    hide Local, Told, Flown, Linked, After, Quiet, Open;
    EveryRunIsSound(net, es);
    EveryRunFlows(net, es);
    var s := After(net, es).value;
    NoSteps(net, s, p);
    NoneRuns(net, s, p);
    assert LocalAt(net, s, p);
    AtRestEnded(s.procs[p], |s.owed * net.Down(p)|, net.Down(p));
    var e: Edge := (p, 0);
    if net.feeders[p][0].From? {
      var r := net.feeders[p][0].p;
      assert FromEdge(net, e) && LinkedAt(net, s, e);
      NoSteps(net, s, r);
      OpenWhileFed(s.procs[r], s.procs[p], e, e in s.owed);
      RestIsClosed(net, es, r);
    } else {
      OpenUntilClosed(net, es, e);
      OpenMeans(net, s, e);
    }
  }

  lemma OpenMeans<M>(net: Net<M>, s: State<M>, e: Edge)
    requires net.IsEdge(e) && e.0 < |s.procs|
    ensures Open(net, s, e) <==> e.1 in s.procs[e.0].open
  {
  }

  lemma OpenWhileFed<M>(pp: Proc<M>, qq: Proc<M>, e: Edge, owed: bool)
    requires Linked(pp, qq, e, owed) && pp.dropping == {}
    ensures e.1 in qq.open <==> !pp.done
  {
  }
}
