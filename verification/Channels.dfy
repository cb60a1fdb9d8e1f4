/** Channels: processes that pass messages on to each other, with back pressure.

    Queue `j` of process `q` is fed by one sender, either outside or an earlier process; such a pair `(q, j)` is
    called an edge.  A state is what the mutexes of all processes protect, together with what their steps are
    about to do; an event is one locked region, or one step outside the locks.  A run is any interleaving.
  */
module Channels {
  import opened Basics
  import Edits
  import Walks
  import opened MergeQueues
  import opened Processes

  datatype Feeder = Outside | From(p: nat)

  type Edge = (nat, nat)

  /** A process is made after the processes it receives from. */
  datatype Net<!M> = Net(feeders: seq<seq<Feeder>>, kinds: seq<Kind>, run: (nat, seq<M>) -> M) {
    ghost predicate Built() {
      && |kinds| == |feeders|
      && (forall q: nat | q < |feeders| :: |feeders[q]| > 0)
      && (forall q: nat, j: nat | q < |feeders| && j < |feeders[q]| && feeders[q][j].From? :: feeders[q][j].p < q)
    }

    predicate IsEdge(e: Edge) {
      e.0 < |feeders| && e.1 < |feeders[e.0]|
    }

    predicate Feeds(p: nat, e: Edge) {
      IsEdge(e) && feeders[e.0][e.1] == Feeder.From(p)
    }

    /** The downstream queues of a process. */
    ghost function Down(p: nat): set<Edge> {
      set q: nat, j: nat | q < |feeders| && j < |feeders[q]| && feeders[q][j] == Feeder.From(p) :: (q, j)
    }

    lemma DownFeeds(p: nat, e: Edge)
      ensures e in Down(p) <==> Feeds(p, e)
    {
    }
  }

  /** What a step is doing: it has popped, and is clearing upstream senders; or it is broadcasting. */
  datatype Act<M> =
    | Stepping(toClear: set<nat>, message: Option<seq<M>>)
    | Sending(m: M, unsent: set<Edge>)

  datatype Proc<M> = Proc(
    core: Core<M>,
    runs: nat,               // steps handed to the executor, or about to be
    acts: seq<Act<M>>,       // steps being executed
    open: set<nat>,          // the queues whose sender is still there
    done: bool,              // it has begun to let go of its downstream queues
    dropping: set<Edge>,     // those it has not yet let go of
    arrived: seq<seq<M>>,    // what has been put into each queue
    taken: seq<seq<M>>,      // the messages popped
    emitted: seq<M>)         // the results broadcast

  datatype State<M> = State(procs: seq<Proc<M>>, owed: set<Edge>)

  datatype Event<M> =
    | Put(e: Edge, m: M)       // a message from outside
    | Close(e: Edge)           // the sender outside goes away
    | Begin(p: nat)            // a step starts, and pops
    | Clear(e: Edge)           // a step tells an upstream process that it may send
    | Broadcast(p: nat)
    | Send(p: nat, e: Edge)
    | ClearSelf(p: nat)
    | Finish(p: nat)           // a step that found no message
    | Drop(p: nat, e: Edge)    // a final process lets go of a downstream queue

  predicate InStep<M>(pr: Proc<M>) {
    pr.acts != [] && pr.acts[0].Stepping?
  }

  predicate InSend<M>(pr: Proc<M>) {
    pr.acts != [] && pr.acts[0].Sending?
  }

  /** The queues whose sender the current step has yet to clear. */
  function ToClear<M>(pr: Proc<M>): set<nat> {
    if InStep(pr) then pr.acts[0].toClear else {}
  }

  function Unsent<M>(pr: Proc<M>): set<Edge> {
    if InSend(pr) then pr.acts[0].unsent else {}
  }

  function Queue<M>(pr: Proc<M>, j: nat): seq<M> {
    if j < |pr.core.queue.queues| then pr.core.queue.queues[j] else []
  }

  predicate HasQueues<M>(pr: Proc<M>, n: nat) {
    Sane(pr.core) && |pr.core.queue.queues| == |pr.arrived| == n
  }

  // ---------------------------------------------------------------------------
  // What an event does to the process it concerns

  function Receive<M>(pr: Proc<M>, j: nat, m: M): (r: Proc<M>)
    requires HasQueues(pr, |pr.arrived|) && j < |pr.arrived|
    ensures HasQueues(r, |pr.arrived|)
  {
    pr.(core := Enqueued(pr.core, j, m), runs := pr.runs + if pr.core.running then 0 else 1,
        arrived := pr.arrived[j := pr.arrived[j] + [m]])
  }

  function Lose<M>(pr: Proc<M>, j: nat): (r: Proc<M>)
    requires HasQueues(pr, |pr.arrived|)
    ensures HasQueues(r, |pr.arrived|)
  {
    pr.(core := if 0 < pr.core.senders then SenderRemoved(pr.core) else pr.core, open := pr.open - {j},
        runs := pr.runs + if pr.core.senders == 1 && !pr.core.running then 1 else 0)
  }

  function Resume<M>(pr: Proc<M>): (r: Proc<M>)
    requires HasQueues(pr, |pr.arrived|)
    ensures HasQueues(r, |pr.arrived|)
  {
    pr.(core := Cleared(pr.core), runs := pr.runs + if Resumes(pr.core) then 1 else 0)
  }

  function Step<M>(pr: Proc<M>, fed: set<nat>): (r: Proc<M>)
    requires HasQueues(pr, |pr.arrived|) && 0 < pr.runs
    ensures HasQueues(r, |pr.arrived|)
  {
    var toClear := set i: nat | i < |pr.core.queue.queues| && i in fed && Clears(pr.core, i);
    var message := Message(pr.core);
    pr.(core := PoppedFrom(pr.core), runs := pr.runs - 1, acts := pr.acts + [Stepping(toClear, message)],
        taken := pr.taken + if message.Some? then [message.value] else [])
  }

  function Act0<M>(pr: Proc<M>, a: Act<M>): (r: Proc<M>)
    requires pr.acts != [] && HasQueues(pr, |pr.arrived|)
    ensures HasQueues(r, |pr.arrived|)
  {
    pr.(acts := pr.acts[0 := a])
  }

  function Ended<M>(pr: Proc<M>): (r: Proc<M>)
    requires pr.acts != [] && HasQueues(pr, |pr.arrived|)
    ensures HasQueues(r, |pr.arrived|)
  {
    pr.(acts := pr.acts[1..])
  }

  function Send1<M>(pr: Proc<M>, e: Edge): (r: Proc<M>)
    requires InSend(pr) && HasQueues(pr, |pr.arrived|)
    ensures HasQueues(r, |pr.arrived|)
  {
    Act0(pr, pr.acts[0].(unsent := pr.acts[0].unsent - {e}))
  }

  function Clear1<M>(pr: Proc<M>, j: nat): (r: Proc<M>)
    requires InStep(pr) && HasQueues(pr, |pr.arrived|)
    ensures HasQueues(r, |pr.arrived|)
  {
    Act0(pr, pr.acts[0].(toClear := pr.acts[0].toClear - {j}))
  }

  function StartSending<M>(pr: Proc<M>, m: M, down: set<Edge>): (r: Proc<M>)
    requires pr.acts != [] && HasQueues(pr, |pr.arrived|)
    ensures HasQueues(r, |pr.arrived|)
  {
    Act0(pr, Sending(m, down)).(core := pr.core.(suspended := |down| + 1), emitted := pr.emitted + [m])
  }

  function FinishStep<M>(pr: Proc<M>, down: set<Edge>): (r: Proc<M>)
    requires pr.acts != [] && HasQueues(pr, |pr.arrived|)
    ensures HasQueues(r, |pr.arrived|)
  {
    var ended := Ended(pr).(core := TaskDone(pr.core), runs := pr.runs + if HasWork(pr.core) then 1 else 0);
    if pr.core.final then ended.(done := true, dropping := down) else ended
  }

  // ---------------------------------------------------------------------------
  // What holds of one process, when `k` of its messages are outstanding downstream

  ghost predicate Local<M>(pr: Proc<M>, k: nat, down: set<Edge>, n: nat) {
    && Sane(pr.core) && |pr.core.queue.queues| == |pr.arrived| == n
    && Unsent(pr) <= down && pr.dropping <= down
    && (forall j | j in pr.open :: j < n) && pr.core.senders == |pr.open|
    // one step at a time: scheduled, executing, or suspended
    && pr.runs + |pr.acts| <= 1
    && (pr.core.running <==> pr.runs + |pr.acts| > 0 || k > 0)
    && (k > 0 ==> pr.runs == 0 && !InStep(pr))
    // credits
    && pr.core.suspended == k + (if InSend(pr) then 1 else 0)
    // no lost wakeup
    && (HasWork(pr.core) ==> pr.core.running)
    // closing
    && (InStep(pr) && pr.acts[0].message.None? ==> pr.acts[0].toClear == {})
    && (pr.core.closing ==> pr.open == {} && !pr.core.final)
    && (pr.open == {} ==> pr.core.closing || pr.core.final)
    && (pr.core.final && pr.acts == [] ==> pr.done)
    && (pr.core.final ==> !HasWork(pr.core) && pr.open == {} && k == 0 && pr.runs == 0
                          && (pr.acts == [] || pr.acts == [Stepping({}, None)]))
    && (pr.done ==> pr.core.final && pr.acts == [])
    && (pr.dropping != {} ==> pr.done)
  }

  lemma LocalReceive<M>(pr: Proc<M>, j: nat, m: M, k: nat, down: set<Edge>, n: nat)
    requires Local(pr, k, down, n) && j in pr.open
    ensures Local(Receive(pr, j, m), k, down, n)
  {
  }

  lemma LocalLose<M>(pr: Proc<M>, j: nat, k: nat, down: set<Edge>, n: nat)
    requires Local(pr, k, down, n) && j in pr.open
    ensures Local(Lose(pr, j), k, down, n)
  {
  }

  lemma LocalResume<M>(pr: Proc<M>, k: nat, down: set<Edge>, n: nat)
    requires Local(pr, k, down, n) && 0 < k
    ensures Local(Resume(pr), k - 1, down, n)
  {
  }

  lemma LocalStep<M>(pr: Proc<M>, fed: set<nat>, k: nat, down: set<Edge>, n: nat)
    requires Local(pr, k, down, n) && 0 < pr.runs
    ensures Local(Step(pr, fed), k, down, n) && k == 0
  {
  }

  lemma LocalClear1<M>(pr: Proc<M>, j: nat, k: nat, down: set<Edge>, n: nat)
    requires Local(pr, k, down, n) && InStep(pr)
    ensures Local(Clear1(pr, j), k, down, n)
  {
  }

  lemma LocalStartSending<M>(pr: Proc<M>, m: M, k: nat, down: set<Edge>, n: nat)
    requires Local(pr, k, down, n) && InStep(pr) && pr.acts[0].message.Some?
    ensures k == 0 && Local(StartSending(pr, m, down), |down|, down, n)
  {
  }

  lemma LocalSend1<M>(pr: Proc<M>, e: Edge, k: nat, down: set<Edge>, n: nat)
    requires Local(pr, k, down, n) && InSend(pr)
    ensures Local(Send1(pr, e), k, down, n)
  {
  }

  lemma LocalClearSelf<M>(pr: Proc<M>, k: nat, down: set<Edge>, n: nat)
    requires Local(pr, k, down, n) && InSend(pr)
    ensures Local(Ended(Resume(pr)), k, down, n)
  {
  }

  lemma LocalFinish<M>(pr: Proc<M>, k: nat, down: set<Edge>, n: nat)
    requires Local(pr, k, down, n) && InStep(pr) && pr.acts[0].message.None?
    ensures Local(FinishStep(pr, down), k, down, n)
    ensures !(HasWork(pr.core) && pr.core.final)
  {
  }

  // ---------------------------------------------------------------------------
  // What holds of an edge from `pp` to queue `e.1` of `qq`

  /** The message of an edge is unsent, or queued, or popped and not yet cleared, and only then is it owed. */
  ghost predicate Linked<M>(pp: Proc<M>, qq: Proc<M>, e: Edge, owed: bool) {
    var unsent, queued, popped := e in Unsent(pp), |Queue(qq, e.1)|, e.1 in ToClear(qq);
    && queued <= 1 && !(unsent && queued == 1) && !(unsent && popped) && !(queued == 1 && popped)
    && (owed <==> unsent || queued == 1 || popped)
    && (e.1 in qq.open <==> !pp.done || e in pp.dropping)
  }

  /** Nothing that the edge depends on has changed. */
  ghost predicate SameLink<M>(pp: Proc<M>, qq: Proc<M>, pp': Proc<M>, qq': Proc<M>, e: Edge) {
    && (e in Unsent(pp) <==> e in Unsent(pp')) && (e in pp.dropping <==> e in pp'.dropping)
    && (pp.done <==> pp'.done) && |Queue(qq, e.1)| == |Queue(qq', e.1)|
    && (e.1 in ToClear(qq) <==> e.1 in ToClear(qq')) && (e.1 in qq.open <==> e.1 in qq'.open)
  }

  function Slots(n: nat): (r: set<nat>)
    ensures |r| == n && forall j: nat :: j in r <==> j < n
  {
    if n == 0 then {} else Slots(n - 1) + {n - 1}
  }

  function NewProc<M>(kind: Kind, n: nat): Proc<M>
    requires 0 < n
  {
    Proc(NewProcess(kind, n), 0, [], Slots(n), false, {}, seq(n, j => []), [], [])
  }

  function Start<M>(net: Net<M>): State<M>
    requires net.Built()
  {
    State(seq(|net.feeders|, p requires 0 <= p < |net.feeders| => NewProc(net.kinds[p], |net.feeders[p]|)), {})
  }

  predicate Enabled<M>(net: Net<M>, s: State<M>, e: Event<M>) {
    match e
    case Put(e, _) => Open(net, s, e) && net.feeders[e.0][e.1].Outside?
    case Close(e) => Open(net, s, e) && net.feeders[e.0][e.1].Outside?
    case Begin(p) => p < |s.procs| && s.procs[p].runs > 0
    case Clear(e) => net.IsEdge(e) && e.0 < |s.procs| && e.1 in ToClear(s.procs[e.0]) && net.feeders[e.0][e.1].From?
    case Broadcast(p) => p < |s.procs| && InStep(s.procs[p])
                         && s.procs[p].acts[0].toClear == {} && s.procs[p].acts[0].message.Some?
    case Send(p, e) => p < |s.procs| && e in Unsent(s.procs[p]) && net.Feeds(p, e)
    case ClearSelf(p) => p < |s.procs| && InSend(s.procs[p]) && Unsent(s.procs[p]) == {}
    case Finish(p) => p < |s.procs| && InStep(s.procs[p])
                      && s.procs[p].acts[0].toClear == {} && s.procs[p].acts[0].message.None?
    case Drop(p, e) => p < |s.procs| && e in s.procs[p].dropping && net.Feeds(p, e)
  }

  predicate Open<M>(net: Net<M>, s: State<M>, e: Edge) {
    net.IsEdge(e) && e.0 < |s.procs| && e.1 in s.procs[e.0].open
  }

  /** The queues of `p` that a process feeds. */
  function Fed<M>(net: Net<M>, p: nat): set<nat> {
    set j: nat | p < |net.feeders| && j < |net.feeders[p]| && net.feeders[p][j].From?
  }

  ghost predicate Inv<M>(net: Net<M>, s: State<M>) {
    && |s.procs| == |net.feeders|
    && (forall p: nat | p < |s.procs| :: LocalAt(net, s, p))
    && (forall e: Edge | net.IsEdge(e) && net.feeders[e.0][e.1].From? :: LinkedAt(net, s, e))
  }

  ghost predicate LocalAt<M>(net: Net<M>, s: State<M>, p: nat)
    requires p < |s.procs| == |net.feeders|
  {
    Local(s.procs[p], |s.owed * net.Down(p)|, net.Down(p), |net.feeders[p]|)
  }

  ghost predicate LinkedAt<M>(net: Net<M>, s: State<M>, e: Edge)
    requires net.IsEdge(e) && net.feeders[e.0][e.1].From? && |s.procs| == |net.feeders|
  {
    var p := net.feeders[e.0][e.1].p;
    p < e.0 && Linked(s.procs[p], s.procs[e.0], e, e in s.owed)
  }

  lemma InvAt<M>(net: Net<M>, s: State<M>, p: nat)
    requires Inv(net, s) && p < |net.feeders|
    ensures |s.procs| == |net.feeders| && LocalAt(net, s, p)
  {
  }

  lemma InvOn<M>(net: Net<M>, s: State<M>, e: Edge)
    requires Inv(net, s) && FromEdge(net, e)
    ensures |s.procs| == |net.feeders| && LinkedAt(net, s, e)
  {
  }

  /** Every process has the queues that the net gives it. */
  predicate Shaped<M>(net: Net<M>, s: State<M>) {
    && |s.procs| == |net.feeders|
    && forall p: nat | p < |s.procs| :: HasQueues(s.procs[p], |net.feeders[p]|)
  }

  ghost function Next<M>(net: Net<M>, s: State<M>, e: Event<M>): State<M>
    requires net.Built() && Shaped(net, s) && Enabled(net, s, e)
  {
    match e
    case Put(e, m) => With(s, e.0, Receive(s.procs[e.0], e.1, m))
    case Close(e) => With(s, e.0, Lose(s.procs[e.0], e.1))
    case Begin(p) => With(s, p, Step(s.procs[p], Fed(net, p)))
    case Clear(e) =>
      var p := net.feeders[e.0][e.1].p;
      With(With(s, e.0, Clear1(s.procs[e.0], e.1)), p, Resume(s.procs[p])).(owed := s.owed - {e})
    case Broadcast(p) =>
      var m := net.run(p, s.procs[p].acts[0].message.value);
      With(s, p, StartSending(s.procs[p], m, net.Down(p))).(owed := s.owed + net.Down(p))
    case Send(p, e) =>
      With(With(s, p, Send1(s.procs[p], e)), e.0, Receive(s.procs[e.0], e.1, s.procs[p].acts[0].m))
    case ClearSelf(p) => With(s, p, Ended(Resume(s.procs[p])))
    case Finish(p) => With(s, p, FinishStep(s.procs[p], net.Down(p)))
    case Drop(p, e) =>
      With(With(s, p, s.procs[p].(dropping := s.procs[p].dropping - {e})), e.0, Lose(s.procs[e.0], e.1))
  }

  function With<M>(s: State<M>, p: nat, pr: Proc<M>): State<M>
    requires p < |s.procs|
  {
    s.(procs := s.procs[p := pr])
  }

  lemma ShapedStays<M>(net: Net<M>, s: State<M>, e: Event<M>)
    requires net.Built() && Shaped(net, s) && Enabled(net, s, e)
    ensures Shaped(net, Next(net, s, e))
  {
    hide Receive, Lose, Step, Clear1, Resume, StartSending, Send1, Ended, FinishStep;
  }

  ghost function After<M>(net: Net<M>, es: seq<Event<M>>): (r: Option<State<M>>)
    requires net.Built()
    ensures r.Some? ==> Shaped(net, r.value)
  {
    if es == [] then Some(Start(net)) else
      var s, e := After(net, es[..|es| - 1]), es[|es| - 1];
      if s.Some? && Enabled(net, s.value, e) then
        ShapedStays(net, s.value, e);
        Some(Next(net, s.value, e))
      else None
  }

  // ---------------------------------------------------------------------------
  // Every event keeps the invariant

  predicate FromEdge<M>(net: Net<M>, e: Edge) {
    net.IsEdge(e) && net.feeders[e.0][e.1].From?
  }

  /** `t` differs from `s` in the processes `touched` at most, and is in order there. */
  lemma Change<M>(net: Net<M>, s: State<M>, t: State<M>, touched: set<nat>)
    requires net.Built() && Inv(net, s) && |t.procs| == |s.procs|
    requires forall p: nat | p < |s.procs| && p !in touched ::
      t.procs[p] == s.procs[p] && t.owed * net.Down(p) == s.owed * net.Down(p)
    requires forall p: nat | p < |s.procs| && p in touched :: LocalAt(net, t, p)
    requires forall e: Edge | FromEdge(net, e) && (e.0 in touched || net.feeders[e.0][e.1].p in touched) ::
      LinkedAt(net, t, e)
    ensures Inv(net, t)
  {
    hide Local, Linked, Net.Down;
    forall p: nat | p < |t.procs| ensures LocalAt(net, t, p) {
      if p !in touched { assert LocalAt(net, s, p); }
    }
    forall e: Edge | net.IsEdge(e) && net.feeders[e.0][e.1].From? ensures LinkedAt(net, t, e) {
      var p := net.feeders[e.0][e.1].p;
      assert LinkedAt(net, s, e);
      if e.0 !in touched && p !in touched {
        SameOwed(net, s.owed, t.owed, p, e);
      }
    }
  }

  lemma SameOwed<M>(net: Net<M>, a: set<Edge>, b: set<Edge>, p: nat, e: Edge)
    requires a * net.Down(p) == b * net.Down(p) && net.Feeds(p, e)
    ensures e in a <==> e in b
  {
    net.DownFeeds(p, e);
    assert e in a <==> e in a * net.Down(p);
    assert e in b <==> e in b * net.Down(p);
  }

  /** The link of `f` survives when what it depends on stays. */
  lemma LinkSurvives<M>(net: Net<M>, s: State<M>, t: State<M>, f: Edge)
    requires FromEdge(net, f) && |t.procs| == |s.procs| == |net.feeders| && LinkedAt(net, s, f)
    requires var p := net.feeders[f.0][f.1].p;
      p < f.0 ==> SameLink(s.procs[p], s.procs[f.0], t.procs[p], t.procs[f.0], f)
    requires f in s.owed <==> f in t.owed
    ensures LinkedAt(net, t, f)
  {
  }

  lemma InvPut<M>(net: Net<M>, s: State<M>, e: Edge, m: M)
    requires net.Built() && Inv(net, s) && Shaped(net, s) && Enabled(net, s, Put(e, m))
    ensures Inv(net, Next(net, s, Put(e, m)))
  {
    hide Local, Linked, Net.Down;
    var q, t := e.0, Next(net, s, Put(e, m));
    assert LocalAt(net, s, q);
    LocalReceive(s.procs[q], e.1, m, |s.owed * net.Down(q)|, net.Down(q), |net.feeders[q]|);
    forall f: Edge | FromEdge(net, f) && (f.0 in {q} || net.feeders[f.0][f.1].p in {q}) ensures LinkedAt(net, t, f) {
      assert LinkedAt(net, s, f);
      LinkSurvives(net, s, t, f);
    }
    Change(net, s, t, {q});
  }

  lemma InvClose<M>(net: Net<M>, s: State<M>, e: Edge)
    requires net.Built() && Inv(net, s) && Shaped(net, s) && Enabled<M>(net, s, Close(e))
    ensures Inv(net, Next<M>(net, s, Close(e)))
  {
    hide Local, Linked, Net.Down;
    var q, t := e.0, Next<M>(net, s, Close(e));
    assert LocalAt(net, s, q);
    LocalLose(s.procs[q], e.1, |s.owed * net.Down(q)|, net.Down(q), |net.feeders[q]|);
    forall f: Edge | FromEdge(net, f) && (f.0 in {q} || net.feeders[f.0][f.1].p in {q}) ensures LinkedAt(net, t, f) {
      assert LinkedAt(net, s, f);
      LinkSurvives(net, s, t, f);
    }
    Change(net, s, t, {q});
  }

  /** A pop turns a queued message of an edge into one that is to be cleared, or leaves it queued. */
  lemma LinkedStep<M>(pp: Proc<M>, qq: Proc<M>, fed: set<nat>, e: Edge, owed: bool, n: nat)
    requires Linked(pp, qq, e, owed) && HasQueues(qq, n) && e.1 < n && e.1 in fed
    requires qq.acts == [] && 0 < qq.runs
    ensures Linked(pp, Step(qq, fed), e, owed)
  {
    hide Empty, Taps, Front, Clears;
    if !Empty(qq.core.queue) {
      ClearsWhatItTook(qq.core, e.1);
      PoppedQueue(qq.core.queue, e.1);
    } else {
      NothingClears(qq.core, e.1);
    }
  }

  lemma NothingClears<M>(c: Core<M>, i: nat)
    requires Sane(c) && i < |c.queue.queues| && Empty(c.queue)
    ensures !Clears(c, i)
  {
  }

  lemma PoppedQueue<M>(m: Merge<M>, i: nat)
    requires Proper(m) && !Empty(m) && i < |m.queues|
    ensures Popped(m).queues[i] == if Taps(m, i) && m.queues[i] != [] then m.queues[i][1..] else m.queues[i]
    ensures Taps(m, i) ==> m.queues[i] != []
  {
  }

  lemma InvBegin<M>(net: Net<M>, s: State<M>, p: nat)
    requires net.Built() && Inv(net, s) && Shaped(net, s) && Enabled<M>(net, s, Begin(p))
    ensures Inv(net, Next<M>(net, s, Begin(p)))
  {
    hide Linked, Net.Down, Step, HasQueues, Local;
    var t, pr, n := Next<M>(net, s, Begin(p)), s.procs[p], |net.feeders[p]|;
    assert LocalAt(net, s, p) && HasQueues(pr, n);
    LocalStep(pr, Fed(net, p), |s.owed * net.Down(p)|, net.Down(p), n);
    Alone(pr, |s.owed * net.Down(p)|, net.Down(p), n);
    StepKeepsOut(pr, Fed(net, p), n);
    forall f: Edge | FromEdge(net, f) && (f.0 in {p} || net.feeders[f.0][f.1].p in {p}) ensures LinkedAt(net, t, f) {
      assert LinkedAt(net, s, f);
      if f.0 == p {
        LinkedStep(s.procs[net.feeders[p][f.1].p], pr, Fed(net, p), f, f in s.owed, n);
      } else {
        LinkSurvives(net, s, t, f);
      }
    }
    Change(net, s, t, {p});
  }

  lemma Alone<M>(pr: Proc<M>, k: nat, down: set<Edge>, n: nat)
    requires Local(pr, k, down, n)
    ensures |pr.acts| <= 1 && (0 < pr.runs ==> pr.acts == []) && (pr.acts != [] ==> !pr.done)
    ensures pr.acts != [] && InStep(pr) ==> k == 0
    ensures Unsent(pr) <= down && pr.dropping <= down && (pr.dropping != {} ==> pr.done)
  {
  }

  lemma StepKeepsOut<M>(pr: Proc<M>, fed: set<nat>, n: nat)
    requires HasQueues(pr, n) && 0 < pr.runs && pr.acts == []
    ensures var r := Step(pr, fed);
      Unsent(r) == Unsent(pr) && r.dropping == pr.dropping && r.done == pr.done && r.open == pr.open
  {
  }

  lemma OwedLess<M>(net: Net<M>, owed: set<Edge>, e: Edge, p: nat)
    requires e in owed && net.Feeds(p, e)
    ensures |(owed - {e}) * net.Down(p)| + 1 == |owed * net.Down(p)|
    ensures forall x: nat | x != p :: (owed - {e}) * net.Down(x) == owed * net.Down(x)
  {
    net.DownFeeds(p, e);
    assert (owed - {e}) * net.Down(p) == owed * net.Down(p) - {e};
    forall x: nat | x != p ensures (owed - {e}) * net.Down(x) == owed * net.Down(x) {
      net.DownFeeds(x, e);
    }
  }

  lemma OwedMore<M>(net: Net<M>, owed: set<Edge>, p: nat)
    requires |owed * net.Down(p)| == 0
    ensures (owed + net.Down(p)) * net.Down(p) == net.Down(p)
    ensures forall x: nat | x != p :: (owed + net.Down(p)) * net.Down(x) == owed * net.Down(x)
    ensures forall e | e in net.Down(p) :: e !in owed
  {
    assert owed * net.Down(p) == {};
    forall e | e in net.Down(p) ensures e !in owed {
      assert e in owed <==> e in owed * net.Down(p);
    }
    forall x: nat | x != p ensures (owed + net.Down(p)) * net.Down(x) == owed * net.Down(x) {
      forall e | e in net.Down(p) ensures e !in net.Down(x) { net.DownFeeds(p, e); net.DownFeeds(x, e); }
    }
  }

  /** What clearing and resuming leave as it was. */
  lemma ClearKeeps<M>(qq: Proc<M>, j: nat)
    requires InStep(qq) && HasQueues(qq, |qq.arrived|)
    ensures var r := Clear1(qq, j);
      Unsent(r) == Unsent(qq) == {} && ToClear(r) == ToClear(qq) - {j} && r.core == qq.core && r.dropping == qq.dropping
      && r.done == qq.done && r.open == qq.open
  {
  }

  lemma ResumeKeeps<M>(pp: Proc<M>)
    requires HasQueues(pp, |pp.arrived|)
    ensures var r := Resume(pp);
      r.acts == pp.acts && r.core.queue == pp.core.queue && r.dropping == pp.dropping && r.done == pp.done
      && r.open == pp.open
  {
  }

  lemma Cleared1<M>(pp: Proc<M>, qq: Proc<M>, pp': Proc<M>, qq': Proc<M>, e: Edge)
    requires Linked(pp, qq, e, true) && e.1 in ToClear(qq) && ToClear(qq') == ToClear(qq) - {e.1}
    requires qq'.core == qq.core && qq'.open == qq.open && pp'.acts == pp.acts && pp'.dropping == pp.dropping
    requires pp'.done == pp.done
    ensures Linked(pp', qq', e, false)
  {
  }

  lemma ClearLinks<M>(net: Net<M>, s: State<M>, e: Edge, f: Edge)
    requires net.Built() && Inv(net, s) && Shaped(net, s) && Enabled<M>(net, s, Clear(e)) && FromEdge(net, f)
    ensures |Next<M>(net, s, Clear(e)).procs| == |s.procs| == |net.feeders|
    ensures LinkedAt(net, Next<M>(net, s, Clear(e)), f)
  {
    hide Inv, Shaped, Local, Linked, Net.Down, Clear1, Resume, HasQueues;
    var p, q, t := net.feeders[e.0][e.1].p, e.0, Next<M>(net, s, Clear(e));
    InvOn(net, s, e);
    InvOn(net, s, f);
    Popping(s.procs[p], s.procs[q], e, e in s.owed);
    ShapedAt(net, s, p);
    ShapedAt(net, s, q);
    ClearKeeps(s.procs[q], e.1);
    ResumeKeeps(s.procs[p]);
    if f == e { Cleared1(s.procs[p], s.procs[q], t.procs[p], t.procs[q], e); } else { LinkSurvives(net, s, t, f); }
  }

  lemma InvClear<M>(net: Net<M>, s: State<M>, e: Edge)
    requires net.Built() && Inv(net, s) && Shaped(net, s) && Enabled<M>(net, s, Clear(e))
    ensures Inv(net, Next<M>(net, s, Clear(e)))
  {
    hide Inv, Shaped, Local, Linked, Net.Down, Clear1, Resume, HasQueues, LinkedAt;
    var p, q, t := net.feeders[e.0][e.1].p, e.0, Next<M>(net, s, Clear(e));
    ClearIsOwed(net, s, e);
    InvAt(net, s, p);
    InvAt(net, s, q);
    OwedLess(net, s.owed, e, p);
    LocalResume(s.procs[p], |s.owed * net.Down(p)|, net.Down(p), |net.feeders[p]|);
    LocalClear1(s.procs[q], e.1, |s.owed * net.Down(q)|, net.Down(q), |net.feeders[q]|);
    forall f: Edge | FromEdge(net, f) ensures LinkedAt(net, t, f) { ClearLinks(net, s, e, f); }
    Change(net, s, t, {p, q});
  }

  lemma ShapedAt<M>(net: Net<M>, s: State<M>, p: nat)
    requires Shaped(net, s) && p < |s.procs|
    ensures HasQueues(s.procs[p], |s.procs[p].arrived|) && |s.procs[p].arrived| == |net.feeders[p]|
  {
  }

  lemma Popping<M>(pp: Proc<M>, qq: Proc<M>, e: Edge, owed: bool)
    requires Linked(pp, qq, e, owed) && e.1 in ToClear(qq)
    ensures owed
  {
  }

  lemma StartKeeps<M>(pr: Proc<M>, m: M, down: set<Edge>)
    requires InStep(pr) && HasQueues(pr, |pr.arrived|) && pr.acts[0].toClear == {}
    ensures var r := StartSending(pr, m, down);
      Unsent(r) == down && ToClear(r) == ToClear(pr) == {} && r.core.queue == pr.core.queue && r.dropping == pr.dropping
      && r.done == pr.done && r.open == pr.open && Unsent(pr) == {}
  {
  }

  lemma SendStarts<M>(pp: Proc<M>, qq: Proc<M>, pp': Proc<M>, e: Edge)
    requires Linked(pp, qq, e, false) && e in Unsent(pp') && pp'.dropping == pp.dropping && pp'.done == pp.done
    ensures Linked(pp', qq, e, true)
  {
  }

  lemma InvBroadcast<M>(net: Net<M>, s: State<M>, p: nat)
    requires net.Built() && Inv(net, s) && Shaped(net, s) && Enabled<M>(net, s, Broadcast(p))
    ensures Inv(net, Next<M>(net, s, Broadcast(p)))
  {
    hide Local, Linked, Net.Down, StartSending, HasQueues;
    var t, pr, down := Next<M>(net, s, Broadcast(p)), s.procs[p], net.Down(p);
    var m := net.run(p, pr.acts[0].message.value);
    assert LocalAt(net, s, p);
    LocalStartSending(pr, m, |s.owed * down|, down, |net.feeders[p]|);
    OwedMore(net, s.owed, p);
    ShapedAt(net, s, p);
    StartKeeps(pr, m, down);
    forall f: Edge | FromEdge(net, f) && (f.0 in {p} || net.feeders[f.0][f.1].p in {p}) ensures LinkedAt(net, t, f) {
      assert LinkedAt(net, s, f);
      net.DownFeeds(p, f);
      if f.0 == p { LinkSurvives(net, s, t, f); } else { SendStarts(pr, s.procs[f.0], t.procs[p], f); }
    }
    Change(net, s, t, {p});
  }

  lemma SendKeeps<M>(pr: Proc<M>, e: Edge)
    requires InSend(pr) && HasQueues(pr, |pr.arrived|)
    ensures var r := Send1(pr, e);
      Unsent(r) == Unsent(pr) - {e} && ToClear(r) == ToClear(pr) && r.core == pr.core && r.dropping == pr.dropping
      && r.done == pr.done && r.open == pr.open
  {
  }

  lemma ReceiveKeeps<M>(pr: Proc<M>, j: nat, m: M)
    requires HasQueues(pr, |pr.arrived|) && j < |pr.arrived|
    ensures var r := Receive(pr, j, m);
      && r.acts == pr.acts && r.dropping == pr.dropping && r.done == pr.done && r.open == pr.open
      && Queue(r, j) == Queue(pr, j) + [m] && forall i: nat | i != j :: Queue(r, i) == Queue(pr, i)
  {
  }

  lemma Sent<M>(pp: Proc<M>, qq: Proc<M>, pp': Proc<M>, qq': Proc<M>, e: Edge, m: M)
    requires Linked(pp, qq, e, true) && e in Unsent(pp) && e !in Unsent(pp')
    requires pp'.dropping == pp.dropping && pp'.done == pp.done
    requires qq'.acts == qq.acts && qq'.open == qq.open && Queue(qq', e.1) == Queue(qq, e.1) + [m]
    ensures Linked(pp', qq', e, true)
  {
  }

  /** While a message for it is unsent, a queue is owed its message, and its sender is there. */
  lemma Sending1<M>(pp: Proc<M>, qq: Proc<M>, e: Edge, owed: bool)
    requires Linked(pp, qq, e, owed) && e in Unsent(pp) && !pp.done
    ensures owed && e.1 in qq.open
  {
  }

  lemma InvSend<M>(net: Net<M>, s: State<M>, p: nat, e: Edge)
    requires net.Built() && Inv(net, s) && Shaped(net, s) && Enabled<M>(net, s, Send(p, e))
    ensures Inv(net, Next<M>(net, s, Send(p, e)))
  {
    hide Local, Linked, Net.Down, Send1, Receive, HasQueues;
    var q, t, m := e.0, Next<M>(net, s, Send(p, e)), s.procs[p].acts[0].m;
    assert LinkedAt(net, s, e) && LocalAt(net, s, p) && LocalAt(net, s, q);
    Alone(s.procs[p], |s.owed * net.Down(p)|, net.Down(p), |net.feeders[p]|);
    Sending1(s.procs[p], s.procs[q], e, e in s.owed);
    LocalSend1(s.procs[p], e, |s.owed * net.Down(p)|, net.Down(p), |net.feeders[p]|);
    LocalReceive(s.procs[q], e.1, m, |s.owed * net.Down(q)|, net.Down(q), |net.feeders[q]|);
    ShapedAt(net, s, p);
    ShapedAt(net, s, q);
    SendKeeps(s.procs[p], e);
    ReceiveKeeps(s.procs[q], e.1, m);
    forall f: Edge | FromEdge(net, f) && (f.0 in {p, q} || net.feeders[f.0][f.1].p in {p, q})
      ensures LinkedAt(net, t, f)
    {
      assert LinkedAt(net, s, f);
      if f == e { Sent(s.procs[p], s.procs[q], t.procs[p], t.procs[q], e, m); } else { LinkSurvives(net, s, t, f); }
    }
    Change(net, s, t, {p, q});
  }

  lemma InvClearSelf<M>(net: Net<M>, s: State<M>, p: nat)
    requires net.Built() && Inv(net, s) && Shaped(net, s) && Enabled<M>(net, s, ClearSelf(p))
    ensures Inv(net, Next<M>(net, s, ClearSelf(p)))
  {
    hide Local, Linked, Net.Down, Resume, HasQueues;
    var t, pr := Next<M>(net, s, ClearSelf(p)), s.procs[p];
    assert LocalAt(net, s, p);
    LocalClearSelf(pr, |s.owed * net.Down(p)|, net.Down(p), |net.feeders[p]|);
    Alone(pr, |s.owed * net.Down(p)|, net.Down(p), |net.feeders[p]|);
    ShapedAt(net, s, p);
    ResumeKeeps(pr);
    forall f: Edge | FromEdge(net, f) && (f.0 in {p} || net.feeders[f.0][f.1].p in {p}) ensures LinkedAt(net, t, f) {
      assert LinkedAt(net, s, f);
      LinkSurvives(net, s, t, f);
    }
    Change(net, s, t, {p});
  }

  /** What the end of a step leaves as it was. */
  lemma FinishKeeps<M>(pr: Proc<M>, down: set<Edge>)
    requires InStep(pr) && |pr.acts| == 1 && pr.acts[0].toClear == {} && HasQueues(pr, |pr.arrived|)
    requires !pr.done && pr.dropping == {}
    ensures var r := FinishStep(pr, down);
      Unsent(r) == Unsent(pr) == {} && ToClear(r) == ToClear(pr) == {} && r.core.queue == pr.core.queue
      && r.open == pr.open && (r.done ==> r.dropping == down) && (!r.done ==> r.dropping == {})
  {
  }

  lemma Finished<M>(pp: Proc<M>, qq: Proc<M>, pp': Proc<M>, e: Edge, owed: bool)
    requires Linked(pp, qq, e, owed) && Unsent(pp') == Unsent(pp)
    requires !pp.done && (pp'.done ==> e in pp'.dropping)
    ensures Linked(pp', qq, e, owed)
  {
  }

  lemma InvFinish<M>(net: Net<M>, s: State<M>, p: nat)
    requires net.Built() && Inv(net, s) && Shaped(net, s) && Enabled<M>(net, s, Finish(p))
    ensures Inv(net, Next<M>(net, s, Finish(p)))
  {
    hide Local, Linked, Net.Down, FinishStep, HasQueues;
    var t, pr, down := Next<M>(net, s, Finish(p)), s.procs[p], net.Down(p);
    assert LocalAt(net, s, p);
    LocalFinish(pr, |s.owed * down|, down, |net.feeders[p]|);
    Alone(pr, |s.owed * down|, down, |net.feeders[p]|);
    ShapedAt(net, s, p);
    FinishKeeps(pr, down);
    forall f: Edge | FromEdge(net, f) && (f.0 in {p} || net.feeders[f.0][f.1].p in {p}) ensures LinkedAt(net, t, f) {
      assert LinkedAt(net, s, f);
      net.DownFeeds(p, f);
      if f.0 == p { FinishedIn(net, s, t, f, p); } else { Finished(pr, s.procs[f.0], t.procs[p], f, f in s.owed); }
    }
    Change(net, s, t, {p});
  }

  /** The same seen from the other end. */
  lemma FinishedIn<M>(net: Net<M>, s: State<M>, t: State<M>, f: Edge, p: nat)
    requires FromEdge(net, f) && f.0 == p && |t.procs| == |s.procs| == |net.feeders| && LinkedAt(net, s, f)
    requires t.owed == s.owed && forall x | 0 <= x < |s.procs| && x != p :: t.procs[x] == s.procs[x]
    requires ToClear(t.procs[p]) == ToClear(s.procs[p]) && t.procs[p].core.queue == s.procs[p].core.queue
    requires t.procs[p].open == s.procs[p].open
    ensures LinkedAt(net, t, f)
  {
  }

  lemma LoseKeeps<M>(pr: Proc<M>, j: nat)
    requires HasQueues(pr, |pr.arrived|)
    ensures var r := Lose(pr, j);
      && r.acts == pr.acts && r.dropping == pr.dropping && r.done == pr.done && r.open == pr.open - {j}
      && r.core.queue == pr.core.queue
  {
  }

  lemma Dropped<M>(pp: Proc<M>, qq: Proc<M>, pp': Proc<M>, qq': Proc<M>, e: Edge, owed: bool)
    requires Linked(pp, qq, e, owed) && pp.done && pp'.done && pp'.acts == pp.acts && e !in pp'.dropping
    requires qq'.acts == qq.acts && qq'.open == qq.open - {e.1} && qq'.core.queue == qq.core.queue
    ensures Linked(pp', qq', e, owed)
  {
  }

  lemma Dropping<M>(pp: Proc<M>, qq: Proc<M>, e: Edge, owed: bool)
    requires Linked(pp, qq, e, owed) && e in pp.dropping
    ensures e.1 in qq.open
  {
  }

  lemma InvDrop<M>(net: Net<M>, s: State<M>, p: nat, e: Edge)
    requires net.Built() && Inv(net, s) && Shaped(net, s) && Enabled<M>(net, s, Drop(p, e))
    ensures Inv(net, Next<M>(net, s, Drop(p, e)))
  {
    hide Local, Linked, Net.Down, Lose, HasQueues;
    var q, t, k := e.0, Next<M>(net, s, Drop(p, e)), |s.owed * net.Down(p)|;
    assert LinkedAt(net, s, e) && LocalAt(net, s, p) && LocalAt(net, s, q);
    Alone(s.procs[p], k, net.Down(p), |net.feeders[p]|);
    Dropping(s.procs[p], s.procs[q], e, e in s.owed);
    LocalDrop(s.procs[p], e, k, net.Down(p), |net.feeders[p]|);
    LocalLose(s.procs[q], e.1, |s.owed * net.Down(q)|, net.Down(q), |net.feeders[q]|);
    ShapedAt(net, s, q);
    LoseKeeps(s.procs[q], e.1);
    forall f: Edge | FromEdge(net, f) && (f.0 in {p, q} || net.feeders[f.0][f.1].p in {p, q})
      ensures LinkedAt(net, t, f)
    {
      assert LinkedAt(net, s, f);
      if f == e { Dropped(s.procs[p], s.procs[q], t.procs[p], t.procs[q], e, e in s.owed); }
      else { LinkSurvives(net, s, t, f); }
    }
    Change(net, s, t, {p, q});
  }

  lemma LocalDrop<M>(pr: Proc<M>, e: Edge, k: nat, down: set<Edge>, n: nat)
    requires Local(pr, k, down, n)
    ensures Local(pr.(dropping := pr.dropping - {e}), k, down, n)
  {
  }

  lemma InvStays<M>(net: Net<M>, s: State<M>, e: Event<M>)
    requires net.Built() && Inv(net, s) && Shaped(net, s) && Enabled(net, s, e)
    ensures Inv(net, Next(net, s, e))
  {
    hide Inv, Shaped, Enabled, Next;
    match e {
      case Put(e, m) => InvPut(net, s, e, m);
      case Close(e) => InvClose(net, s, e);
      case Begin(p) => InvBegin(net, s, p);
      case Clear(e) => InvClear(net, s, e);
      case Broadcast(p) => InvBroadcast(net, s, p);
      case Send(p, e) => InvSend(net, s, p, e);
      case ClearSelf(p) => InvClearSelf(net, s, p);
      case Finish(p) => InvFinish(net, s, p);
      case Drop(p, e) => InvDrop(net, s, p, e);
    }
  }

  lemma NewIsLocal<M>(kind: Kind, n: nat, down: set<Edge>)
    requires 0 < n
    ensures Local<M>(NewProc(kind, n), 0, down, n) && HasQueues<M>(NewProc(kind, n), n)
  {
    EmptyMeansOwed<M>(NoMessages(kind, n));
    assert NoMessages<M>(kind, n).queues[0] == [];
  }

  lemma NewIsLinked<M>(kind: Kind, n: nat, kind': Kind, n': nat, e: Edge)
    requires 0 < n && 0 < n' && e.1 < n'
    ensures Linked<M>(NewProc(kind, n), NewProc(kind', n'), e, false)
  {
  }

  lemma InvStarts<M>(net: Net<M>)
    requires net.Built()
    ensures Inv(net, Start(net)) && Shaped(net, Start(net))
  {
    hide Local, Linked, NewProc, Net.Down, HasQueues;
    var s := Start(net);
    forall p: nat | p < |s.procs| ensures LocalAt(net, s, p) && HasQueues(s.procs[p], |net.feeders[p]|) {
      assert s.owed * net.Down(p) == {};
      NewIsLocal<M>(net.kinds[p], |net.feeders[p]|, net.Down(p));
    }
    forall e: Edge | net.IsEdge(e) && net.feeders[e.0][e.1].From? ensures LinkedAt(net, s, e) {
      var p := net.feeders[e.0][e.1].p;
      assert p < e.0;
      NewIsLinked<M>(net.kinds[p], |net.feeders[p]|, net.kinds[e.0], |net.feeders[e.0]|, e);
    }
  }

  lemma {:induction false} EveryRunIsSound<M>(net: Net<M>, es: seq<Event<M>>)
    requires net.Built() && After(net, es).Some?
    ensures Inv(net, After(net, es).value) && Shaped(net, After(net, es).value)
    decreases |es|
  {
    hide Inv, Shaped, Enabled, Next;
    if es == [] {
      InvStarts(net);
    } else {
      EveryRunIsSound(net, es[..|es| - 1]);
      var s, e := After(net, es[..|es| - 1]).value, es[|es| - 1];
      InvStays(net, s, e);
      ShapedStays(net, s, e);
    }
  }

  // ---------------------------------------------------------------------------
  // Flow control

  /** In every interleaving a process waits for exactly as many clear-to-sends as it has messages outstanding
      downstream, and one more while it is still broadcasting. */
  lemma CreditsBalance<M>(net: Net<M>, es: seq<Event<M>>, p: nat)
    requires net.Built() && After(net, es).Some? && p < |net.feeders|
    ensures var s := After(net, es).value;
      |s.procs| == |net.feeders| && var pr := s.procs[p];
      pr.core.suspended == |s.owed * net.Down(p)| + if InSend(pr) then 1 else 0
  {
    hide Linked, After;
    EveryRunIsSound(net, es);
    assert LocalAt(net, After(net, es).value, p);
  }

  /** Each edge between processes holds at most one message, and what it is owed for is in one place only. */
  lemma OneMessagePerEdge<M>(net: Net<M>, es: seq<Event<M>>, e: Edge)
    requires net.Built() && After(net, es).Some? && FromEdge(net, e)
    ensures var s, p := After(net, es).value, net.feeders[e.0][e.1].p;
      && |s.procs| == |net.feeders| && p < e.0
      && Linked(s.procs[p], s.procs[e.0], e, e in s.owed) && |Queue(s.procs[e.0], e.1)| <= 1
  {
    hide Local, After;
    EveryRunIsSound(net, es);
    assert LinkedAt(net, After(net, es).value, e);
  }

  /** A process has one step at most, counting those that wait for the executor; while messages of it are
      outstanding, and it is not still sending them, it has none; with work to do it has one, or is suspended. */
  lemma OneStepAtATime<M>(net: Net<M>, es: seq<Event<M>>, p: nat)
    requires net.Built() && After(net, es).Some? && p < |net.feeders|
    ensures var s := After(net, es).value;
      |s.procs| == |net.feeders| && var pr := s.procs[p];
      && Sane(pr.core)
      && pr.runs + |pr.acts| <= 1
      && (s.owed * net.Down(p) != {} && !InSend(pr) ==> pr.runs == 0 && pr.acts == [])
      && (HasWork(pr.core) ==> pr.runs + |pr.acts| == 1 || s.owed * net.Down(p) != {})
  {
    hide Linked, After;
    EveryRunIsSound(net, es);
    var s := After(net, es).value;
    assert LocalAt(net, s, p);
    assert |s.owed * net.Down(p)| > 0 <==> s.owed * net.Down(p) != {};
  }

  /** What the downstream queues hold, in the order of `downs`. */
  function QueuesOf<M>(s: State<M>, downs: seq<Edge>): (r: seq<seq<M>>)
    ensures |r| == |downs|
  {
    seq(|downs|, i requires 0 <= i < |downs| =>
      if downs[i].0 < |s.procs| then Queue(s.procs[downs[i].0], downs[i].1) else [])
  }

  /** When a process broadcasts its downstream queues are empty, so that the room it finds in them, in whatever
      order it asks, makes it suspend for all its receivers and itself. */
  lemma BroadcastSuspends<M>(net: Net<M>, es: seq<Event<M>>, p: nat, downs: seq<Edge>)
    requires net.Built() && After(net, es).Some? && Enabled<M>(net, After(net, es).value, Broadcast(p))
    requires Walks.Distinct(downs) && forall e :: e in downs <==> e in net.Down(p)
    ensures SuspendsAsCode(net, After(net, es).value, p, downs)
  {
    hide Inv, Shaped, Enabled, After, Net.Down;
    EveryRunIsSound(net, es);
    AllRoom(net, After(net, es).value, p, downs);
  }

  ghost predicate SuspendsAsCode<M>(net: Net<M>, s: State<M>, p: nat, downs: seq<Edge>) {
    && net.Built() && Shaped(net, s) && Enabled<M>(net, s, Broadcast(p))
    && (forall q | q in QueuesOf(s, downs) :: q == [])
    && Next<M>(net, s, Broadcast(p)).procs[p].core
      == Suspended(s.procs[p].core, |downs|, MinimumFree(QueuesOf(s, downs)))
  }

  lemma AllRoom<M>(net: Net<M>, s: State<M>, p: nat, downs: seq<Edge>)
    requires net.Built() && Inv(net, s) && Shaped(net, s) && Enabled<M>(net, s, Broadcast(p))
    requires Walks.Distinct(downs) && forall e :: e in downs <==> e in net.Down(p)
    ensures SuspendsAsCode(net, s, p, downs)
  {
    hide Inv, Linked, Local, Net.Down, Queue, HasQueues, InStep;
    var queues := QueuesOf(s, downs);
    forall q | q in queues ensures |q| == 0 {
      var i :| 0 <= i < |queues| && queues[i] == q;
      assert downs[i] in downs;
      NothingDownstream(net, s, p, downs[i]);
    }
    SuspendsExactly(s.procs[p].core, queues);
    assert queues != [] ==> queues[0] in queues;
    Edits.DistinctSize(downs);
    assert (set e | e in downs) == net.Down(p);
  }

  lemma NothingDownstream<M>(net: Net<M>, s: State<M>, p: nat, e: Edge)
    requires Inv(net, s) && Enabled<M>(net, s, Broadcast(p)) && e in net.Down(p)
    ensures |s.procs| == |net.feeders| && e.0 < |s.procs| && |Queue(s.procs[e.0], e.1)| == 0
  {
    hide Local, Linked, Net.Down;
    InvAt(net, s, p);
    Balance(s.procs[p], |s.owed * net.Down(p)|, net.Down(p), |net.feeders[p]|);
    net.DownFeeds(p, e);
    InvOn(net, s, e);
    assert e in s.owed ==> e in s.owed * net.Down(p);
    NotQueued(s.procs[p], s.procs[e.0], e, e in s.owed);
  }

  lemma NotQueued<M>(pp: Proc<M>, qq: Proc<M>, e: Edge, owed: bool)
    requires Linked(pp, qq, e, owed) && !owed
    ensures |Queue(qq, e.1)| == 0
  {
  }

  /** The broadcasts of `p` in a run. */
  function Broadcasts<M>(es: seq<Event<M>>, p: nat): nat {
    if es == [] then 0 else Broadcasts(es[..|es| - 1], p) + if es[|es| - 1] == Event.Broadcast(p) then 1 else 0
  }

  /** Whether `e` is a clear-to-send for `p`. */
  predicate ClearsProcess<M>(net: Net<M>, e: Event<M>, p: nat) {
    (e.ClearSelf? && e.p == p) || (e.Clear? && net.Feeds(p, e.e))
  }

  /** The clear-to-sends for `p` in a run that bring its count to zero. */
  ghost function Zeros<M>(net: Net<M>, es: seq<Event<M>>, p: nat): nat
    requires net.Built() && p < |net.feeders|
  {
    if es == [] then 0 else
      var s, t := After(net, es[..|es| - 1]), After(net, es);
      Zeros(net, es[..|es| - 1], p)
      + if s.Some? && t.Some? && ClearsProcess(net, es[|es| - 1], p) && t.value.procs[p].core.suspended == 0
        then 1 else 0
  }

  /** Of the clear-to-sends that answer one broadcast exactly one brings the count to zero: the last. */
  lemma {:induction false} OneZeroPerBroadcast<M>(net: Net<M>, es: seq<Event<M>>, p: nat)
    requires net.Built() && After(net, es).Some? && p < |net.feeders|
    ensures Broadcasts(es, p)
      == Zeros(net, es, p) + if After(net, es).value.procs[p].core.suspended > 0 then 1 else 0
    decreases |es|
  {
    hide Inv, Next, Enabled;
    if es != [] {
      var before := es[..|es| - 1];
      OneZeroPerBroadcast(net, before, p);
      EveryRunIsSound(net, before);
      SuspendedNext(net, After(net, before).value, es[|es| - 1], p);
    }
  }

  /** How an event changes the suspend count of `p`. */
  ghost predicate Counts<M>(net: Net<M>, e: Event<M>, p: nat, n: nat, n': nat) {
    if e == Event.Broadcast(p) then n == 0 && n' > 0
    else if ClearsProcess(net, e, p) then n > 0 && n' == n - 1
    else n' == n
  }

  lemma SuspendedNext<M>(net: Net<M>, s: State<M>, e: Event<M>, p: nat)
    requires net.Built() && Inv(net, s) && Shaped(net, s) && Enabled(net, s, e) && p < |net.feeders|
    ensures |Next(net, s, e).procs| == |s.procs| == |net.feeders|
    ensures Counts(net, e, p, s.procs[p].core.suspended, Next(net, s, e).procs[p].core.suspended)
  {
    hide Inv, Linked, Local, Net.Down, HasQueues, Counts, Next, Enabled;
    SameCount(net, s, e);
    if e.Clear? || e.Send? || e.Drop? {
      SuspendedBetween(net, s, e, p);
    } else {
      SuspendedAlone(net, s, e, p);
    }
  }

  lemma SameCount<M>(net: Net<M>, s: State<M>, e: Event<M>)
    requires net.Built() && Shaped(net, s) && Enabled(net, s, e)
    ensures |Next(net, s, e).procs| == |s.procs| == |net.feeders|
  {
    hide Net.Down, HasQueues, Receive, Lose, Step, Clear1, Resume, StartSending, Send1, FinishStep;
  }

  lemma SuspendedAlone<M>(net: Net<M>, s: State<M>, e: Event<M>, p: nat)
    requires net.Built() && Inv(net, s) && Shaped(net, s) && Enabled(net, s, e) && p < |net.feeders|
    requires !e.Clear? && !e.Send? && !e.Drop?
    ensures |Next(net, s, e).procs| == |s.procs| == |net.feeders|
    ensures Counts(net, e, p, s.procs[p].core.suspended, Next(net, s, e).procs[p].core.suspended)
  {
    hide Inv, Linked, Local, Net.Down, HasQueues, Receive, Lose, Step, Clear1, Resume, StartSending, Send1, FinishStep;
    InvAt(net, s, p);
    Balance(s.procs[p], |s.owed * net.Down(p)|, net.Down(p), |net.feeders[p]|);
    ShapedAt(net, s, p);
    var pr := s.procs[p];
    match e {
      case Put(edge, m) => if edge.0 == p { ReceiveLeaves(pr, edge.1, m); }
      case Close(edge) => if edge.0 == p { LoseLeaves(pr, edge.1); }
      case Begin(q) => if q == p { StepLeaves(pr, Fed(net, p)); }
      case Broadcast(q) => if q == p { StartCounts(pr, net.run(p, pr.acts[0].message.value), net.Down(p)); }
      case ClearSelf(q) => if q == p { ResumeCounts(pr); }
      case Finish(q) => if q == p { FinishLeaves(pr, net.Down(p)); }
      case _ =>
    }
  }

  lemma SuspendedBetween<M>(net: Net<M>, s: State<M>, e: Event<M>, p: nat)
    requires net.Built() && Inv(net, s) && Shaped(net, s) && Enabled(net, s, e) && p < |net.feeders|
    requires e.Clear? || e.Send? || e.Drop?
    ensures |Next(net, s, e).procs| == |s.procs| == |net.feeders|
    ensures Counts(net, e, p, s.procs[p].core.suspended, Next(net, s, e).procs[p].core.suspended)
  {
    hide Inv, Linked, Local, Net.Down, HasQueues, Receive, Lose, Step, Clear1, Resume, StartSending, Send1, FinishStep;
    hide Unsent, ToClear;
    InvAt(net, s, p);
    Balance(s.procs[p], |s.owed * net.Down(p)|, net.Down(p), |net.feeders[p]|);
    ShapedAt(net, s, e.e.0);
    InvOn(net, s, e.e);
    var q, qq := net.feeders[e.e.0][e.e.1].p, s.procs[e.e.0];
    ShapedAt(net, s, q);
    match e {
      case Clear(edge) =>
        ClearIsOwed(net, s, edge);
        CanClear(qq, edge.1);
        Clear1Leaves(qq, edge.1);
        ResumeCounts(s.procs[q]);
      case Send(_, edge) =>
        CanSend(s.procs[q], edge);
        ReceiveLeaves(qq, edge.1, s.procs[q].acts[0].m);
        Send1Leaves(s.procs[q], edge);
      case Drop(_, edge) => LoseLeaves(qq, edge.1);
    }
  }

  lemma CanClear<M>(pr: Proc<M>, j: nat)
    requires j in ToClear(pr)
    ensures InStep(pr)
  {
  }

  lemma CanSend<M>(pr: Proc<M>, e: Edge)
    requires e in Unsent(pr)
    ensures InSend(pr)
  {
  }

  lemma ReceiveLeaves<M>(pr: Proc<M>, j: nat, m: M)
    requires HasQueues(pr, |pr.arrived|) && j < |pr.arrived|
    ensures Receive(pr, j, m).core.suspended == pr.core.suspended
  {
  }

  lemma LoseLeaves<M>(pr: Proc<M>, j: nat)
    requires HasQueues(pr, |pr.arrived|)
    ensures Lose(pr, j).core.suspended == pr.core.suspended
  {
  }

  lemma StepLeaves<M>(pr: Proc<M>, fed: set<nat>)
    requires HasQueues(pr, |pr.arrived|) && 0 < pr.runs
    ensures Step(pr, fed).core.suspended == pr.core.suspended
  {
    hide Empty, Popped, Front, Clears;
  }

  lemma Clear1Leaves<M>(pr: Proc<M>, j: nat)
    requires InStep(pr) && HasQueues(pr, |pr.arrived|)
    ensures Clear1(pr, j).core.suspended == pr.core.suspended
  {
  }

  lemma Send1Leaves<M>(pr: Proc<M>, e: Edge)
    requires InSend(pr) && HasQueues(pr, |pr.arrived|)
    ensures Send1(pr, e).core.suspended == pr.core.suspended
  {
  }

  lemma StartCounts<M>(pr: Proc<M>, m: M, down: set<Edge>)
    requires pr.acts != [] && HasQueues(pr, |pr.arrived|)
    ensures StartSending(pr, m, down).core.suspended > 0
  {
  }

  lemma ResumeCounts<M>(pr: Proc<M>)
    requires HasQueues(pr, |pr.arrived|)
    ensures !pr.core.final && pr.core.suspended > 0 ==> Resume(pr).core.suspended == pr.core.suspended - 1
  {
  }

  lemma FinishLeaves<M>(pr: Proc<M>, down: set<Edge>)
    requires pr.acts != [] && HasQueues(pr, |pr.arrived|)
    ensures FinishStep(pr, down).core.suspended == pr.core.suspended
  {
  }

  lemma Balance<M>(pr: Proc<M>, k: nat, down: set<Edge>, n: nat)
    requires Local(pr, k, down, n)
    ensures pr.core.suspended == k + (if InSend(pr) then 1 else 0) && (k > 0 ==> !InStep(pr))
    ensures pr.core.final ==> pr.core.suspended == 0
  {
  }

  lemma ClearIsOwed<M>(net: Net<M>, s: State<M>, e: Edge)
    requires Inv(net, s) && Enabled<M>(net, s, Clear(e))
    ensures var p := net.feeders[e.0][e.1].p;
      p < e.0 && e in s.owed && |s.owed * net.Down(p)| > 0
  {
    hide Local;
    assert LinkedAt(net, s, e);
    net.DownFeeds(net.feeders[e.0][e.1].p, e);
    assert e in s.owed * net.Down(net.feeders[e.0][e.1].p);
  }

  /** A step that ends a final process does not let it run on as well. */
  lemma NeverRunsAndCloses<M>(net: Net<M>, es: seq<Event<M>>, p: nat)
    requires net.Built() && After(net, es).Some? && Enabled<M>(net, After(net, es).value, Finish(p))
    ensures p < |net.feeders| && var pr := After(net, es).value.procs[p];
      Sane(pr.core) && !(HasWork(pr.core) && pr.core.final)
  {
    hide Linked, After;
    EveryRunIsSound(net, es);
    assert LocalAt(net, After(net, es).value, p);
  }
}
