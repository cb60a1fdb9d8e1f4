/** The queues that merge several senders into one stream of messages. */
module MergeQueues {
  import opened Basics

  datatype Kind = Zip | RoundRobin | Unordered

  /** One queue for each sender; `index` is the queue whose turn it is, `popped` the one last taken from. */
  datatype Merge<M> = Merge(kind: Kind, queues: seq<seq<M>>, index: nat, popped: nat)

  predicate Proper<M>(m: Merge<M>) {
    m.index < |m.queues| && m.popped < |m.queues|
  }

  function NoMessages<M>(kind: Kind, n: nat): (m: Merge<M>)
    requires 0 < n
    ensures Proper(m) && |m.queues| == n
  {
    Merge(kind, seq(n, i => []), 0, 0)
  }

  /** The first queue with a message, or the number of queues. */
  function FirstFull<M>(queues: seq<seq<M>>): (i: nat)
    ensures i <= |queues|
    ensures i < |queues| ==> queues[i] != []
    ensures forall j | 0 <= j < i :: queues[j] == []
  {
    if queues == [] then 0 else if queues[0] != [] then 0 else 1 + FirstFull(queues[1..])
  }

  predicate Empty<M>(m: Merge<M>)
    requires Proper(m)
  {
    match m.kind
    case Zip => exists i: nat | i < |m.queues| :: m.queues[i] == []
    case RoundRobin => m.queues[m.index] == []
    case Unordered => FirstFull(m.queues) == |m.queues|
  }

  /** Whether the next message uses the front of queue `i`. */
  predicate Taps<M>(m: Merge<M>, i: nat)
    requires Proper(m) && i < |m.queues|
  {
    match m.kind
    case Zip => true
    case RoundRobin => i == m.index
    case Unordered => i == FirstFull(m.queues)
  }

  /** The next message: one value for each tapped queue. */
  function Front<M>(m: Merge<M>): seq<M>
    requires Proper(m) && !Empty(m)
  {
    match m.kind
    case Zip => seq(|m.queues|, i requires 0 <= i < |m.queues| => (assert m.queues[i] != []; m.queues[i][0]))
    case RoundRobin => [m.queues[m.index][0]]
    case Unordered => [m.queues[FirstFull(m.queues)][0]]
  }

  function Popped<M>(m: Merge<M>): (r: Merge<M>)
    requires Proper(m) && !Empty(m)
    ensures Proper(r) && |r.queues| == |m.queues| && r.kind == m.kind
  {
    var queues := seq(|m.queues|, i requires 0 <= i < |m.queues| =>
                        if Taps(m, i) && m.queues[i] != [] then m.queues[i][1..] else m.queues[i]);
    match m.kind
    case Zip => m.(queues := queues)
    case RoundRobin =>
      m.(queues := queues, index := if m.index + 1 == |m.queues| then 0 else m.index + 1, popped := m.index)
    case Unordered => m.(queues := queues, index := FirstFull(m.queues), popped := FirstFull(m.queues))
  }

  /** How long queue `i` is, as far as its sender is concerned: only a queue just taken from is reported. */
  function Size<M>(m: Merge<M>, i: nat): Option<nat>
    requires i < |m.queues|
  {
    if m.kind.Zip? || i == m.popped then Some(|m.queues[i]|) else None
  }

  function Appended<M>(m: Merge<M>, i: nat, x: M): (r: Merge<M>)
    requires Proper(m) && i < |m.queues|
    ensures Proper(r) && |r.queues| == |m.queues| && r.kind == m.kind
  {
    m.(queues := m.queues[i := m.queues[i] + [x]])
  }

  // ---------------------------------------------------------------------------
  // Any interleaving of appends and takes

  datatype Event<M> = Append(i: nat, x: M) | Take

  predicate Enabled<M>(m: Merge<M>, e: Event<M>)
    requires Proper(m)
  {
    match e
    case Append(i, _) => i < |m.queues|
    case Take => !Empty(m)
  }

  function Next<M>(m: Merge<M>, e: Event<M>): (r: Merge<M>)
    requires Proper(m) && Enabled(m, e)
    ensures Proper(r) && |r.queues| == |m.queues| && r.kind == m.kind
  {
    match e
    case Append(i, x) => Appended(m, i, x)
    case Take => Popped(m)
  }

  /** Where a run leads from fresh queues, and the messages taken on the way. */
  function After<M>(kind: Kind, n: nat, es: seq<Event<M>>): (r: Option<(Merge<M>, seq<seq<M>>)>)
    requires 0 < n
    ensures r.Some? ==> Proper(r.value.0) && |r.value.0.queues| == n && r.value.0.kind == kind
  {
    if es == [] then Some((NoMessages(kind, n), [])) else
      var r, e := After(kind, n, es[..|es| - 1]), es[|es| - 1];
      if r.Some? && Enabled(r.value.0, e)
      then Some((Next(r.value.0, e), r.value.1 + if e.Take? then [Front(r.value.0)] else []))
      else None
  }

  /** What sender `i` sent in a run. */
  function Sent<M>(es: seq<Event<M>>, i: nat): seq<M> {
    if es == [] then [] else
      var e := es[|es| - 1];
      Sent(es[..|es| - 1], i) + if e.Append? && e.i == i then [e.x] else []
  }

  /** `zip`: the k-th message is made of the k-th value of every sender; what waits is the rest. */
  lemma {:induction false} ZipPairsUp<M>(n: nat, es: seq<Event<M>>)
    requires 0 < n && After(Zip, n, es).Some?
    ensures var (m, out) := After(Zip, n, es).value;
      && (forall i: nat | i < n :: |out| <= |Sent(es, i)| && m.queues[i] == Sent(es, i)[|out|..])
      && (forall k: nat | k < |out| :: |out[k]| == n && forall i: nat | i < n :: out[k][i] == Sent(es, i)[k])
    decreases |es|
  {
    if es != [] {
      ZipPairsUp(n, es[..|es| - 1]);
    }
  }

  /** Whose turn turn number `t` among `n` is, and in which round. */
  function Seat(t: nat, n: nat): (i: nat)
    requires 0 < n
    ensures i < n
  {
    t % n
  }

  function Round(t: nat, n: nat): nat
    requires 0 < n
  {
    t / n
  }

  /** How often queue `i` of `n` has had its turn in `t` turns. */
  function Turns(t: nat, n: nat, i: nat): nat
    requires i < n
  {
    Round(t, n) + if i < Seat(t, n) then 1 else 0
  }

  lemma NextTurn(t: nat, n: nat)
    requires 0 < n
    ensures Seat(t + 1, n) == if Seat(t, n) + 1 == n then 0 else Seat(t, n) + 1
    ensures Round(t + 1, n) == if Seat(t, n) + 1 == n then Round(t, n) + 1 else Round(t, n)
  {
    var q, r := t / n, t % n;
    assert t == n * q + r;
    if r + 1 == n {
      assert n * (q + 1) == n * q + n;
      Divided(t + 1, n, q + 1, 0);
    } else {
      Divided(t + 1, n, q, r + 1);
    }
  }

  lemma NextTurns(t: nat, n: nat)
    requires 0 < n
    ensures forall i: nat | i < n :: Turns(t + 1, n, i) == Turns(t, n, i) + if i == Seat(t, n) then 1 else 0
    ensures Turns(t, n, Seat(t, n)) == Round(t, n)
  {
    hide Seat, Round;
    NextTurn(t, n);
  }

  lemma Divided(t: nat, n: nat, q: nat, r: nat)
    requires r < n && t == n * q + r
    ensures t / n == q && t % n == r
  {
    var q', r' := t / n, t % n;
    assert n * (q - q') == r' - r;
    Stretched(n, q - q');
  }

  lemma Stretched(n: int, d: int)
    requires 0 <= n
    ensures d > 0 ==> n * d >= n
    ensures d < 0 ==> n * d <= -n
  {
  }

  /** What `round_robin` has done after a run that sent `sent(i)` from each sender `i`. */
  ghost predicate TookTurns<M>(m: Merge<M>, out: seq<seq<M>>, es: seq<Event<M>>)
    requires Proper(m)
  {
    var n := |m.queues|;
    && m.index == Seat(|out|, n)
    && (forall i: nat | i < n :: Waits(m.queues[i], Turns(|out|, n, i), Sent(es, i)))
    && (forall k: nat | k < |out| :: Gave(out[k], Round(k, n), Sent(es, Seat(k, n))))
  }

  /** `queue` is `sent` without the first `t` values. */
  ghost predicate Waits<M>(queue: seq<M>, t: nat, sent: seq<M>) {
    t <= |sent| && queue == sent[t..]
  }

  /** The message is value number `t` of what was sent. */
  ghost predicate Gave<M>(message: seq<M>, t: nat, sent: seq<M>) {
    t < |sent| && message == [sent[t]]
  }

  /** `round_robin`: the k-th message is value number `k / n` of sender `k % n`. */
  lemma RoundRobinTakesTurns<M>(n: nat, es: seq<Event<M>>)
    requires 0 < n && After(RoundRobin, n, es).Some?
    ensures var (m, out) := After(RoundRobin, n, es).value;
      && (forall i: nat | i < n :: Waits(m.queues[i], Turns(|out|, n, i), Sent(es, i)))
      && (forall k: nat | k < |out| :: Gave(out[k], k / n, Sent(es, k % n)))
  {
    hide Waits, Gave, After, Sent;
    TurnsAreTaken(n, es);
    var (m, out) := After(RoundRobin, n, es).value;
    forall k: nat | k < |out| ensures Gave(out[k], k / n, Sent(es, k % n)) {
      assert Gave(out[k], Round(k, n), Sent(es, Seat(k, n)));
    }
  }

  lemma {:induction false} TurnsAreTaken<M>(n: nat, es: seq<Event<M>>)
    requires 0 < n && After(RoundRobin, n, es).Some?
    ensures var (m, out) := After(RoundRobin, n, es).value; TookTurns(m, out, es)
    decreases |es|
  {
    hide TookTurns, Taps, Popped, Front, Appended;
    if es == [] {
      NothingTaken(NoMessages(RoundRobin, n), es);
    } else {
      var before, e := es[..|es| - 1], es[|es| - 1];
      TurnsAreTaken(n, before);
      var (m, out) := After(RoundRobin, n, before).value;
      assert out + [] == out;
      if e.Take? { TurnTaken(m, out, es); } else { TurnWaits(m, out, es); }
    }
  }

  lemma NothingTaken<M>(m: Merge<M>, es: seq<Event<M>>)
    requires Proper(m) && es == [] && m.index == 0 && forall q | q in m.queues :: q == []
    ensures TookTurns(m, [], es)
  {
    Divided(0, |m.queues|, 0, 0);
    forall i: nat | i < |m.queues| ensures Waits(m.queues[i], Turns(0, |m.queues|, i), Sent(es, i)) {
      assert m.queues[i] in m.queues;
    }
  }

  /** What taking a message does to queue `i`, when only one queue is tapped. */
  lemma PoppedOne<M>(m: Merge<M>, j: nat)
    requires Proper(m) && !Empty(m) && !m.kind.Zip?
    requires j == if m.kind.RoundRobin? then m.index else FirstFull(m.queues)
    ensures j < |m.queues| && m.queues[j] == Front(m) + m.queues[j][1..] && |Front(m)| == 1
    ensures Popped(m).queues == m.queues[j := m.queues[j][1..]]
    ensures m.kind.RoundRobin? ==> Popped(m).index == if m.index + 1 == |m.queues| then 0 else m.index + 1
  {
  }

  lemma SentBefore<M>(es: seq<Event<M>>, i: nat)
    requires es != [] && es[|es| - 1].Take?
    ensures Sent(es, i) == Sent(es[..|es| - 1], i)
  {
  }

  lemma TurnTaken<M>(m: Merge<M>, out: seq<seq<M>>, es: seq<Event<M>>)
    requires es != [] && es[|es| - 1].Take? && Proper(m) && m.kind.RoundRobin? && !Empty(m)
    requires TookTurns(m, out, es[..|es| - 1])
    ensures TookTurns(Popped(m), out + [Front(m)], es)
  {
    hide Seat, Round, Turns, Sent, Popped, Front, Empty;
    var n, before, out' := |m.queues|, es[..|es| - 1], out + [Front(m)];
    NextTurn(|out|, n);
    NextTurns(|out|, n);
    PoppedOne(m, m.index);
    forall i: nat | i < n ensures Waits(Popped(m).queues[i], Turns(|out'|, n, i), Sent(es, i)) {
      SentBefore(es, i);
      assert Waits(m.queues[i], Turns(|out|, n, i), Sent(before, i));
    }
    forall k: nat | k < |out'| ensures Gave(out'[k], Round(k, n), Sent(es, Seat(k, n))) {
      SentBefore(es, Seat(k, n));
      if k < |out| {
        assert Gave(out[k], Round(k, n), Sent(before, Seat(k, n)));
      } else {
        assert Waits(m.queues[m.index], Turns(k, n, m.index), Sent(before, m.index));
      }
    }
  }

  lemma TurnWaits<M>(m: Merge<M>, out: seq<seq<M>>, es: seq<Event<M>>)
    requires es != [] && es[|es| - 1].Append? && Proper(m) && Enabled(m, es[|es| - 1])
    requires TookTurns(m, out, es[..|es| - 1])
    ensures TookTurns(Next(m, es[|es| - 1]), out, es)
  {
    hide Seat, Round, Turns;
    var n, before, r := |m.queues|, es[..|es| - 1], Next(m, es[|es| - 1]);
    forall i: nat | i < n ensures Waits(r.queues[i], Turns(|out|, n, i), Sent(es, i)) {
      assert Waits(m.queues[i], Turns(|out|, n, i), Sent(before, i));
    }
    forall k: nat | k < |out| ensures Gave(out[k], Round(k, n), Sent(es, Seat(k, n))) {
      assert Gave(out[k], Round(k, n), Sent(before, Seat(k, n)));
    }
  }

  /** There is a next message exactly when the strategy can have one: for `zip` when every sender has sent more than has
      been taken, for `round_robin` when the sender whose turn it is has sent its next value, and for `unordered` when
      anything waits. */
  lemma MayTake<M>(kind: Kind, n: nat, es: seq<Event<M>>)
    requires 0 < n && After(kind, n, es).Some?
    ensures var (m, out) := After(kind, n, es).value;
      && (kind.Zip? ==> (Enabled(m, Take) <==> forall i: nat | i < n :: |Sent(es, i)| > |out|))
      && (kind.RoundRobin? ==> (Enabled(m, Take) <==> |Sent(es, |out| % n)| > |out| / n))
      && (kind.Unordered? ==> (Enabled(m, Take) <==> exists i: nat | i < n :: m.queues[i] != []))
  {
    hide After, Sent;
    var (m, out) := After(kind, n, es).value;
    match kind {
      case Zip =>
        ZipPairsUp(n, es);
        if Empty(m) {
          var i: nat :| i < n && m.queues[i] == [];
          assert |Sent(es, i)| <= |out|;
        } else {
          forall i: nat | i < n ensures |Sent(es, i)| > |out| { assert m.queues[i] != []; }
        }
      case RoundRobin =>
        TurnsAreTaken(n, es);
        NextTurns(|out|, n);
        assert Waits(m.queues[m.index], Turns(|out|, n, m.index), Sent(es, m.index));
      case Unordered =>
        var i := FirstFull(m.queues);
    }
  }

  /** A sender can always append. */
  lemma AppendNeverWaits<M>(kind: Kind, n: nat, es: seq<Event<M>>, i: nat, x: M)
    requires 0 < n && After(kind, n, es).Some? && i < n
    ensures After(kind, n, es + [Append(i, x)]).Some? && Sent(es + [Append(i, x)], i) == Sent(es, i) + [x]
  {
    assert (es + [Append(i, x)])[..|es|] == es;
  }

  /** The queue that each take of a run took from. */
  function Origins<M>(n: nat, es: seq<Event<M>>): seq<nat>
    requires 0 < n
  {
    if es == [] then [] else
      var r := After(Unordered, n, es[..|es| - 1]);
      Origins(n, es[..|es| - 1]) + if r.Some? && es[|es| - 1].Take? then [FirstFull(r.value.0.queues)] else []
  }

  /** The messages that came from queue `i`. */
  function From<M>(out: seq<seq<M>>, origins: seq<nat>, i: nat): seq<M>
    requires |out| == |origins| && forall o | o in out :: |o| == 1
  {
    if out == [] then [] else
      var last := |out| - 1;
      From(out[..last], origins[..last], i) + if origins[last] == i then out[last] else []
  }

  /** What `unordered` has done: for each sender, what was taken from it and what still waits is what it sent,
      in the order it sent it. */
  ghost predicate Conserves<M>(m: Merge<M>, out: seq<seq<M>>, origins: seq<nat>, es: seq<Event<M>>) {
    && |out| == |origins| && (forall o | o in out :: |o| == 1) && (forall o | o in origins :: o < |m.queues|)
    && forall i: nat | i < |m.queues| :: From(out, origins, i) + m.queues[i] == Sent(es, i)
  }

  /** `unordered`: every message is one value of one sender, and nothing is lost, repeated, or reordered among
      the values of one sender. */
  lemma {:induction false} UnorderedConserves<M>(n: nat, es: seq<Event<M>>)
    requires 0 < n && After(Unordered, n, es).Some?
    ensures var (m, out) := After(Unordered, n, es).value; Conserves(m, out, Origins(n, es), es)
    decreases |es|
  {
    hide Conserves, Taps, Popped, Front, Appended;
    if es == [] {
      NothingConserved(NoMessages(Unordered, n), es);
    } else {
      var before, e := es[..|es| - 1], es[|es| - 1];
      UnorderedConserves(n, before);
      var (m, out) := After(Unordered, n, before).value;
      var origins := Origins(n, before);
      assert out + [] == out && origins + [] == origins;
      if e.Take? { TakeConserves(m, out, origins, es); } else { AppendConserves(m, out, origins, es); }
    }
  }

  lemma NothingConserved<M>(m: Merge<M>, es: seq<Event<M>>)
    requires es == [] && forall q | q in m.queues :: q == []
    ensures Conserves(m, [], [], es)
  {
    forall i: nat | i < |m.queues| ensures m.queues[i] == [] { assert m.queues[i] in m.queues; }
  }

  lemma FromNext<M>(out: seq<seq<M>>, origins: seq<nat>, o: seq<M>, j: nat, i: nat)
    requires |out| == |origins| && (forall o | o in out :: |o| == 1) && |o| == 1
    ensures From(out + [o], origins + [j], i) == From(out, origins, i) + if j == i then o else []
  {
    assert (out + [o])[..|out|] == out && (origins + [j])[..|out|] == origins;
  }

  lemma TakeConserves<M>(m: Merge<M>, out: seq<seq<M>>, origins: seq<nat>, es: seq<Event<M>>)
    requires es != [] && es[|es| - 1].Take? && Proper(m) && m.kind.Unordered? && !Empty(m)
    requires Conserves(m, out, origins, es[..|es| - 1])
    ensures Conserves(Popped(m), out + [Front(m)], origins + [FirstFull(m.queues)], es)
  {
    hide From, Sent, Popped, Front, Empty;
    var f := FirstFull(m.queues);
    PoppedOne(m, f);
    forall i: nat | i < |m.queues|
      ensures From(out + [Front(m)], origins + [f], i) + Popped(m).queues[i] == Sent(es, i)
    {
      FromNext(out, origins, Front(m), f, i);
      SentBefore(es, i);
      assert From(out, origins, i) + m.queues[i] == Sent(es[..|es| - 1], i);
      if i == f { assert m.queues[i] == Front(m) + Popped(m).queues[i]; }
    }
  }

  lemma AppendConserves<M>(m: Merge<M>, out: seq<seq<M>>, origins: seq<nat>, es: seq<Event<M>>)
    requires es != [] && es[|es| - 1].Append? && Proper(m) && Enabled(m, es[|es| - 1])
    requires Conserves(m, out, origins, es[..|es| - 1])
    ensures Conserves(Next(m, es[|es| - 1]), out, origins, es)
  {
    hide From;
    var r := Next(m, es[|es| - 1]);
    forall i: nat | i < |m.queues| ensures From(out, origins, i) + r.queues[i] == Sent(es, i) {
      assert From(out, origins, i) + m.queues[i] == Sent(es[..|es| - 1], i);
    }
  }

  /** When nothing can be taken: `zip` still needs a value of some sender, `round_robin` of the one whose turn it
      is, and `unordered` has nothing at all. */
  lemma EmptyMeansOwed<M>(m: Merge<M>)
    requires Proper(m)
    ensures Empty(m) <==>
      match m.kind
      case Zip => exists i: nat | i < |m.queues| :: m.queues[i] == []
      case RoundRobin => m.queues[m.index] == []
      case Unordered => forall i: nat | i < |m.queues| :: m.queues[i] == []
  {
    if m.kind.Unordered? && FirstFull(m.queues) < |m.queues| {
      assert m.queues[FirstFull(m.queues)] != [];
    }
  }

  // ---------------------------------------------------------------------------
  // The strategies themselves, which are changed in place

  class MergeQueue<M> {
    const kind: Kind
    var queues: seq<seq<M>>
    var index: nat
    var poppedIndex: nat

    function Now(): Merge<M>
      reads this
    {
      Merge(kind, queues, index, poppedIndex)
    }

    predicate Valid()
      reads this
    {
      Proper(Now())
    }

    constructor (kind: Kind, n: nat)
      requires 0 < n
      ensures Valid() && Now() == NoMessages(kind, n)
    {
      this.kind := kind;
      queues := seq(n, i => []);
      index, poppedIndex := 0, 0;
    }

    method IsEmpty() returns (empty: bool)
      requires Valid()
      ensures empty <==> Empty(Now())
    {
      if kind.RoundRobin? { return queues[index] == []; }
      var i := 0;
      while i < |queues| && (kind.Zip? ==> queues[i] != []) && (kind.Unordered? ==> queues[i] == [])
        invariant i <= |queues|
        invariant forall j: nat | j < i :: if kind.Zip? then queues[j] != [] else queues[j] == []
      {
        i := i + 1;
      }
      EmptyMeansOwed(Now());
      empty := if kind.Zip? then i < |queues| else i == |queues|;
    }

    method Append(i: nat, x: M)
      requires Valid() && i < |queues|
      modifies `queues
      ensures Valid() && Now() == Appended(old(Now()), i, x)
    {
      queues := queues[i := queues[i] + [x]];
    }

    /** The first queue with a message. */
    method Find() returns (i: nat)
      requires Valid()
      ensures i == FirstFull(queues)
    {
      i := 0;
      while i < |queues| && queues[i] == []
        invariant i <= |queues|
        invariant i + FirstFull(queues[i..]) == FirstFull(queues)
      {
        assert queues[i..][1..] == queues[i + 1..];
        i := i + 1;
      }
    }

    /** `front` and `pop_front`, which always come together. */
    method FrontAndPop() returns (message: seq<M>)
      requires Valid() && !Empty(Now())
      modifies `queues, `index, `poppedIndex
      ensures Valid() && message == Front(old(Now())) && Now() == Popped(old(Now()))
    {
      if kind.Zip? {
        message := AllFronts();
      } else {
        if kind.Unordered? { index := Find(); }
        message := [queues[index][0]];
        queues := queues[index := queues[index][1..]];
        poppedIndex := index;
        if kind.RoundRobin? {
          index := index + 1;
          if index == |queues| { index := 0; }
        }
      }
    }

    /** `size`, which leaves out the queues that were not taken from last. */
    method Sizes() returns (sizes: seq<Option<nat>>)
      requires Valid()
      ensures |sizes| == |queues| && forall i: nat | i < |sizes| :: sizes[i] == Size(Now(), i)
    {
      sizes := [];
      var i := 0;
      while i < |queues|
        invariant i <= |queues| && |sizes| == i
        invariant forall j: nat | j < i :: sizes[j] == Size(Now(), j)
      {
        sizes := sizes + [if kind.Zip? || i == poppedIndex then Some(|queues[i]|) else None];
        i := i + 1;
      }
    }

    method AllFronts() returns (message: seq<M>)
      requires Valid() && kind.Zip? && !Empty(Now())
      modifies `queues
      ensures Valid() && message == Front(old(Now())) && Now() == Popped(old(Now()))
    {
      ghost var was := queues;
      message := [];
      var i := 0;
      while i < |queues|
        invariant i <= |queues| == |was| && |message| == i && Valid()
        invariant forall j: nat | j < i :: message[j] == was[j][0] && queues[j] == was[j][1..]
        invariant forall j: nat | i <= j < |was| :: queues[j] == was[j]
      {
        message := message + [queues[i][0]];
        queues := queues[i := queues[i][1..]];
        i := i + 1;
      }
    }
  }
}
