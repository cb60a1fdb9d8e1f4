/** `when_all` and `when_any`: many inputs, one decision, one final task.

    A state is what the join holds, together with the threads between two locked regions; an event is one
    locked region, or one step of a thread outside the lock.  A run is any interleaving of events.
  */
module Joins {
  import opened Basics

  datatype Join = WhenAll | WhenAny

  /** What has become of the observer of an input: `Fired` observers are about to report, `Lost` ones found the
      join gone. */
  datatype Observer = Unattached | Watching | Fired | Reported | Lost

  datatype Input<V, E> = Input(result: Option<Outcome<V, E>>, released: bool, observer: Observer)

  /** A thread that has taken the final task. */
  datatype Dispatcher = Took | Releasing(k: nat)

  datatype State<V, E> = State(
    inputs: seq<Input<V, E>>, attached: nat, registering: bool,
    remaining: int, decided: bool, index: nat, exception: Option<E>,
    hasTask: bool, dispatchers: seq<Dispatcher>, submitted: nat, canceled: nat,
    held: bool, seen: seq<(nat, Outcome<V, E>)>)

  datatype Event<V, E> =
    | Complete(i: nat, o: Outcome<V, E>)
    | Attach
    | Report(i: nat)
    | Ignore(i: nat)       // the join is gone when the observer looks for it
    | Register             // registration ends
    | Dispatch(d: nat)     // the next step of a dispatching thread
    | Release              // the future of the result goes away

  function Start<V, E>(n: nat): State<V, E> {
    State(seq(n, i => Input(None, false, Unattached)), 0, true, n, false, 0, None, true, [], 0, 0, true, [])
  }

  predicate Enabled<V, E>(s: State<V, E>, e: Event<V, E>) {
    match e
    case Complete(i, _) => i < |s.inputs| && s.inputs[i].result.None?
    case Attach => s.registering && s.attached < |s.inputs|
    case Report(i) => i < |s.inputs| && s.inputs[i].observer.Fired? && s.inputs[i].result.Some?
    case Ignore(i) => i < |s.inputs| && s.inputs[i].observer.Fired? && !s.held
    case Register => s.registering && s.attached == |s.inputs|
    case Dispatch(d) => d < |s.dispatchers|
    case Release => s.held
  }

  function Failed<V, E>(o: Outcome<V, E>): Option<E> {
    if o.Failure? then Some(o.error) else None
  }

  /** The locked region of `done`, for an input with outcome `o`. */
  function Decided<V, E>(join: Join, s: State<V, E>, i: nat, o: Outcome<V, E>): State<V, E> {
    if s.decided then s else
      var error := Failed(o);
      var left := s.remaining - 1;
      match join
      case WhenAny =>
        if error.None? then s.(index := i, exception := error, decided := true)
        else if left == 0 then s.(remaining := left, index := i, exception := error, decided := true)
        else s.(remaining := left)
      case WhenAll =>
        if error.Some? then s.(exception := error, decided := true)
        else if left == 0 then s.(remaining := left, exception := error, decided := true)
        else s.(remaining := left)
  }

  /** Takes the final task, if there is a decision and registration has ended; a task can be taken once. */
  function Taken<V, E>(s: State<V, E>): State<V, E> {
    if s.decided && !s.registering && s.hasTask
    then s.(hasTask := false, dispatchers := s.dispatchers + [Took]) else s
  }

  /** Whether `dispatch` lets go of input `i`. */
  predicate Unneeded<V, E>(join: Join, s: State<V, E>, i: nat) {
    s.exception.Some? || (join.WhenAny? && i != s.index)
  }

  function Dispatched<V, E>(join: Join, s: State<V, E>, d: nat): State<V, E>
    requires d < |s.dispatchers|
  {
    var others := s.dispatchers[..d] + s.dispatchers[d + 1..];
    match s.dispatchers[d]
    case Took =>
      if s.held then s.(dispatchers := s.dispatchers[d := Releasing(0)])
      else s.(dispatchers := others, canceled := s.canceled + 1)
    case Releasing(k) =>
      if k < |s.inputs| then
        var t := s.(dispatchers := s.dispatchers[d := Releasing(k + 1)]);
        if Unneeded(join, s, k) then t.(inputs := s.inputs[k := s.inputs[k].(released := true)]) else t
      else s.(dispatchers := others, submitted := s.submitted + 1)
  }

  function Next<V, E>(join: Join, s: State<V, E>, e: Event<V, E>): State<V, E>
    requires Enabled(s, e)
  {
    match e
    case Complete(i, o) =>
      var was := s.inputs[i].observer;
      s.(inputs := s.inputs[i := s.inputs[i].(result := Some(o), observer := if was.Watching? then Fired else was)])
    case Attach =>
      var input := s.inputs[s.attached];
      s.(attached := s.attached + 1,
         inputs := s.inputs[s.attached := input.(observer := if input.result.Some? then Fired else Watching)])
    case Report(i) =>
      var o := s.inputs[i].result.value;
      var t := s.(inputs := s.inputs[i := s.inputs[i].(observer := Reported)], seen := s.seen + [(i, o)]);
      if s.decided then t else Taken(Decided(join, t, i, o))
    case Ignore(i) => s.(inputs := s.inputs[i := s.inputs[i].(observer := Lost)])
    case Register => Taken(s.(registering := false))
    case Dispatch(d) => Dispatched(join, s, d)
    case Release => s.(held := false)
  }

  function After<V, E>(join: Join, n: nat, es: seq<Event<V, E>>): Option<State<V, E>> {
    if es == [] then Some(Start(n)) else
      var s, e := After(join, n, es[..|es| - 1]), es[|es| - 1];
      if s.Some? && Enabled(s.value, e) then Some(Next(join, s.value, e)) else None
  }

  // ---------------------------------------------------------------------------
  // What the decision is, read off the reports in their order

  /** The position of the first report that decides by itself, or the number of reports. */
  function FirstDecisive<V, E>(join: Join, seen: seq<(nat, Outcome<V, E>)>): (k: nat)
    ensures k <= |seen|
    ensures k < |seen| ==> (seen[k].1.Value? <==> join.WhenAny?)
    ensures forall j | 0 <= j < k :: seen[j].1.Value? <==> join.WhenAll?
  {
    if seen == [] then 0
    else if seen[0].1.Value? <==> join.WhenAny? then 0
    else 1 + FirstDecisive(join, seen[1..])
  }

  /** The report that settles the join: the first success of `when_any`, the first failure of `when_all`, and
      failing that the last report of all `n`. */
  function Settling<V, E>(join: Join, n: nat, seen: seq<(nat, Outcome<V, E>)>): (k: nat)
    ensures k <= |seen|
  {
    var k := FirstDecisive(join, seen);
    if k == |seen| == n && 0 < n then n - 1 else k
  }

  lemma {:induction false} FirstDecisiveStays<V, E>(
      join: Join, seen: seq<(nat, Outcome<V, E>)>, r: (nat, Outcome<V, E>))
    ensures var k := FirstDecisive(join, seen);
      FirstDecisive(join, seen + [r])
      == if k < |seen| then k else if r.1.Value? <==> join.WhenAny? then |seen| else |seen| + 1
    decreases |seen|
  {
    if seen != [] {
      assert (seen + [r])[0] == seen[0] && (seen + [r])[1..] == seen[1..] + [r];
      if !(seen[0].1.Value? <==> join.WhenAny?) { FirstDecisiveStays(join, seen[1..], r); }
    } else {
      assert (seen + [r])[1..] == [];
    }
  }

  /** The decision a join holds is the one its reports so far call for. */
  ghost predicate Right<V, E>(join: Join, s: State<V, E>) {
    var k := Settling(join, |s.inputs|, s.seen);
    && |s.seen| <= |s.inputs|
    && (s.decided <==> k < |s.seen|)
    && (!s.decided ==> s.remaining == |s.inputs| - |s.seen| && s.exception.None?)
    && (s.decided ==> s.exception == Failed(s.seen[k].1) && (join.WhenAny? ==> s.index == s.seen[k].0))
  }

  /** How many inputs have not reported. */
  function Silent<V, E>(inputs: seq<Input<V, E>>): (r: nat)
    ensures r <= |inputs|
  {
    if inputs == [] then 0 else (if inputs[0].observer.Reported? then 0 else 1) + Silent(inputs[1..])
  }

  lemma {:induction false} SilentAfter<V, E>(inputs: seq<Input<V, E>>, i: nat, input: Input<V, E>)
    requires i < |inputs|
    ensures Silent(inputs[i := input]) == Silent(inputs)
      - (if inputs[i].observer.Reported? then 0 else 1) + (if input.observer.Reported? then 0 else 1)
  {
    if i == 0 {
      assert inputs[0 := input][1..] == inputs[1..];
    } else {
      assert inputs[i := input][1..] == inputs[1..][i - 1 := input];
      SilentAfter(inputs[1..], i - 1, input);
    }
  }

  lemma {:induction false} NoneSilent<V, E>(inputs: seq<Input<V, E>>, i: nat)
    requires i < |inputs| && Silent(inputs) == 0
    ensures inputs[i].observer.Reported?
  {
    if i > 0 { NoneSilent(inputs[1..], i - 1); }
  }

  lemma {:induction false} AllSilent<V, E>(inputs: seq<Input<V, E>>)
    requires forall input | input in inputs :: !input.observer.Reported?
    ensures Silent(inputs) == |inputs|
  {
    if inputs != [] {
      assert inputs[0] in inputs;
      AllSilent(inputs[1..]);
    }
  }

  /** Observers are attached in order, and fire once, when their input is ready. */
  ghost predicate Watched<V, E>(s: State<V, E>) {
    && s.attached <= |s.inputs| && (!s.registering ==> s.attached == |s.inputs|)
    && |s.seen| + Silent(s.inputs) == |s.inputs|
    && AllConsistent(s.inputs, s.attached)
  }

  ghost predicate AllConsistent<V, E>(inputs: seq<Input<V, E>>, attached: nat) {
    forall i: nat | i < |inputs| :: Consistent(inputs[i], i < attached)
  }

  ghost predicate Consistent<V, E>(input: Input<V, E>, attached: bool) {
    && (input.observer.Unattached? <==> !attached)
    && (input.observer.Watching? ==> input.result.None?)
    && (input.observer.Fired? || input.observer.Reported? || input.observer.Lost? ==> input.result.Some?)
  }

  /** The final task exists once: until it may be taken it is with the join, then with one dispatching thread,
      and then it has been submitted, or dropped because nobody wants its result. */
  ghost predicate OneTask<V, E>(s: State<V, E>) {
    && (s.hasTask <==> s.registering || !s.decided)
    && |s.dispatchers| + s.submitted + s.canceled == (if s.hasTask then 0 else 1)
    && (s.held ==> s.canceled == 0)
  }

  /** What is released is decided, fully attached, and not needed. */
  ghost predicate Kept<V, E>(join: Join, s: State<V, E>) {
    forall i: nat | i < |s.inputs| && s.inputs[i].released ::
      s.decided && !s.registering && Unneeded(join, s, i)
  }

  /** What a decision without failure lets the final task read is there. */
  ghost predicate Readable<V, E>(join: Join, s: State<V, E>) {
    && (join.WhenAll? && s.exception.None? ==>
          forall i: nat | i < |s.inputs| && s.inputs[i].observer.Reported? :: Holds(s.inputs[i]))
    && (join.WhenAny? && s.decided && s.exception.None? ==> s.index < |s.inputs| && Holds(s.inputs[s.index]))
  }

  predicate Holds<V, E>(input: Input<V, E>) {
    input.result.Some? && input.result.value.Value?
  }

  /** One input changes, for another that is consistent too. */
  lemma InputChanges<V, E>(inputs: seq<Input<V, E>>, attached: nat, attached': nat, i: nat, input: Input<V, E>)
    requires i < |inputs| && AllConsistent(inputs, attached) && Consistent(input, i < attached')
    requires attached' == attached || attached' == attached + 1 == i + 1
    ensures AllConsistent(inputs[i := input], attached')
    ensures Silent(inputs[i := input]) == Silent(inputs)
      - (if inputs[i].observer.Reported? then 0 else 1) + (if input.observer.Reported? then 0 else 1)
  {
    hide Consistent, Silent;
    SilentAfter(inputs, i, input);
    var changed := inputs[i := input];
    forall j: nat | j < |inputs| ensures Consistent(changed[j], j < attached') {
      assert Consistent(inputs[j], j < attached);
    }
  }

  lemma OnlyDecides<V, E>(join: Join, s: State<V, E>, i: nat, o: Outcome<V, E>)
    ensures forall t | t == Taken(Decided(join, s, i, o)) || t == Taken(s) ::
      && t.inputs == s.inputs && t.attached == s.attached && t.registering == s.registering && t.seen == s.seen
      && t.held == s.held && t.submitted == s.submitted && t.canceled == s.canceled
  {
  }

  lemma WatchedStays<V, E>(join: Join, s: State<V, E>, e: Event<V, E>)
    requires Enabled(s, e) && Watched(s)
    ensures Watched(Next(join, s, e))
  {
    hide Silent, AllConsistent, Taken, Decided, Dispatched;
    match e {
      case Complete(i, o) =>
        InputIs(s, i);
        var was := s.inputs[i].observer;
        var input := Input(Some(o), s.inputs[i].released, if was.Watching? then Fired else was);
        InputChanges(s.inputs, s.attached, s.attached, i, input);
      case Attach =>
        InputIs(s, s.attached);
        var was := s.inputs[s.attached];
        InputChanges(s.inputs, s.attached, s.attached + 1, s.attached,
                     was.(observer := if was.result.Some? then Fired else Watching));
      case Report(i) => ReportWatched(join, s, i);
      case Ignore(i) =>
        InputIs(s, i);
        InputChanges(s.inputs, s.attached, s.attached, i, s.inputs[i].(observer := Lost));
      case Dispatch(d) => DispatchWatched(join, s, d);
      case Register => TakingWatched(s.(registering := false));
      case Release =>
    }
  }

  lemma InputIs<V, E>(s: State<V, E>, i: nat)
    requires i < |s.inputs| && Watched(s)
    ensures Consistent(s.inputs[i], i < s.attached)
  {
  }

  lemma TakingWatched<V, E>(s: State<V, E>)
    requires Watched(s)
    ensures Watched(Taken(s))
  {
    hide Silent, AllConsistent;
  }

  lemma ReportWatched<V, E>(join: Join, s: State<V, E>, i: nat)
    requires Enabled(s, Report(i)) && Watched(s)
    ensures Watched(Next(join, s, Report(i))) && |s.seen| < |s.inputs|
  {
    hide Silent, AllConsistent, Taken, Decided;
    InputIs(s, i);
    var o := s.inputs[i].result.value;
    InputChanges(s.inputs, s.attached, s.attached, i, s.inputs[i].(observer := Reported));
    var t := s.(inputs := s.inputs[i := s.inputs[i].(observer := Reported)], seen := s.seen + [(i, o)]);
    OnlyDecides(join, t, i, o);
  }

  lemma DispatchWatched<V, E>(join: Join, s: State<V, E>, d: nat)
    requires Enabled(s, Dispatch(d)) && Watched(s)
    ensures Watched(Next(join, s, Dispatch(d)))
  {
    hide Silent, AllConsistent, Consistent, Unneeded, Dispatched;
    OnlyReleases(join, s, d);
    if Dispatched(join, s, d).inputs != s.inputs {
      var k: nat :| k < |s.inputs| && Dispatched(join, s, d).inputs == s.inputs[k := s.inputs[k].(released := true)];
      InputIs(s, k);
      ReleasedConsistent(s.inputs[k], k < s.attached);
      InputChanges(s.inputs, s.attached, s.attached, k, s.inputs[k].(released := true));
    }
  }

  /** A dispatching thread changes at most one input, which it releases because it is not needed. */
  lemma OnlyReleases<V, E>(join: Join, s: State<V, E>, d: nat)
    requires d < |s.dispatchers|
    ensures var t := Dispatched(join, s, d);
      && t.attached == s.attached && t.registering == s.registering && t.seen == s.seen && t.decided == s.decided
      && t.remaining == s.remaining && t.index == s.index && t.exception == s.exception && t.held == s.held
      && t.hasTask == s.hasTask && |t.inputs| == |s.inputs|
      && (t.inputs == s.inputs || exists k: nat | k < |s.inputs| && Unneeded(join, s, k) ::
            t.inputs == s.inputs[k := s.inputs[k].(released := true)])
  {
  }

  lemma ReleasedConsistent<V, E>(input: Input<V, E>, attached: bool)
    requires Consistent(input, attached)
    ensures Consistent(input.(released := true), attached)
  {
  }

  lemma OneTaskStays<V, E>(join: Join, s: State<V, E>, e: Event<V, E>)
    requires Enabled(s, e) && OneTask(s)
    ensures OneTask(Next(join, s, e))
  {
    hide Decided, Dispatched;
    match e {
      case Report(i) =>
        var o := s.inputs[i].result.value;
        var t := s.(inputs := s.inputs[i := s.inputs[i].(observer := Reported)], seen := s.seen + [(i, o)]);
        DecidingLeavesTask(join, t, i, o);
      case Dispatch(d) => DispatchPassesTask(join, s, d);
      case _ =>
    }
  }

  lemma DecidingLeavesTask<V, E>(join: Join, s: State<V, E>, i: nat, o: Outcome<V, E>)
    ensures var t := Decided(join, s, i, o);
      && t.hasTask == s.hasTask && t.dispatchers == s.dispatchers && t.submitted == s.submitted
      && t.canceled == s.canceled && t.registering == s.registering && t.held == s.held && (s.decided ==> t.decided)
  {
  }

  lemma DispatchPassesTask<V, E>(join: Join, s: State<V, E>, d: nat)
    requires d < |s.dispatchers| && OneTask(s)
    ensures OneTask(Dispatched(join, s, d))
  {
    hide Unneeded;
  }

  lemma SettlingStays<V, E>(join: Join, n: nat, seen: seq<(nat, Outcome<V, E>)>, r: (nat, Outcome<V, E>))
    requires |seen| < n
    ensures var k := Settling(join, n, seen);
      Settling(join, n, seen + [r])
      == if k < |seen| then k else if (r.1.Value? <==> join.WhenAny?) || |seen| + 1 == n then |seen| else |seen| + 1
  {
    hide FirstDecisive;
    FirstDecisiveStays(join, seen, r);
  }

  lemma ReportRight<V, E>(join: Join, s: State<V, E>, i: nat, o: Outcome<V, E>)
    requires Right(join, s) && |s.seen| < |s.inputs|
    ensures Right(join, Decided(join, s.(seen := s.seen + [(i, o)]), i, o))
    ensures s.decided ==> Right(join, s.(seen := s.seen + [(i, o)]))
  {
    hide Settling;
    SettlingStays(join, |s.inputs|, s.seen, (i, o));
  }

  lemma RightStays<V, E>(join: Join, s: State<V, E>, e: Event<V, E>)
    requires Enabled(s, e) && Right(join, s) && Watched(s)
    ensures Right(join, Next(join, s, e))
  {
    hide Settling, Decided, Watched, Unneeded, Dispatched;
    match e {
      case Dispatch(d) => OnlyReleases(join, s, d);
      case Report(i) =>
        ReportWatched(join, s, i);
        var t := s.(inputs := s.inputs[i := s.inputs[i].(observer := Reported)]);
        ReportRight(join, t, i, s.inputs[i].result.value);
      case _ =>
    }
  }

  lemma KeptStays<V, E>(join: Join, s: State<V, E>, e: Event<V, E>)
    requires Enabled(s, e) && OneTask(s) && Kept(join, s)
    ensures Kept(join, Next(join, s, e))
  {
    hide Dispatched, Decided, Taken;
    match e {
      case Dispatch(d) => OnlyReleases(join, s, d);
      case Report(i) =>
        if !s.decided {
          var o := s.inputs[i].result.value;
          var t := s.(inputs := s.inputs[i := s.inputs[i].(observer := Reported)], seen := s.seen + [(i, o)]);
          OnlyDecides(join, t, i, o);
        }
      case Register => TakingKeepsInputs(s.(registering := false));
      case _ =>
    }
  }

  lemma ReadableStays<V, E>(join: Join, s: State<V, E>, e: Event<V, E>)
    requires Enabled(s, e) && Watched(s) && Right(join, s) && Readable(join, s)
    ensures Readable(join, Next(join, s, e))
  {
    hide Dispatched, Watched, Right;
    match e {
      case Dispatch(d) => OnlyReleases(join, s, d);
      case Report(i) => ReportReadable(join, s, i);
      case Complete(i, o) => InputIs(s, i);
      case Attach => InputIs(s, s.attached);
      case _ =>
    }
  }

  /** After a report in `when_all` that fails nothing, the join was not yet decided. */
  lemma NotYetDecided<V, E>(s: State<V, E>)
    requires Right(WhenAll, s) && |s.seen| < |s.inputs| && s.exception.None?
    ensures !s.decided
  {
  }

  lemma ReportReadable<V, E>(join: Join, s: State<V, E>, i: nat)
    requires Enabled(s, Report(i)) && Watched(s) && Right(join, s) && Readable(join, s)
    ensures Readable(join, Next(join, s, Report(i)))
  {
    hide Watched, Right;
    ReportWatched(join, s, i);
    NoFailureYet(join, s);
    if join.WhenAll? && s.exception.None? { NotYetDecided(s); }
  }

  lemma NoFailureYet<V, E>(join: Join, s: State<V, E>)
    requires Right(join, s)
    ensures !s.decided ==> s.exception.None?
  {
  }

  /** The reports are those of the inputs that have reported, one for each, and say what the inputs hold. */
  ghost predicate Logged<V, E>(s: State<V, E>) {
    && (forall j: nat | j < |s.seen| :: Entry(s.inputs, s.seen[j]))
    && (forall i: nat, j: nat | i < j < |s.seen| :: s.seen[i].0 != s.seen[j].0)
    && (forall i: nat | i < |s.inputs| && s.inputs[i].observer.Reported? :: HasEntry(s.seen, i))
  }

  ghost predicate Entry<V, E>(inputs: seq<Input<V, E>>, r: (nat, Outcome<V, E>)) {
    r.0 < |inputs| && inputs[r.0].observer.Reported? && inputs[r.0].result == Some(r.1)
  }

  ghost predicate HasEntry<V, E>(seen: seq<(nat, Outcome<V, E>)>, i: nat) {
    exists j: nat | j < |seen| :: seen[j].0 == i
  }

  /** A report is final, and only its own event makes one. */
  lemma ReportsStay<V, E>(join: Join, s: State<V, E>, e: Event<V, E>, i: nat)
    requires Enabled(s, e) && Watched(s) && i < |s.inputs|
    ensures var t := Next(join, s, e);
      && |t.inputs| == |s.inputs|
      && (s.inputs[i].observer.Reported? ==>
            t.inputs[i].observer.Reported? && t.inputs[i].result == s.inputs[i].result && (e.Report? ==> e.i != i))
      && (t.inputs[i].observer.Reported? ==> s.inputs[i].observer.Reported? || (e.Report? && e.i == i))
      && (e.Report? && e.i == i ==> t.inputs[i] == s.inputs[i].(observer := Reported))
      && t.seen == s.seen + (if e.Report? then [(e.i, s.inputs[e.i].result.value)] else [])
  {
    hide Decided, Taken, Dispatched, Watched;
    InputIs(s, i);
    match e {
      case Dispatch(d) => OnlyReleases(join, s, d);
      case Report(j) =>
        var o := s.inputs[j].result.value;
        var t := s.(inputs := s.inputs[j := s.inputs[j].(observer := Reported)], seen := s.seen + [(j, o)]);
        OnlyDecides(join, t, j, o);
      case Register => TakingKeepsInputs(s.(registering := false));
      case Attach => InputIs(s, s.attached);
      case _ =>
    }
  }

  lemma LoggedStays<V, E>(join: Join, s: State<V, E>, e: Event<V, E>)
    requires Enabled(s, e) && Watched(s) && Logged(s) && 0 < |s.inputs|
    ensures Logged(Next(join, s, e))
  {
    hide Next, Watched;
    var t := Next(join, s, e);
    SameInputs(join, s, e);
    ReportsStay(join, s, e, 0);
    forall j: nat | j < |t.seen| ensures Entry(t.inputs, t.seen[j]) {
      if j < |s.seen| { assert Entry(s.inputs, s.seen[j]); }
      ReportsStay(join, s, e, t.seen[j].0);
    }
    forall i: nat | i < |s.seen| && e.Report? ensures s.seen[i].0 != e.i {
      assert Entry(s.inputs, s.seen[i]);
      ReportsStay(join, s, e, s.seen[i].0);
    }
    forall i: nat | i < |t.inputs| && t.inputs[i].observer.Reported? ensures HasEntry(t.seen, i) {
      ReportsStay(join, s, e, i);
      if s.inputs[i].observer.Reported? {
        assert HasEntry(s.seen, i);
        var j: nat :| j < |s.seen| && s.seen[j].0 == i;
        assert t.seen[j].0 == i;
      } else {
        assert t.seen[|s.seen|].0 == i;
      }
    }
  }

  ghost predicate Sound<V, E>(join: Join, n: nat, s: State<V, E>) {
    && |s.inputs| == n
    && Watched(s) && OneTask(s) && Right(join, s) && Kept(join, s) && Readable(join, s) && Logged(s)
  }

  lemma StartIsSound<V, E>(join: Join, n: nat)
    requires 0 < n
    ensures Sound(join, n, Start<V, E>(n))
  {
    AllSilent(Start<V, E>(n).inputs);
  }

  lemma SameInputs<V, E>(join: Join, s: State<V, E>, e: Event<V, E>)
    requires Enabled(s, e)
    ensures |Next(join, s, e).inputs| == |s.inputs|
  {
    hide Decided, Taken, Dispatched;
    match e {
      case Dispatch(d) => OnlyReleases(join, s, d);
      case Report(i) =>
        var o := s.inputs[i].result.value;
        var t := s.(inputs := s.inputs[i := s.inputs[i].(observer := Reported)], seen := s.seen + [(i, o)]);
        OnlyDecides(join, t, i, o);
      case Register => TakingKeepsInputs(s.(registering := false));
      case _ =>
    }
  }

  lemma TakingKeepsInputs<V, E>(s: State<V, E>)
    ensures Taken(s).inputs == s.inputs && Taken(s).seen == s.seen
  {
  }

  /** In every interleaving of completions, observers, registration, dispatch and cancellation. */
  lemma {:induction false} EveryRunIsSound<V, E>(join: Join, n: nat, es: seq<Event<V, E>>)
    requires 0 < n && After(join, n, es).Some?
    ensures Sound(join, n, After(join, n, es).value)
    decreases |es|
  {
    hide Watched, OneTask, Right, Kept, Readable, Logged, Next, Enabled;
    if es == [] {
      StartIsSound<V, E>(join, n);
    } else {
      EveryRunIsSound(join, n, es[..|es| - 1]);
      var s, e := After(join, n, es[..|es| - 1]).value, es[|es| - 1];
      SameInputs(join, s, e);
      WatchedStays(join, s, e);
      OneTaskStays(join, s, e);
      RightStays(join, s, e);
      KeptStays(join, s, e);
      ReadableStays(join, s, e);
      LoggedStays(join, s, e);
    }
  }

  /** The final task is submitted at most once, never before a decision or during registration; and exactly once
      when there is a decision, registration has ended, the thread that took the final task is done with it, and the
      result is still wanted. */
  lemma DispatchedOnce<V, E>(join: Join, n: nat, es: seq<Event<V, E>>)
    requires 0 < n && After(join, n, es).Some?
    ensures var s := After(join, n, es).value;
      && s.submitted <= 1
      && (s.submitted == 1 ==> s.decided && !s.registering)
      && (s.decided && !s.registering && s.dispatchers == [] && s.held ==> s.submitted == 1)
  {
    hide After, Watched, Right, Kept, Readable, Logged;
    EveryRunIsSound(join, n, es);
  }

  /** How many steps a dispatching thread still has to take. */
  function Work(d: Dispatcher, n: nat): nat {
    match d
    case Took => n + 2
    case Releasing(k) => if k <= n then n - k + 1 else 1
  }

  function Works(ds: seq<Dispatcher>, n: nat): nat {
    if ds == [] then 0 else Works(ds[..|ds| - 1], n) + Work(ds[|ds| - 1], n)
  }

  function Dispatches<V, E>(es: seq<Event<V, E>>): nat {
    if es == [] then 0 else Dispatches(es[..|es| - 1]) + if es[|es| - 1].Dispatch? then 1 else 0
  }

  lemma OneWorks(ds: seq<Dispatcher>, n: nat)
    requires |ds| <= 1
    ensures Works(ds, n) == if ds == [] then 0 else Work(ds[0], n)
    ensures Works(ds, n) <= n + 2 && (Works(ds, n) == 0 <==> ds == [])
  {
    if |ds| == 1 { assert Works(ds[..0], n) == 0; }
  }

  /** What the final task has still before it. */
  function TaskWork<V, E>(s: State<V, E>, n: nat): nat {
    (if s.registering then 1 else 0) + (if s.hasTask then n + 2 else 0) + Works(s.dispatchers, n)
  }

  /** A dispatch lowers it, and so does the end of registration; nothing raises it. */
  lemma EveryDispatchCounts<V, E>(join: Join, s: State<V, E>, e: Event<V, E>)
    requires Enabled(s, e) && OneTask(s)
    ensures var t, n := Next(join, s, e), |s.inputs|;
      && (s.decided ==> t.decided) && (!s.registering ==> !t.registering) && |t.inputs| == n
      && (!s.hasTask ==> !t.hasTask)
      && TaskWork(t, n) <= TaskWork(s, n) - (if e.Dispatch? || e.Register? then 1 else 0)
  {
    hide Decided, Taken, Dispatched, Works;
    var t, n := Next(join, s, e), |s.inputs|;
    OneWorks(s.dispatchers, n);
    match e {
      case Dispatch(d) => OnlyReleases(join, s, d); DispatchWorks(join, s, d);
      case Report(i) => ReportLeaves(join, s, i); OneMoved(s.hasTask, s.dispatchers, t.hasTask, t.dispatchers, n);
      case Register =>
        TakingLeaves(s.(registering := false));
        OneMoved(s.hasTask, s.dispatchers, t.hasTask, t.dispatchers, n);
      case _ =>
    }
  }

  lemma OneMoved(had: bool, ds: seq<Dispatcher>, has: bool, ds': seq<Dispatcher>, n: nat)
    requires MovesTask(had, ds, has, ds') && |ds| <= (if had then 0 else 1)
    ensures (if has then n + 2 else 0) + Works(ds', n) == (if had then n + 2 else 0) + Works(ds, n)
  {
    OneWorks(ds, n);
    OneWorks(ds', n);
    assert had && !has ==> ds' == [Took];
  }

  lemma DispatchWorks<V, E>(join: Join, s: State<V, E>, d: nat)
    requires d < |s.dispatchers| && OneTask(s)
    ensures Works(Dispatched(join, s, d).dispatchers, |s.inputs|) < Works(s.dispatchers, |s.inputs|)
  {
    var t := Dispatched(join, s, d);
    assert d == 0 && s.dispatchers[..0] + s.dispatchers[1..] == [];
    OneWorks(s.dispatchers, |s.inputs|);
    OneWorks(t.dispatchers, |s.inputs|);
  }

  /** After a decision and the end of registration there are at most `n + 2` steps of dispatching, and then the final
      task has been submitted, if its result is still wanted; until then the next one can be taken. */
  lemma {:induction false} DispatchEnds<V, E>(join: Join, n: nat, es: seq<Event<V, E>>, more: seq<Event<V, E>>)
    requires 0 < n && After(join, n, es + more).Some?
    requires After(join, n, es).Some? ==> After(join, n, es).value.decided && !After(join, n, es).value.registering
    ensures var t := After(join, n, es + more).value;
      && After(join, n, es).Some? && t.decided && !t.registering && !t.hasTask && |t.inputs| == n
      && Dispatches(more) + Works(t.dispatchers, n) <= Works(After(join, n, es).value.dispatchers, n) <= n + 2
      && (Dispatches(more) == n + 2 && t.held ==> t.submitted == 1)
      && (t.held && t.submitted != 1 ==> Enabled(t, Event<V, E>.Dispatch(0)))
    decreases |more|
  {
    hide Next, Watched, Right, Kept, Readable, Logged, Works;
    if more == [] {
      assert es + more == es;
      EveryRunIsSound(join, n, es);
      OneWorks(After(join, n, es).value.dispatchers, n);
    } else {
      var less := more[..|more| - 1];
      assert (es + more)[..|es + more| - 1] == es + less && (es + more)[|es + more| - 1] == more[|more| - 1];
      DispatchEnds(join, n, es, less);
      EveryRunIsSound(join, n, es + less);
      EveryRunIsSound(join, n, es + more);
      EveryDispatchCounts(join, After(join, n, es + less).value, more[|more| - 1]);
      OneWorks(After(join, n, es + more).value.dispatchers, n);
    }
  }

  /** So a join that is decided and fully registered, and whose result is wanted, can always go on to submit the final
      task. */
  lemma {:induction false} DispatchSubmits<V, E>(join: Join, n: nat, es: seq<Event<V, E>>)
    returns (more: seq<Event<V, E>>)
    requires 0 < n && After(join, n, es).Some?
    requires var s := After(join, n, es).value; s.decided && !s.registering && s.held
    ensures |more| <= n + 2 && forall i | 0 <= i < |more| :: more[i].Dispatch?
    ensures After(join, n, es + more).Some? && After(join, n, es + more).value.submitted == 1
    ensures |more| <= Works(After(join, n, es).value.dispatchers, n)
    decreases Works(After(join, n, es).value.dispatchers, n)
  {
    hide Works, Sound, Enabled, Next;
    var s := After(join, n, es).value;
    EveryRunIsSound(join, n, es);
    SoundTask(join, n, s);
    OneWorks(s.dispatchers, n);
    if s.submitted == 1 {
      more := [];
      assert es + more == es;
    } else {
      var e := Event<V, E>.Dispatch(0);
      assert (es + [e])[..|es|] == es;
      EveryDispatchCounts(join, s, e);
      HeldNextOnly(join, s, e);
      var rest := DispatchSubmits(join, n, es + [e]);
      more := [e] + rest;
      assert es + more == es + [e] + rest;
    }
  }

  lemma SoundTask<V, E>(join: Join, n: nat, s: State<V, E>)
    requires Sound(join, n, s)
    ensures OneTask(s) && Watched(s) && |s.inputs| == n && |s.dispatchers| <= 1
    ensures s.decided && !s.registering ==> !s.hasTask
    ensures s.decided && !s.registering && s.held && s.submitted != 1 ==> Enabled(s, Event<V, E>.Dispatch(0))
  {
    hide Watched, Right, Kept, Readable, Logged;
  }

  // ---------------------------------------------------------------------------
  // A join whose inputs are complete comes to its end

  /** The result is wanted until its future goes away, and no observer is lost before that. */
  lemma {:induction false} HeldUntilReleased<V, E>(join: Join, n: nat, es: seq<Event<V, E>>)
    requires After(join, n, es).Some?
    ensures var s := After(join, n, es).value;
      && (s.held <==> Event<V, E>.Release !in es)
      && (forall i: nat | i < |s.inputs| && s.inputs[i].observer.Lost? :: !s.held)
    decreases |es|
  {
    hide Enabled;
    if es != [] {
      var before, e := es[..|es| - 1], es[|es| - 1];
      assert es == before + [e];
      HeldUntilReleased(join, n, before);
      HeldNext(join, After(join, n, before).value, e);
    }
  }

  lemma HeldNext<V, E>(join: Join, s: State<V, E>, e: Event<V, E>)
    requires Enabled(s, e) && forall i: nat | i < |s.inputs| && s.inputs[i].observer.Lost? :: !s.held
    ensures var t := Next(join, s, e);
      && (t.held <==> s.held && !e.Release?)
      && (forall i: nat | i < |t.inputs| && t.inputs[i].observer.Lost? :: !t.held)
  {
    hide Next, Enabled;
    var t := Next(join, s, e);
    HeldNextOnly(join, s, e);
    forall i: nat | i < |t.inputs| && t.inputs[i].observer.Lost? ensures !t.held { LostNext(join, s, e, i); }
  }

  lemma LostNext<V, E>(join: Join, s: State<V, E>, e: Event<V, E>, i: nat)
    requires Enabled(s, e) && i < |Next(join, s, e).inputs|
    ensures |Next(join, s, e).inputs| == |s.inputs|
    ensures Next(join, s, e).inputs[i].observer.Lost? ==> s.inputs[i].observer.Lost? || !s.held
  {
    hide Decided, Dispatched;
    match e {
      case Report(j) => ReportedInputs(join, s, j);
      case Dispatch(d) => OnlyReleases(join, s, d);
      case Register => TakingKeepsInputs(s);
      case _ =>
    }
  }

  function ToDo<V, E>(input: Input<V, E>): nat {
    (if input.result.None? then 1 else 0)
    + match input.observer case Unattached => 3 case Watching => 2 case Fired => 1 case _ => 0
  }

  function ToDos<V, E>(inputs: seq<Input<V, E>>): nat {
    if inputs == [] then 0 else ToDo(inputs[0]) + ToDos(inputs[1..])
  }

  lemma {:induction false} ToDosAfter<V, E>(inputs: seq<Input<V, E>>, i: nat, input: Input<V, E>)
    requires i < |inputs|
    ensures ToDos(inputs[i := input]) == ToDos(inputs) - ToDo(inputs[i]) + ToDo(input)
  {
    if i == 0 {
      assert inputs[0 := input][1..] == inputs[1..];
    } else {
      assert inputs[i := input][1..] == inputs[1..][i - 1 := input];
      ToDosAfter(inputs[1..], i - 1, input);
    }
  }

  /** What a join still has before it, other than that its future goes away. */
  function Ahead<V, E>(s: State<V, E>, n: nat): nat {
    ToDos(s.inputs) + TaskWork(s, n)
  }

  /** Every event but that one brings the end nearer. */
  lemma EveryEventCounts<V, E>(join: Join, n: nat, s: State<V, E>, e: Event<V, E>)
    requires Enabled(s, e) && Sound(join, n, s)
    ensures Ahead(Next(join, s, e), n) < Ahead(s, n) || (e.Release? && Ahead(Next(join, s, e), n) == Ahead(s, n))
  {
    hide Sound, Next, Enabled, ToDos, TaskWork, OneTask, Watched;
    SoundTask(join, n, s);
    EveryDispatchCounts(join, s, e);
    ToDosNext(join, s, e);
    if e.Release? { ReleaseLeaves(join, s, n); }
  }

  lemma ReleaseLeaves<V, E>(join: Join, s: State<V, E>, n: nat)
    requires Enabled<V, E>(s, Release)
    ensures TaskWork(Next<V, E>(join, s, Release), n) == TaskWork(s, n)
  {
  }

  lemma ToDosNext<V, E>(join: Join, s: State<V, E>, e: Event<V, E>)
    requires Enabled(s, e) && Watched(s)
    ensures var t := Next(join, s, e);
      if e.Complete? || e.Attach? || e.Report? || e.Ignore? then ToDos(t.inputs) < ToDos(s.inputs)
      else ToDos(t.inputs) == ToDos(s.inputs)
  {
    hide Decided, Taken, Dispatched, ToDos, Watched;
    var t := Next(join, s, e);
    match e {
      case Complete(i, _) => ToDosAfter(s.inputs, i, t.inputs[i]);
      case Attach => InputIs(s, s.attached); ToDosAfter(s.inputs, s.attached, t.inputs[s.attached]);
      case Report(i) => ToDosAfter(s.inputs, i, s.inputs[i].(observer := Reported)); ReportedInputs(join, s, i);
      case Ignore(i) => ToDosAfter(s.inputs, i, t.inputs[i]);
      case Dispatch(d) => EveryDispatchInputs(join, s, d);
      case Register => TakingLeaves(s.(registering := false));
      case _ =>
    }
  }

  lemma ReportedInputs<V, E>(join: Join, s: State<V, E>, i: nat)
    requires Enabled<V, E>(s, Report(i))
    ensures Next<V, E>(join, s, Report(i)).inputs == s.inputs[i := s.inputs[i].(observer := Reported)]
  {
  }

  lemma EveryDispatchInputs<V, E>(join: Join, s: State<V, E>, d: nat)
    requires d < |s.dispatchers|
    ensures ToDos(Dispatched(join, s, d).inputs) == ToDos(s.inputs)
  {
    if s.dispatchers[d].Releasing? && s.dispatchers[d].k < |s.inputs| {
      var k := s.dispatchers[d].k;
      ToDosAfter(s.inputs, k, s.inputs[k].(released := true));
    }
  }

  /** A run of a join of `n` inputs has at most `5 * n + 4` events. */
  lemma {:induction false} RunsEnd<V, E>(join: Join, n: nat, es: seq<Event<V, E>>)
    requires 0 < n && After(join, n, es).Some?
    ensures var s := After(join, n, es).value; |es| + Ahead(s, n) + (if s.held then 1 else 0) <= 5 * n + 4
    decreases |es|
  {
    hide Enabled, Next, Sound, Ahead;
    EveryRunIsSound(join, n, es);
    if es == [] {
      StartAhead<V, E>(n);
    } else {
      var before, e := es[..|es| - 1], es[|es| - 1];
      RunsEnd(join, n, before);
      EveryRunIsSound(join, n, before);
      var s := After(join, n, before).value;
      HeldNextOnly(join, s, e);
      SoundSize(join, n, s);
      EveryEventCounts(join, n, s, e);
    }
  }

  lemma SoundSize<V, E>(join: Join, n: nat, s: State<V, E>)
    requires Sound(join, n, s)
    ensures |s.inputs| == n
  {
  }

  lemma HeldNextOnly<V, E>(join: Join, s: State<V, E>, e: Event<V, E>)
    requires Enabled(s, e)
    ensures Next(join, s, e).held <==> s.held && !e.Release?
    ensures e.Release? ==> s.held
  {
    hide Decided, Taken, Dispatched;
    match e {
      case Dispatch(d) => OnlyReleases(join, s, d);
      case Report(i) => ReportLeaves(join, s, i);
      case Register => TakingLeaves(s.(registering := false));
      case _ =>
    }
  }

  /** What a report and its decision leave as it was; at most the final task is taken. */
  lemma ReportLeaves<V, E>(join: Join, s: State<V, E>, i: nat)
    requires Enabled<V, E>(s, Report(i))
    ensures var t := Next<V, E>(join, s, Report(i));
      && t.held == s.held && t.submitted == s.submitted && t.canceled == s.canceled && t.registering == s.registering
      && t.inputs == s.inputs[i := s.inputs[i].(observer := Reported)]
      && (s.decided ==> t.decided)
      && MovesTask(s.hasTask, s.dispatchers, t.hasTask, t.dispatchers)
  {
    hide Decided, Taken;
    var o := s.inputs[i].result.value;
    var t := s.(inputs := s.inputs[i := s.inputs[i].(observer := Reported)], seen := s.seen + [(i, o)]);
    DecidingLeavesTask(join, t, i, o);
    TakingLeaves(Decided(join, t, i, o));
    OnlyDecides(join, t, i, o);
  }

  ghost predicate MovesTask(had: bool, ds: seq<Dispatcher>, has: bool, ds': seq<Dispatcher>) {
    (has == had && ds' == ds) || (had && !has && ds' == ds + [Took])
  }

  lemma TakingLeaves<V, E>(s: State<V, E>)
    ensures var t := Taken(s);
      && t.held == s.held && t.submitted == s.submitted && t.canceled == s.canceled && t.registering == s.registering
      && t.inputs == s.inputs && t.decided == s.decided
      && MovesTask(s.hasTask, s.dispatchers, t.hasTask, t.dispatchers)
  {
  }

  lemma StartAhead<V, E>(n: nat)
    ensures Start<V, E>(n).held && Ahead(Start<V, E>(n), n) == 5 * n + 3
  {
    StartToDos<V, E>(n);
    assert Works([], n) == 0;
  }

  lemma {:induction false} StartToDos<V, E>(n: nat)
    ensures ToDos(Start<V, E>(n).inputs) == 4 * n
  {
    if n > 0 {
      StartToDos<V, E>(n - 1);
      assert Start<V, E>(n).inputs[1..] == Start<V, E>(n - 1).inputs;
    }
  }

  /** When its inputs are complete, its result is wanted, and no thread can take a step, a join has submitted its final
      task: no order of completion, attachment and report leaves it hanging. */
  lemma StuckIsSubmitted<V, E>(join: Join, n: nat, es: seq<Event<V, E>>)
    requires 0 < n && After(join, n, es).Some? && Event<V, E>.Release !in es
    requires forall input | input in After(join, n, es).value.inputs :: input.result.Some?
    requires forall e | Enabled(After(join, n, es).value, e) :: e.Release? || e.Complete?
    ensures After(join, n, es).value.decided && After(join, n, es).value.submitted == 1
  {
    hide After, Right, Kept, Readable, Logged, Silent;
    EveryRunIsSound(join, n, es);
    HeldUntilReleased(join, n, es);
    var s := After(join, n, es).value;
    assert !Enabled<V, E>(s, Attach) && !Enabled<V, E>(s, Register) && !Enabled<V, E>(s, Dispatch(0));
    forall input | input in s.inputs ensures input.observer.Reported? {
      var i: nat :| i < |s.inputs| && s.inputs[i] == input;
      assert !Enabled<V, E>(s, Report(i));
      assert Consistent(s.inputs[i], i < s.attached);
    }
    ReportsDecide(join, n, es);
  }

  // ---------------------------------------------------------------------------
  // What is not needed has been let go

  /** `dispatch` has gone through the first `k` inputs. */
  ghost predicate LetGo<V, E>(join: Join, s: State<V, E>, k: nat) {
    forall i: nat | i < k && i < |s.inputs| && (s.exception.Some? || (join.WhenAny? && i != s.index)) ::
      s.inputs[i].released
  }

  ghost predicate LetsGo<V, E>(join: Join, s: State<V, E>) {
    && (s.submitted > 0 ==> LetGo(join, s, |s.inputs|))
    && (forall d: nat | d < |s.dispatchers| && s.dispatchers[d].Releasing? :: LetGo(join, s, s.dispatchers[d].k))
  }

  lemma ReleasedStay<V, E>(join: Join, s: State<V, E>, e: Event<V, E>, i: nat)
    requires Enabled(s, e) && i < |s.inputs|
    ensures |Next(join, s, e).inputs| == |s.inputs|
    ensures s.inputs[i].released ==> Next(join, s, e).inputs[i].released
  {
    hide Decided, Taken, Dispatched;
    match e {
      case Dispatch(d) => OnlyReleases(join, s, d);
      case Report(j) => ReportLeaves(join, s, j);
      case Register => TakingLeaves(s.(registering := false));
      case _ =>
    }
  }

  lemma LetGoStays<V, E>(join: Join, s: State<V, E>, e: Event<V, E>, k: nat)
    requires Enabled(s, e) && s.decided && LetGo(join, s, k)
    ensures LetGo(join, Next(join, s, e), k)
  {
    hide Next, Enabled;
    DecisionStays(join, s, e);
    var t := Next(join, s, e);
    forall i: nat | i < k && i < |t.inputs| && (t.exception.Some? || (join.WhenAny? && i != t.index))
      ensures t.inputs[i].released
    {
      if i < |s.inputs| { ReleasedStay(join, s, e, i); } else { SameInputs(join, s, e); }
    }
  }

  lemma LetsGoStays<V, E>(join: Join, s: State<V, E>, e: Event<V, E>)
    requires Enabled(s, e) && OneTask(s) && LetsGo(join, s)
    ensures LetsGo(join, Next(join, s, e))
  {
    hide LetGo, Next;
    var t := Next(join, s, e);
    SameInputs(join, s, e);
    if s.submitted > 0 { LetGoStays(join, s, e, |s.inputs|); }
    forall d: nat | d < |s.dispatchers| && s.dispatchers[d].Releasing? ensures LetGo(join, t, s.dispatchers[d].k) {
      LetGoStays(join, s, e, s.dispatchers[d].k);
    }
    if e.Dispatch? { DispatchLetsGo(join, s, e.d); } else { TaskPath(join, s, e); }
  }

  lemma TaskPath<V, E>(join: Join, s: State<V, E>, e: Event<V, E>)
    requires Enabled(s, e) && !e.Dispatch?
    ensures var t := Next(join, s, e);
      t.submitted == s.submitted && MovesTask(s.hasTask, s.dispatchers, t.hasTask, t.dispatchers)
  {
    hide Decided, Taken;
    match e {
      case Report(i) => ReportLeaves(join, s, i);
      case Register => TakingLeaves(s.(registering := false));
      case _ =>
    }
  }

  lemma DispatchLetsGo<V, E>(join: Join, s: State<V, E>, d: nat)
    requires d < |s.dispatchers| && OneTask(s) && LetsGo(join, s)
    ensures LetsGo(join, Next(join, s, Event<V, E>.Dispatch(d)))
  {
    assert d == 0 && s.dispatchers[..0] + s.dispatchers[1..] == [];
  }

  /** When the final task has been submitted, the inputs that have been let go are exactly those that it does not need:
      all of them after a failure, and all but the chosen one for `when_any`. */
  lemma {:induction false} UnneededAreReleased<V, E>(join: Join, n: nat, es: seq<Event<V, E>>)
    requires 0 < n && After(join, n, es).Some?
    ensures var s := After(join, n, es).value;
      && LetsGo(join, s)
      && (s.submitted == 1 ==> forall i: nat | i < |s.inputs| ::
            s.inputs[i].released <==> s.exception.Some? || (join.WhenAny? && i != s.index))
    decreases |es|
  {
    hide Next, Watched, OneTask, Right, Readable, Logged;
    EveryRunIsSound(join, n, es);
    if es != [] {
      UnneededAreReleased(join, n, es[..|es| - 1]);
      EveryRunIsSound(join, n, es[..|es| - 1]);
      LetsGoStays(join, After(join, n, es[..|es| - 1]).value, es[|es| - 1]);
    }
  }

  /** When every observer has reported, there is a decision: the join cannot be left hanging. */
  lemma {:induction false} ReportsDecide<V, E>(join: Join, n: nat, es: seq<Event<V, E>>)
    requires 0 < n && After(join, n, es).Some?
    requires forall input | input in After(join, n, es).value.inputs :: input.observer.Reported?
    ensures After(join, n, es).value.decided
  {
    hide After, OneTask, Kept, Readable, Logged;
    EveryRunIsSound(join, n, es);
    var s := After(join, n, es).value;
    NoneLeft(s.inputs);
  }

  lemma {:induction false} NoneLeft<V, E>(inputs: seq<Input<V, E>>)
    requires forall input | input in inputs :: input.observer.Reported?
    ensures Silent(inputs) == 0
  {
    if inputs != [] {
      assert inputs[0] in inputs;
      NoneLeft(inputs[1..]);
    }
  }

  /** A decision never changes. */
  lemma {:induction false} DecisionIsFinal<V, E>(join: Join, n: nat, es: seq<Event<V, E>>, more: seq<Event<V, E>>)
    requires 0 < n && After(join, n, es + more).Some?
    ensures After(join, n, es).Some?
    ensures var s, t := After(join, n, es).value, After(join, n, es + more).value;
      s.decided ==> t.decided && t.index == s.index && t.exception == s.exception
    decreases |more|
  {
    hide Next, Enabled;
    if more == [] {
      assert es + more == es;
    } else {
      var less := more[..|more| - 1];
      assert (es + more)[..|es + more| - 1] == es + less;
      DecisionIsFinal(join, n, es, less);
      var t := After(join, n, es + less).value;
      if t.decided { DecisionStays(join, t, more[|more| - 1]); }
    }
  }

  lemma DecisionStays<V, E>(join: Join, s: State<V, E>, e: Event<V, E>)
    requires Enabled(s, e) && s.decided
    ensures var t := Next(join, s, e); t.decided && t.index == s.index && t.exception == s.exception
  {
  }

  /** No input is let go while an observer has yet to be attached, or may still look at it. */
  lemma ObserversReadKeptInputs<V, E>(join: Join, n: nat, es: seq<Event<V, E>>, i: nat)
    requires 0 < n && After(join, n, es).Some? && i < n
    ensures var s := After(join, n, es).value;
      |s.inputs| == n && (s.inputs[i].released ==> s.decided && s.attached == n)
  {
    hide After, OneTask, Right, Readable, AllConsistent, Silent, Logged;
    EveryRunIsSound(join, n, es);
  }

  /** When the final task runs and there is no failure to report, what it reads is kept, ready, and a value:
      every input of `when_all`, the chosen input of `when_any`. */
  lemma TaskReadsKeptInputs<V, E>(join: Join, n: nat, es: seq<Event<V, E>>, i: nat)
    requires 0 < n && After(join, n, es).Some?
    requires var s := After(join, n, es).value;
      s.submitted == 1 && s.exception.None? && (if join.WhenAll? then i < n else i == s.index)
    ensures var s := After(join, n, es).value;
      i < |s.inputs| && !s.inputs[i].released && Holds(s.inputs[i])
  {
    hide After, Settling, AllConsistent, Silent, Holds, Logged;
    EveryRunIsSound(join, n, es);
    var s := After(join, n, es).value;
    if join.WhenAll? {
      if |s.seen| < n { NotYetDecided(s); }
      NoneSilent(s.inputs, i);
    }
  }

  /** The decision, as a fact about the inputs.  There is an input `d`, the one of report number `k`, whose outcome is
      the join's: `when_any` chooses it as the first success reported, or reports its failure as the last when all
      inputs have failed; `when_all` reports its failure as the first reported, or else all inputs have succeeded. */
  lemma DecisionExplained<V, E>(join: Join, n: nat, es: seq<Event<V, E>>) returns (d: nat, k: nat)
    requires 0 < n && After(join, n, es).Some? && After(join, n, es).value.decided
    ensures var s := After(join, n, es).value;
      && |s.inputs| == n && k < |s.seen| <= n && d == s.seen[k].0 < n && s.inputs[d].result.Some?
      && s.exception == Failed(s.inputs[d].result.value)
      && (forall j: nat | j < |s.seen| :: Entry(s.inputs, s.seen[j]))
      && (join.WhenAny? ==> s.index == d)
      && (join.WhenAny? && s.exception.None? ==> forall j: nat | j < k :: Fails(s.inputs[s.seen[j].0]))
      && (join.WhenAny? && s.exception.Some? ==> k == n - 1 && forall i: nat | i < n :: Fails(s.inputs[i]))
      && (join.WhenAll? && s.exception.Some? ==> forall j: nat | j < k :: Holds(s.inputs[s.seen[j].0]))
      && (join.WhenAll? && s.exception.None? ==> forall i: nat | i < n :: Holds(s.inputs[i]))
  {
    hide After, OneTask, Kept, Readable, AllConsistent, Silent;
    EveryRunIsSound(join, n, es);
    var s := After(join, n, es).value;
    k := Settling(join, n, s.seen);
    d := s.seen[k].0;
    assert Entry(s.inputs, s.seen[k]);
    forall j: nat | j < |s.seen| ensures s.seen[j].0 < n && s.inputs[s.seen[j].0].result == Some(s.seen[j].1) {
      assert Entry(s.inputs, s.seen[j]);
    }
    forall i: nat | i < n && |s.seen| == n
      ensures exists j: nat | j < n :: s.seen[j].0 == i && s.inputs[i].result == Some(s.seen[j].1)
    {
      NoneSilent(s.inputs, i);
      assert HasEntry(s.seen, i);
    }
  }

  predicate Fails<V, E>(input: Input<V, E>) {
    input.result.Some? && input.result.value.Failure?
  }

  // ---------------------------------------------------------------------------
  // First to complete and first to report

  /** The completions of a run, in order. */
  function Completions<V, E>(es: seq<Event<V, E>>): seq<(nat, Outcome<V, E>)> {
    if es == [] then [] else
      var e := es[|es| - 1];
      Completions(es[..|es| - 1]) + if e.Complete? then [(e.i, e.o)] else []
  }

  lemma Extended<V, E>(join: Join, n: nat, es: seq<Event<V, E>>, e: Event<V, E>)
    requires After(join, n, es).Some? && Enabled(After(join, n, es).value, e)
    ensures After(join, n, es + [e]) == Some(Next(join, After(join, n, es).value, e))
    ensures Completions(es + [e]) == Completions(es) + if e.Complete? then [(e.i, e.o)] else []
  {
    assert (es + [e])[..|es|] == es;
  }

  /** A run of `when_any` in which input 0 is the first to complete, and to succeed, and input 1 is chosen, because
      its observer is the first to report. */
  lemma AnyTakesFirstReport<V, E>(v: V, w: V) returns (es: seq<Event<V, E>>)
    ensures After(WhenAny, 2, es).Some? && Completions(es) == [(0, Value(v)), (1, Value(w))]
    ensures var s := After(WhenAny, 2, es).value; s.decided && s.exception.None? && s.index == 1
  {
    hide After, Completions;
    es := TwoComplete(v, w);
    Extended(WhenAny, 2, es, Report(1));
    es := es + [Report(1)];
  }

  lemma TwoComplete<V, E>(v: V, w: V) returns (es: seq<Event<V, E>>)
    ensures After(WhenAny, 2, es).Some? && Completions(es) == [(0, Value(v)), (1, Value(w))]
    ensures var s := After(WhenAny, 2, es).value;
      && !s.decided && s.remaining == 2 && !s.registering && s.hasTask && |s.inputs| == 2
      && s.inputs[0] == Input(Some(Value(v)), false, Fired) && s.inputs[1] == Input(Some(Value(w)), false, Fired)
  {
    hide Completions;
    es := BothAttached<V, E>();
    var s := After(WhenAny, 2, es).value;
    Extended(WhenAny, 2, es, Complete(0, Value(v)));
    es := es + [Complete(0, Value(v))];
    Extended(WhenAny, 2, es, Complete(1, Value(w)));
    es := es + [Complete(1, Value(w))];
  }

  lemma BothAttached<V, E>() returns (es: seq<Event<V, E>>)
    ensures After(WhenAny, 2, es).Some? && Completions(es) == []
    ensures var s := After(WhenAny, 2, es).value;
      && !s.decided && s.remaining == 2 && !s.registering && s.hasTask
      && s.inputs == [Input(None, false, Watching), Input(None, false, Watching)]
  {
    es := [];
    Extended<V, E>(WhenAny, 2, es, Attach);
    es := es + [Attach];
    Extended<V, E>(WhenAny, 2, es, Attach);
    es := es + [Attach];
    Extended<V, E>(WhenAny, 2, es, Register);
    es := es + [Register];
  }

  /** Each completion is reported before the next. */
  predicate Prompt<V, E>(join: Join, n: nat, es: seq<Event<V, E>>) {
    es != [] ==>
      var before := es[..|es| - 1];
      && Prompt(join, n, before)
      && (es[|es| - 1].Complete? && After(join, n, before).Some? ==> AllReported(After(join, n, before).value))
  }

  predicate AllReported<V, E>(s: State<V, E>) {
    forall i: nat | i < |s.inputs| && s.inputs[i].result.Some? :: s.inputs[i].observer.Reported?
  }

  /** The completions `done` are those of the inputs, one for each, and all but perhaps the last are reported. */
  ghost predicate InStep<V, E>(s: State<V, E>, done: seq<(nat, Outcome<V, E>)>) {
    && |s.seen| <= |done| <= |s.seen| + 1 && s.seen == done[..|s.seen|]
    && (forall j: nat | j < |done| :: done[j].0 < |s.inputs| && s.inputs[done[j].0].result == Some(done[j].1))
    && (forall i: nat, j: nat | i < j < |done| :: done[i].0 != done[j].0)
    && (forall i: nat | i < |s.inputs| && s.inputs[i].result.Some? :: HasEntry(done, i))
  }

  lemma {:induction false} PromptKeepsStep<V, E>(join: Join, n: nat, es: seq<Event<V, E>>)
    requires 0 < n && After(join, n, es).Some? && Prompt(join, n, es)
    ensures InStep(After(join, n, es).value, Completions(es))
    decreases |es|
  {
    hide Next, Enabled, InStep, Sound;
    if es == [] {
      NothingDone<V, E>(n);
    } else {
      var before, e := es[..|es| - 1], es[|es| - 1];
      PromptKeepsStep(join, n, before);
      EveryRunIsSound(join, n, before);
      StepKept(join, n, After(join, n, before).value, e, Completions(before));
    }
  }

  lemma NothingDone<V, E>(n: nat)
    ensures InStep<V, E>(Start(n), [])
  {
  }

  lemma StepKept<V, E>(join: Join, n: nat, s: State<V, E>, e: Event<V, E>, done: seq<(nat, Outcome<V, E>)>)
    requires 0 < n && Enabled(s, e) && Sound(join, n, s) && InStep(s, done)
    requires e.Complete? ==> AllReported(s)
    ensures InStep(Next(join, s, e), done + if e.Complete? then [(e.i, e.o)] else [])
  {
    hide Next, Watched, OneTask, Right, Kept, Readable, InStep, Logged;
    var t := Next(join, s, e);
    SameInputs(join, s, e);
    ReportsStay(join, s, e, 0);
    forall i: nat | i < n
      ensures t.inputs[i].result == if e.Complete? && e.i == i then Some(e.o) else s.inputs[i].result
    {
      ResultNext(join, s, e, i);
    }
    if e.Complete? {
      CompletedAllReported(s, done);
      ResultNext(join, s, e, e.i);
      StepCompletes(s, t, done, e.i, e.o);
    } else {
      assert done + [] == done;
      if e.Report? { ReportIsNext(s, done, e.i); }
      StepReports(s, t, done);
    }
  }

  lemma StepCompletes<V, E>(s: State<V, E>, t: State<V, E>, done: seq<(nat, Outcome<V, E>)>, i: nat, o: Outcome<V, E>)
    requires InStep(s, done) && done == s.seen == t.seen && |t.inputs| == |s.inputs|
    requires i < |s.inputs| && s.inputs[i].result.None?
    requires forall j: nat | j < |s.inputs| :: t.inputs[j].result == if i == j then Some(o) else s.inputs[j].result
    ensures InStep(t, done + [(i, o)])
  {
    var more := done + [(i, o)];
    forall j: nat | j < |t.inputs| && t.inputs[j].result.Some? ensures HasEntry(more, j) {
      if i == j {
        assert more[|done|].0 == i;
      } else {
        assert HasEntry(done, j);
        var m: nat :| m < |done| && done[m].0 == j;
        assert more[m].0 == j;
      }
    }
  }

  lemma StepReports<V, E>(s: State<V, E>, t: State<V, E>, done: seq<(nat, Outcome<V, E>)>)
    requires InStep(s, done) && |t.inputs| == |s.inputs|
    requires forall j: nat | j < |s.inputs| :: t.inputs[j].result == s.inputs[j].result
    requires t.seen == s.seen || (|done| == |s.seen| + 1 && t.seen == s.seen + [done[|s.seen|]])
    ensures InStep(t, done)
  {
  }

  lemma ResultNext<V, E>(join: Join, s: State<V, E>, e: Event<V, E>, i: nat)
    requires Enabled(s, e) && i < |s.inputs| == |Next(join, s, e).inputs|
    ensures Next(join, s, e).inputs[i].result == if e.Complete? && e.i == i then Some(e.o) else s.inputs[i].result
    ensures e.Complete? ==> s.inputs[e.i].result.None?
  {
    hide Decided, Taken, Dispatched;
    match e {
      case Dispatch(d) => OnlyReleases(join, s, d);
      case Report(j) =>
        var o := s.inputs[j].result.value;
        var t := s.(inputs := s.inputs[j := s.inputs[j].(observer := Reported)], seen := s.seen + [(j, o)]);
        OnlyDecides(join, t, j, o);
      case Register => TakingKeepsInputs(s.(registering := false));
      case _ =>
    }
  }

  lemma CompletedAllReported<V, E>(s: State<V, E>, done: seq<(nat, Outcome<V, E>)>)
    requires Logged(s) && InStep(s, done) && AllReported(s)
    ensures done == s.seen
  {
    if |done| > |s.seen| { LastUnreported(s, done); }
  }

  lemma LastUnreported<V, E>(s: State<V, E>, done: seq<(nat, Outcome<V, E>)>)
    requires InStep(s, done) && |done| > |s.seen|
    ensures !HasEntry(s.seen, done[|s.seen|].0) && s.inputs[done[|s.seen|].0].result.Some?
  {
    forall j: nat | j < |s.seen| ensures s.seen[j].0 != done[|s.seen|].0 { assert s.seen[j] == done[j]; }
  }

  lemma ReportIsNext<V, E>(s: State<V, E>, done: seq<(nat, Outcome<V, E>)>, i: nat)
    requires Logged(s) && InStep(s, done) && Enabled(s, Report(i))
    ensures |done| == |s.seen| + 1 && done[|s.seen|] == (i, s.inputs[i].result.value)
  {
    assert HasEntry(done, i);
    forall j: nat | j < |s.seen| ensures s.seen[j].0 != i { assert Entry(s.inputs, s.seen[j]); }
  }

  /** When each completion is reported before the next, `when_any` takes the first input to complete with success,
      or the failure of the last to complete. */
  lemma PromptAnyTakesFirst<V, E>(n: nat, es: seq<Event<V, E>>) returns (k: nat)
    requires 0 < n && After(WhenAny, n, es).Some? && Prompt(WhenAny, n, es) && After(WhenAny, n, es).value.decided
    ensures var s, done := After(WhenAny, n, es).value, Completions(es);
      && k < |done| && done[k].0 == s.index && s.exception == Failed(done[k].1)
      && (forall j: nat | j < k :: done[j].1.Failure?)
      && (s.exception.Some? ==> k == n - 1)
  {
    hide After, Watched, OneTask, Kept, Readable, Logged, Prompt, Completions;
    PromptKeepsStep(WhenAny, n, es);
    EveryRunIsSound(WhenAny, n, es);
    k := Settling(WhenAny, n, After(WhenAny, n, es).value.seen);
  }

  lemma TaskIsThere<V, E>(s: State<V, E>)
    requires OneTask(s)
    ensures !s.decided ==> s.hasTask
  {
  }

  // ---------------------------------------------------------------------------
  // The join itself; every method is one locked region, or one step of a thread outside the lock

  class WhenShared<V, E> {
    const join: Join
    var inputs: seq<Input<V, E>>
    var hasTask: bool
    var remaining: int
    var index: nat
    var exception: Option<E>
    var registering: bool
    var decided: bool
    ghost var attached: nat
    ghost var dispatchers: seq<Dispatcher>
    ghost var submitted: nat
    ghost var canceled: nat
    ghost var held: bool
    ghost var seen: seq<(nat, Outcome<V, E>)>

    ghost function Now(): State<V, E>
      reads this
    {
      State(inputs, attached, registering, remaining, decided, index, exception, hasTask, dispatchers,
            submitted, canceled, held, seen)
    }

    constructor (join: Join, n: nat)
      ensures Now() == Start(n) && this.join == join
    {
      this.join := join;
      inputs := seq(n, i => Input(None, false, Unattached));
      hasTask, remaining, index, exception, registering, decided := true, n, 0, None, true, false;
      attached, dispatchers, submitted, canceled, held, seen := 0, [], 0, 0, true, [];
    }

    /** The locked region of `done`; `ready` is whether the caller goes on to dispatch. */
    method Done(i: nat) returns (ready: bool)
      requires Enabled(Now(), Report(i)) && OneTask(Now())
      modifies this
      ensures Now() == Next(join, old(Now()), Report(i))
      ensures ready <==> |dispatchers| > old(|dispatchers|)
    {
      hide Decided, OneTask, Dispatched;
      TaskIsThere(Now());
      ready := false;
      var o := inputs[i].result.value;
      seen := seen + [(i, o)];
      inputs := inputs[i := inputs[i].(observer := Reported)];
      if decided { return; }
      label Reported:
      Decide(i, o);
      OnlyDecides(join, old@Reported(Now()), i, o);
      if decided && !registering { ready := TakeTask(); }
    }

    method Decide(i: nat, o: Outcome<V, E>)
      requires !decided
      modifies `remaining, `index, `exception, `decided
      ensures Now() == Decided(join, old(Now()), i, o)
    {
      var error := Failed(o);
      if join.WhenAny? {
        if error.Some? { remaining := remaining - 1; }
        if error.None? || remaining == 0 {
          index, exception, decided := i, error, true;
        }
      } else {
        if error.None? { remaining := remaining - 1; }
        if error.Some? || remaining == 0 {
          exception, decided := error, true;
        }
      }
    }

    /** The locked region of `finish_registration`. */
    method FinishRegistration() returns (ready: bool)
      requires Enabled<V, E>(Now(), Register) && OneTask(Now())
      modifies this
      ensures Now() == Next(join, old(Now()), Register)
      ensures ready <==> |dispatchers| > old(|dispatchers|)
    {
      ready := false;
      registering := false;
      if decided { ready := TakeTask(); }
    }

    method TakeTask() returns (ready: bool)
      requires decided && !registering
      modifies `hasTask, `dispatchers
      ensures Now() == Taken(old(Now())) && ready == old(hasTask)
    {
      ready := hasTask;
      hasTask := false;
      if ready { dispatchers := dispatchers + [Took]; }
    }

    /** `dispatch` for input `k`. */
    method ReleaseInput(k: nat, ghost d: nat)
      requires d < |dispatchers| && dispatchers[d] == Releasing(k) && k < |inputs|
      modifies this
      ensures Now() == Next(join, old(Now()), Dispatch(d))
    {
      if exception.Some? || (join.WhenAny? && k != index) {
        inputs := inputs[k := inputs[k].(released := true)];
      }
      dispatchers := dispatchers[d := Releasing(k + 1)];
    }
  }
}
