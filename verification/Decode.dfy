/** `unflatten`: decoding in front of what a forest holds, and among it when the code closes more than it opens. */
module Decode {
  import opened Basics
  import opened Walks
  import opened Edits
  import opened Nodes
  import opened TreeWalks
  import opened Flat
  import opened Container
  import opened Algorithms
  import opened Rebuild

  /** A visit once the code has been read: of a new node, or one that was there. */
  datatype Slot<T> = New(code: Option<T>) | Old(visit: Position<T>)

  function Olds<T>(w: Word<Node<T>>): seq<Slot<T>> {
    seq(|w|, i requires 0 <= i < |w| => Old(w[i]))
  }

  function News<T>(code: seq<Option<T>>): seq<Slot<T>> {
    seq(|code|, i requires 0 <= i < |code| => New(code[i]))
  }

  /** What reading `code` makes of the trees `ahead`, with `open` new nodes open.  A `None` closes the node opened
      last; where none is open it passes the next tree, or after the last one goes round to the root and stays there.
      What is open at the end of the code is closed there. */
  ghost function Pattern<T>(code: seq<Option<T>>, open: nat, ahead: Trees<Node<T>>): seq<Slot<T>>
    decreases |code|
  {
    if code == [] then News(seq(open, i => None)) + Olds(WalkOf(ahead))
    else if code[0].Some? then [New(code[0])] + Pattern(code[1..], open + 1, ahead)
    else if open > 0 then [New(None)] + Pattern(code[1..], open - 1, ahead)
    else if ahead.Grow? then Olds(FirstOf(ahead)) + Pattern(code[1..], 0, ahead.rest)
    else []
  }

  function FirstOf<N>(ts: Trees<N>): Word<N>
    requires ts.Grow?
  {
    WalkOf(Grow(ts.root, ts.children, Bare))
  }

  /** Nothing may be assigned any more once the root has been reached: there is no place before the root. */
  ghost predicate Fits<T>(code: seq<Option<T>>, open: nat, ahead: Trees<Node<T>>)
    decreases |code|
  {
    if code == [] then true
    else if code[0].Some? then Fits(code[1..], open + 1, ahead)
    else if open > 0 then Fits(code[1..], open - 1, ahead)
    else if ahead.Grow? then Fits(code[1..], 0, ahead.rest)
    else AllNone(code)
  }

  ghost predicate AllNone<T>(code: seq<Option<T>>) {
    forall c | c in code :: c.None?
  }

  ghost predicate Fills<T>(v: Position<T>, slot: Slot<T>, news: set<Node<T>>) {
    match slot
    case New(c) => CodeAt(v) == c && v.node in news
    case Old(u) => v == u
  }

  ghost predicate Matches<T>(w: Word<Node<T>>, slots: seq<Slot<T>>, news: set<Node<T>>) {
    |w| == |slots| && forall i: nat | i < |w| :: Fills(w[i], slots[i], news)
  }

  // ---------------------------------------------------------------------------
  // unflatten

  /** Decodes a sequence from the beginning of `f` on. */
  method Unflatten<T>(code: seq<Option<T>>, f: Forest<T>)
    returns (out: Transcriber<T>, ghost news: set<Node<T>>, ghost added: Word<Node<T>>)
    requires f.Valid() && Fits(code, 0, f.Shape())
    modifies f`cachedSize, f`walk, NodesOf(f.walk)`next, NodesOf(f.walk)`prior
    ensures f.Valid() && fresh(news) && Matches(Inner(f), Pattern(code, 0, old(f.Shape())), news)
    ensures Height(code, 0).Some? ==>
      && f.walk == PutAt(old(f.walk), 1, added)
      && FlatOf(added) == code + seq(Height(code, 0).value, i => None)
      && FlatOf(Inner(f)) == FlatOf(added) + old(FlatOf(Inner(f)))
  {
    hide Threaded, Filled, NodesOf, Rooted, WellNested, FlatOf, Height, Decoding, Decoded, Pattern, Matches, Fits;
    hide Without, Between, InOrder, WalkOf;
    ghost var was, ts := f.walk, f.Shape();
    f.WholeRange();
    f.BothEnds();
    out := new Transcriber(f, f.Begin());
    DecodingStarts(out, code);
    news := DecodeAll(out, code, ts, Pattern(code, 0, ts));
    added := NewPart(f, was, ts, code, news);
  }

  /** The loop of `Unflatten`. */
  method DecodeAll<T>(out: Transcriber<T>, code: seq<Option<T>>, ghost ts: Trees<Node<T>>, ghost goal: seq<Slot<T>>)
    returns (ghost news: set<Node<T>>)
    requires Decoding(out, code, ts, [], goal, {})
    modifies out`i, out`done, out`pending, out`base, out`at
    modifies out.c`cachedSize, out.c`walk, NodesOf(out.c.walk)`next, NodesOf(out.c.walk)`prior
    ensures out.c.Valid() && fresh(news) && Matches(Inner(out.c), goal, news)
  {
    hide Threaded, Filled, NodesOf, Decoding, Decoded, Pattern, Matches, Fits, WalkOf;
    ghost var nodes, ahead := NodesOf(out.c.walk), ts;
    ghost var pre: seq<Slot<T>> := [];
    news := {};
    var k := 0;
    assert code[0..] == code;
    while k < |code|
      invariant 0 <= k <= |code|
      invariant Decoding(out, code[k..], ahead, pre, goal, news) || Decoded(out, code[k..], goal, news)
      invariant fresh(news) && NodesOf(out.c.walk) <= nodes + news
    {
      SplitFirst(code, k);
      ahead, pre, news := DecodeOne(out, code[k], code[k + 1..], ahead, pre, goal, news);
      k := k + 1;
    }
    assert code[k..] == [];
    DecodingEnds(out, ahead, pre, goal, news);
  }

  lemma SplitFirst<A>(s: seq<A>, k: nat)
    requires k < |s|
    ensures s[k..] == [s[k]] + s[k + 1..]
  {
  }

  /** What has been passed is what the code asked for, and the rest of the code is for the trees ahead. */
  ghost predicate Reading<T>(passed: Word<Node<T>>, pending: Word<Node<T>>, rest: seq<Option<T>>,
                             ahead: Trees<Node<T>>, pre: seq<Slot<T>>, goal: seq<Slot<T>>, news: set<Node<T>>)
  {
    && Matches(passed, pre, news)
    && (forall v | v in pending :: v.edge.Trailing? && v.node in news)
    && Fits(rest, |pending|, ahead)
    && pre + Pattern(rest, |pending|, ahead) == goal
  }

  ghost predicate Decoding<T>(out: Transcriber<T>, rest: seq<Option<T>>, ahead: Trees<Node<T>>, pre: seq<Slot<T>>,
                              goal: seq<Slot<T>>, news: set<Node<T>>)
    reads out, out.c, NodesOf(out.c.walk)
  {
    && out.Valid() && out.Ahead() == WalkOf(ahead)
    && Reading(Front(out), out.pending, rest, ahead, pre, goal, news)
  }

  /** Gone round to the root: nothing more changes. */
  ghost predicate Decoded<T>(out: Transcriber<T>, rest: seq<Option<T>>, goal: seq<Slot<T>>, news: set<Node<T>>)
    reads out, out.c, NodesOf(out.c.walk)
  {
    out.Round() && AllNone(rest) && Matches(Inner(out.c), goal, news)
  }

  /** One round of the loop of `Unflatten`. */
  method DecodeOne<T>(out: Transcriber<T>, code: Option<T>, ghost rest: seq<Option<T>>, ghost ahead: Trees<Node<T>>,
                      ghost pre: seq<Slot<T>>, ghost goal: seq<Slot<T>>, ghost news: set<Node<T>>)
    returns (ghost ahead': Trees<Node<T>>, ghost pre': seq<Slot<T>>, ghost news': set<Node<T>>)
    requires Decoding(out, [code] + rest, ahead, pre, goal, news) || Decoded(out, [code] + rest, goal, news)
    modifies out`i, out`done, out`pending, out`base, out`at
    modifies out.c`cachedSize, out.c`walk, NodesOf(out.c.walk)`next, NodesOf(out.c.walk)`prior
    ensures Decoding(out, rest, ahead', pre', goal, news') || Decoded(out, rest, goal, news')
    ensures news <= news' && fresh(news' - news) && NodesOf(out.c.walk) <= old(NodesOf(out.c.walk)) + news'
  {
    match code {
      case Some(v) =>
        ahead' := ahead;
        pre', news' := DecodeValue(out, v, rest, ahead, pre, goal, news);
      case None =>
        news' := news;
        ahead', pre' := DecodeNone(out, rest, ahead, pre, goal, news);
    }
  }

  /** `= value` and `++` */
  method DecodeValue<T>(out: Transcriber<T>, v: T, ghost rest: seq<Option<T>>, ghost ahead: Trees<Node<T>>,
                        ghost pre: seq<Slot<T>>, ghost goal: seq<Slot<T>>, ghost news: set<Node<T>>)
    returns (ghost pre': seq<Slot<T>>, ghost news': set<Node<T>>)
    requires Decoding(out, [Some(v)] + rest, ahead, pre, goal, news)
      || Decoded(out, [Some(v)] + rest, goal, news)
    modifies out`i, out`done, out`pending
    modifies out.c`cachedSize, out.c`walk, NodesOf(out.c.walk)`next, NodesOf(out.c.walk)`prior
    ensures Decoding(out, rest, ahead, pre', goal, news')
    ensures news <= news' && fresh(news' - news) && NodesOf(out.c.walk) <= old(NodesOf(out.c.walk)) + news'
  {
    hide Threaded, Filled, NodesOf, Decoding, Decoded, Reading, WalkOf, PutAt;
    MayAssign(out, v, rest, ahead, pre, goal, news);
    ghost var passed, pending := Front(out), out.pending;
    ghost var grown := out.Assign(v);
    ghost var x := out.i;
    out.Advance();
    pre', news' := pre + [New(Some(v))], news + grown + {x.node};
    Assigned(passed, pending, x, rest, ahead, pre, goal, news, news');
    assert passed + [x] == Front(out);
    assert [TrailingOf(x)] + pending == out.pending;
    StillDecoding(out, rest, ahead, pre', goal, news');
  }

  /** `trailing()` and `++` */
  method DecodeNone<T>(out: Transcriber<T>, ghost rest: seq<Option<T>>, ghost ahead: Trees<Node<T>>,
                       ghost pre: seq<Slot<T>>, ghost goal: seq<Slot<T>>, ghost news: set<Node<T>>)
    returns (ghost ahead': Trees<Node<T>>, ghost pre': seq<Slot<T>>)
    requires Decoding(out, [None] + rest, ahead, pre, goal, news) || Decoded(out, [None] + rest, goal, news)
    modifies out`i, out`done, out`pending, out`base, out`at
    ensures Decoding(out, rest, ahead', pre', goal, news) || Decoded(out, rest, goal, news)
  {
    hide Threaded, Filled, NodesOf, Decoding, Decoded, Reading, WalkOf, FirstTree, PutAt, WellNested, Matches;
    hide Pattern, Fits, News, Olds, FirstOf, AllNone;
    MayClose(out, rest, ahead, pre, goal, news);
    ghost var round, passed, pending := out.Round(), Front(out), out.pending;
    out.Close();
    ahead', pre' := ahead, pre;
    if round {
      GoneRound(out, rest, goal, news);
    } else if pending != [] {
      Closed(passed, pending, rest, ahead, pre, goal, news);
      pre' := pre + [New(None)];
      assert Front(out) == passed + [pending[0]];
      StillDecoding(out, rest, ahead', pre', goal, news);
    } else if ahead.Grow? {
      Skipped(passed, rest, ahead, pre, goal, news);
      ahead', pre' := ahead.rest, pre + Olds(FirstOf(ahead));
      assert Front(out) == passed + FirstOf(ahead);
      StillDecoding(out, rest, ahead', pre', goal, news);
    } else {
      Rounded(passed, rest, pre, goal, news);
      assert Inner(out.c) == passed;
      GoneRound(out, rest, goal, news);
    }
  }

  lemma GoneRound<T>(out: Transcriber<T>, rest: seq<Option<T>>, goal: seq<Slot<T>>, news: set<Node<T>>)
    requires out.Round() && AllNone(rest) && Matches(Inner(out.c), goal, news)
    ensures Decoded(out, rest, goal, news)
  {
  }

  ghost function Front<T>(out: Transcriber<T>): Word<Node<T>>
    reads out
  {
    if 0 < out.at <= |out.base| then out.base[1..out.at] + out.done else []
  }

  lemma MayClose<T>(out: Transcriber<T>, rest: seq<Option<T>>, ahead: Trees<Node<T>>, pre: seq<Slot<T>>,
                    goal: seq<Slot<T>>, news: set<Node<T>>)
    requires Decoding(out, [None] + rest, ahead, pre, goal, news) || Decoded(out, [None] + rest, goal, news)
    ensures out.Round() ==> AllNone(rest) && Matches(Inner(out.c), goal, news)
    ensures !out.Round() ==>
      && out.Valid() && WellNested(out.Ahead()) && out.Ahead() == WalkOf(ahead)
      && (out.pending != [] ==> out.i.edge.Trailing?)
      && Reading(Front(out), out.pending, [None] + rest, ahead, pre, goal, news)
      && (ahead.Grow? <==> out.Ahead() != [])
      && (ahead.Grow? ==> var k, s := FirstTree(out.Ahead()), out.Ahead();
            s[..k + 1] == FirstOf(ahead) && s[k + 1..] == WalkOf(ahead.rest))
  {
    hide Threaded, Filled, NodesOf, FirstTree, WellNested, WalkOf, Pattern, Fits, Matches;
    if Decoding(out, [None] + rest, ahead, pre, goal, news) {
      out.c.FoundAt(out.at + |out.done|);
      WalkIsWellNested(ahead);
      FirstTreeOf(ahead);
      if out.pending != [] {
        assert out.pending[0] in out.pending;
        InsertedAt(out.base, out.at, out.done, out.pending);
      }
    } else {
      forall c | c in rest ensures c.None? { assert c in [None] + rest; }
    }
  }

  lemma FirstTreeOf<N>(ts: Trees<N>)
    ensures ts.Grow? <==> WalkOf(ts) != []
    ensures ts.Grow? ==> WellNested(WalkOf(ts)) && var k := FirstTree(WalkOf(ts));
      WalkOf(ts)[..k + 1] == FirstOf(ts) && WalkOf(ts)[k + 1..] == WalkOf(ts.rest)
  {
    if ts.Grow? {
      WalkIsWellNested(ts);
      hide FirstTree, WellNested;
      var w := WalkOf(ts);
      var us := Parse(w);
      assert w + [] == WalkOf(us) + [];
      WalkIsInjective(ts, us, [], []);
      ParsedFirst(w);
    }
  }

  lemma ParsedFirst<N>(w: Word<N>)
    requires WellNested(w) && w != []
    ensures var k, ts := FirstTree(w), Parse(w);
      ts.Grow? && w[..k + 1] == FirstOf(ts) && w[k + 1..] == WalkOf(ts.rest)
  {
    hide FirstTree, WellNested;
    var k, ts := FirstTree(w), Parse(w);
    assert w[..k + 1] == [w[0]] + w[1..k] + [w[k]];
    assert WalkOf<N>(Bare) == [];
  }

  lemma DecodingStarts<T>(out: Transcriber<T>, code: seq<Option<T>>)
    requires out.Valid() && out.at == 1 && out.done == [] && out.pending == [] && out.base == out.c.walk
    requires Fits(code, 0, out.c.Shape())
    ensures Decoding(out, code, out.c.Shape(), [], Pattern(code, 0, out.c.Shape()), {})
  {
    hide Threaded, Filled, NodesOf, WellNested, WalkOf, Pattern, Fits;
    var w, ts := out.c.walk, out.c.Shape();
    assert w[1..|w| - 1] == WalkOf(ts);
    assert w[1..1] + [] == [];
    assert [] + Pattern(code, 0, ts) == Pattern(code, 0, ts);
  }

  lemma DecodingEnds<T>(out: Transcriber<T>, ahead: Trees<Node<T>>, pre: seq<Slot<T>>, goal: seq<Slot<T>>,
                        news: set<Node<T>>)
    requires Decoding(out, [], ahead, pre, goal, news) || Decoded(out, [], goal, news)
    ensures out.c.Valid() && Matches(Inner(out.c), goal, news)
  {
    hide Threaded, Filled, NodesOf, WellNested, WalkOf, Pattern, Fits, Matches, Reading;
    if Decoding(out, [], ahead, pre, goal, news) {
      Read(Front(out), out.pending, ahead, pre, goal, news);
      InnerOfPut(out.base, out.at, out.done, out.pending);
    }
  }

  lemma InnerOfPut<A>(base: seq<A>, at: nat, done: seq<A>, pending: seq<A>)
    requires 0 < at < |base|
    ensures var w := PutAt(base, at, done + pending);
      w[1..|w| - 1] == base[1..at] + done + (pending + base[at..|base| - 1])
  {
  }

  // ---------------------------------------------------------------------------
  // Codes that close only what they open

  lemma {:induction false} PlainPattern<T>(code: seq<Option<T>>, open: nat, ahead: Trees<Node<T>>)
    requires Height(code, open).Some?
    ensures Fits(code, open, ahead)
    ensures Pattern(code, open, ahead)
      == News(code + seq(Height(code, open).value, i => None)) + Olds(WalkOf(ahead))
    decreases |code|
  {
    hide News, Olds, WalkOf;
    var h := seq(Height(code, open).value, i => None);
    if code == [] {
      assert code + h == h;
    } else {
      PlainPattern(code[1..], if code[0].Some? then open + 1 else open - 1, ahead);
      MoreNews(code, h);
      assert [New(code[0])] + (News(code[1..] + h) + Olds(WalkOf(ahead)))
        == News(code + h) + Olds(WalkOf(ahead));
    }
  }

  lemma MoreNews<T>(code: seq<Option<T>>, more: seq<Option<T>>)
    requires code != []
    ensures News(code + more) == [New(code[0])] + News(code[1..] + more)
  {
    assert code + more == [code[0]] + (code[1..] + more);
  }

  /** Such a code stands before all that was there. */
  lemma NewPart<T>(f: Forest<T>, was: Word<Node<T>>, ts: Trees<Node<T>>, code: seq<Option<T>>, news: set<Node<T>>)
    returns (added: Word<Node<T>>)
    requires f.Valid() && was == [f.Root()] + WalkOf(ts) + [f.End()]
    requires Matches(Inner(f), Pattern(code, 0, ts), news)
    ensures Height(code, 0).Some? ==>
      && f.walk == PutAt(was, 1, added)
      && FlatOf(added) == code + seq(Height(code, 0).value, i => None)
      && FlatOf(Inner(f)) == FlatOf(added) + FlatOf(WalkOf(ts))
  {
    hide Threaded, Filled, NodesOf, WellNested, WalkOf, Pattern, Rooted, FlatOf, Height;
    added := [];
    if Height(code, 0).Some? {
      var codes := code + seq(Height(code, 0).value, i => None);
      PlainPattern(code, 0, ts);
      InnerFacts(f);
      added := SplitMatch(Inner(f), codes, WalkOf(ts), news);
      FlatConcat(added, WalkOf(ts));
      assert PutAt(was, 1, added) == [f.Root()] + (added + WalkOf(ts)) + [f.End()];
    }
  }

  lemma SplitMatch<T>(w: Word<Node<T>>, codes: seq<Option<T>>, old': Word<Node<T>>, news: set<Node<T>>)
    returns (added: Word<Node<T>>)
    requires Matches(w, News(codes) + Olds(old'), news)
    ensures w == added + old' && FlatOf(added) == codes
  {
    added := w[..|codes|];
    var slots := News(codes) + Olds(old');
    forall i: nat | i < |codes| ensures FlatOf(added)[i] == codes[i] { assert Fills(w[i], slots[i], news); }
    forall i: nat | i < |old'| ensures w[|codes| + i] == old'[i] {
      assert Fills(w[|codes| + i], slots[|codes| + i], news);
    }
  }

  lemma MayAssign<T>(out: Transcriber<T>, v: T, rest: seq<Option<T>>, ahead: Trees<Node<T>>, pre: seq<Slot<T>>,
                     goal: seq<Slot<T>>, news: set<Node<T>>)
    requires Decoding(out, [Some(v)] + rest, ahead, pre, goal, news) || Decoded(out, [Some(v)] + rest, goal, news)
    ensures out.Valid() && out.Ahead() == WalkOf(ahead)
    ensures Reading(Front(out), out.pending, [Some(v)] + rest, ahead, pre, goal, news)
  {
    assert Some(v) in [Some(v)] + rest;
  }

  lemma StillDecoding<T>(out: Transcriber<T>, rest: seq<Option<T>>, ahead: Trees<Node<T>>, pre: seq<Slot<T>>,
                         goal: seq<Slot<T>>, news: set<Node<T>>)
    requires out.Valid() && out.Ahead() == WalkOf(ahead)
    requires Reading(Front(out), out.pending, rest, ahead, pre, goal, news)
    ensures Decoding(out, rest, ahead, pre, goal, news)
  {
  }

  // ---------------------------------------------------------------------------
  // The steps of reading

  lemma MatchesMore<T>(a: Word<Node<T>>, pre: seq<Slot<T>>, b: Word<Node<T>>, post: seq<Slot<T>>,
                       news: set<Node<T>>, news': set<Node<T>>)
    requires Matches(a, pre, news) && Matches(b, post, news') && news <= news'
    ensures Matches(a + b, pre + post, news')
  {
    forall i: nat | i < |a + b| ensures Fills((a + b)[i], (pre + post)[i], news') {
      if i < |a| { assert Fills(a[i], pre[i], news); } else { assert Fills(b[i - |a|], post[i - |a|], news'); }
    }
  }

  lemma MatchesOne<T>(v: Position<T>, slot: Slot<T>, news: set<Node<T>>)
    requires Fills(v, slot, news)
    ensures Matches([v], [slot], news)
  {
  }

  lemma MatchesOlds<T>(w: Word<Node<T>>, news: set<Node<T>>)
    ensures Matches(w, Olds(w), news)
  {
  }

  lemma Assigned<T>(passed: Word<Node<T>>, pending: Word<Node<T>>, x: Position<T>, rest: seq<Option<T>>,
                    ahead: Trees<Node<T>>, pre: seq<Slot<T>>, goal: seq<Slot<T>>, news: set<Node<T>>,
                    news': set<Node<T>>)
    requires x.edge.Leading? && x.node.data.Some? && x.node in news' && news <= news'
    requires Reading(passed, pending, [x.node.data] + rest, ahead, pre, goal, news)
    ensures Reading(passed + [x], [TrailingOf(x)] + pending, rest, ahead, pre + [New(x.node.data)], goal, news')
  {
    var code, slot := [x.node.data] + rest, New(x.node.data);
    assert code[1..] == rest;
    MatchesOne(x, slot, news');
    MatchesMore(passed, pre, [x], [slot], news, news');
    hide Matches;
    assert pre + ([slot] + Pattern(rest, |pending| + 1, ahead)) == (pre + [slot]) + Pattern(rest, |pending| + 1, ahead);
  }

  lemma Closed<T>(passed: Word<Node<T>>, pending: Word<Node<T>>, rest: seq<Option<T>>, ahead: Trees<Node<T>>,
                  pre: seq<Slot<T>>, goal: seq<Slot<T>>, news: set<Node<T>>)
    requires pending != [] && Reading(passed, pending, [None] + rest, ahead, pre, goal, news)
    ensures Reading(passed + [pending[0]], pending[1..], rest, ahead, pre + [New(None)], goal, news)
  {
    var code, slot := [None] + rest, Slot<T>.New(None);
    assert code[1..] == rest;
    MatchesOne(pending[0], slot, news);
    MatchesMore(passed, pre, [pending[0]], [slot], news, news);
    hide Matches;
    assert pre + ([slot] + Pattern(rest, |pending| - 1, ahead)) == (pre + [slot]) + Pattern(rest, |pending| - 1, ahead);
  }

  lemma Skipped<T>(passed: Word<Node<T>>, rest: seq<Option<T>>, ahead: Trees<Node<T>>,
                   pre: seq<Slot<T>>, goal: seq<Slot<T>>, news: set<Node<T>>)
    requires ahead.Grow? && Reading(passed, [], [None] + rest, ahead, pre, goal, news)
    ensures Reading(passed + FirstOf(ahead), [], rest, ahead.rest, pre + Olds(FirstOf(ahead)), goal, news)
  {
    var code, slots := [None] + rest, Olds(FirstOf(ahead));
    assert code[1..] == rest;
    MatchesOlds(FirstOf(ahead), news);
    MatchesMore(passed, pre, FirstOf(ahead), slots, news, news);
    hide Matches, FirstOf, Olds;
    assert pre + (slots + Pattern(rest, 0, ahead.rest)) == (pre + slots) + Pattern(rest, 0, ahead.rest);
  }

  lemma Rounded<T>(passed: Word<Node<T>>, rest: seq<Option<T>>, pre: seq<Slot<T>>, goal: seq<Slot<T>>,
                   news: set<Node<T>>)
    requires Reading(passed, [], [None] + rest, Bare, pre, goal, news)
    ensures Matches(passed, goal, news) && AllNone(rest)
  {
    assert ([None] + rest)[1..] == rest;
    assert pre + [] == pre;
    forall c | c in rest ensures c.None? { assert c in [None] + rest; }
  }

  lemma Read<T>(passed: Word<Node<T>>, pending: Word<Node<T>>, ahead: Trees<Node<T>>,
                pre: seq<Slot<T>>, goal: seq<Slot<T>>, news: set<Node<T>>)
    requires Reading(passed, pending, [], ahead, pre, goal, news)
    ensures Matches(passed + (pending + WalkOf(ahead)), goal, news)
  {
    var closings := News<T>(seq(|pending|, i => None));
    forall i: nat | i < |pending| ensures Fills(pending[i], closings[i], news) { assert pending[i] in pending; }
    MatchesOlds(WalkOf(ahead), news);
    MatchesMore(pending, closings, WalkOf(ahead), Olds(WalkOf(ahead)), news, news);
    MatchesMore(passed, pre, pending + WalkOf(ahead), closings + Olds(WalkOf(ahead)), news, news);
  }

  // ---------------------------------------------------------------------------
  // The inverse of flatten

  /** What `Flatten` writes is balanced, so that `Unflatten` adds nothing to it; and a forest with that encoding,
      which is what `Unflatten` makes of an empty one, is the same trees of the same values. */
  lemma UnflattenInvertsFlatten<T>(x: Forest<T>, y: Forest<T>)
    requires x.Valid() && y.Valid() && FlatOf(Inner(y)) == FlatOf(Inner(x))
    ensures Balanced(FlatOf(Inner(x)))
    ensures HasValues(x.Shape()) && HasValues(y.Shape()) && Values(y.Shape()) == Values(x.Shape())
  {
    hide Threaded, Filled, Rooted, FlatOf, Values, Encode;
    EqualFlatEqualTrees(x, y);
    ShapeHasValues(x);
    FlatIsEncoding(x.Shape());
    EncodeIsBalanced(Values(x.Shape()), 0);
  }

  /** There and back: decoding in an empty forest what was flattened gives the same trees of the same values. */
  method RoundTrip<T>(x: Forest<T>) returns (y: Forest<T>)
    requires x.Valid()
    ensures fresh(y) && x.Valid() && x.walk == old(x.walk) && y.Valid()
    ensures HasValues(x.Shape()) && HasValues(y.Shape()) && Values(y.Shape()) == Values(x.Shape())
  {
    hide Threaded, Filled, NodesOf, Rooted, FlatOf, Height, WalkOf, Pattern, Matches, Fits, PutAt;
    NodesAllocated(x.walk);
    var code := Flatten(x);
    UnflattenInvertsFlatten(x, x);
    BalancedAddsNothing(code);
    y := new Forest();
    StillValid(x);
    PlainPattern(code, 0, y.Shape());
    var unused, news, added := Unflatten(code, y);
    StillValid(x);
    UnflattenInvertsFlatten(x, y);
  }

  lemma BalancedAddsNothing<T>(code: seq<Option<T>>)
    requires Balanced(code)
    ensures Height(code, 0).Some? && code + seq(Height(code, 0).value, i => None) == code
    ensures code + FlatOf<T>([]) == code
  {
  }
}
