/**
 Overlays of overlays. The pages of an overlay store, as long as its sessions live, are pages of
 one listing, just as the overlay store expects of the stores it merges; so an overlay store over
 another one lists the map that is overridden twice.
 */
module Nesting {
  import opened Order
  import opened Listing
  import opened KeyMapping
  import opened Streams
  import opened SessionRuns
  import opened S3Store
  import opened Loops
  import opened OverlayStore
  import opened ListingRuns

  // ---------------------------------------------------------------- an overlay store as a feed

  /** Whether the i-th event of an inner run issued this token, for positions the inner backends know. */
  predicate IssuedBy(run: seq<Event>, o: Feed, b: Feed, token: string, i: nat) {
    && i < |run| && run[i].Create? && Issued(run, i) == token
    && o.KnowsState(run[i].ov) && b.KnowsState(run[i].bs)
  }

  function IssuedTokens(run: seq<Event>, o: Feed, b: Feed): set<string> {
    set i | 0 <= i < |run| && run[i].Create? && o.KnowsState(run[i].ov) && b.KnowsState(run[i].bs) :: Issued(run, i)
  }

  /** What remains at a token that the inner store issued, or at the empty one. */
  ghost function RestOfSession(run: seq<Event>, o: Feed, b: Feed, token: string): seq<Entry>
    requires "" in o.rests && "" in b.rests
    requires token == "" || token in IssuedTokens(run, o, b)
  {
    if token == "" then Merge(o.rests[""], b.rests[""])
    else
      assert exists i: nat :: IssuedBy(run, o, b, token, i) by {
        var i :| 0 <= i < |run| && run[i].Create? && o.KnowsState(run[i].ov) && b.KnowsState(run[i].bs)
                 && Issued(run, i) == token;
        assert IssuedBy(run, o, b, token, i);
      }
      var i: nat :| IssuedBy(run, o, b, token, i);
      Merge(o.Stream(run[i].ov), b.Stream(run[i].bs))
  }

  /** The merged listing of an inner overlay store, by the tokens of its sessions. */
  ghost function OverlayFeed(run: seq<Event>, o: Feed, b: Feed): Feed
    requires "" in o.rests && "" in b.rests
  {
    Feed(map t | t in IssuedTokens(run, o, b) + {""} :: RestOfSession(run, o, b, t))
  }

  /** A token of the feed stands for what its session streams. */
  lemma FeedAtToken(run: seq<Event>, o: Feed, b: Feed, i: nat)
    requires IsRun(run) && "" in o.rests && "" in b.rests
    requires i < |run| && run[i].Create? && o.KnowsState(run[i].ov) && b.KnowsState(run[i].bs)
    ensures Issued(run, i) in OverlayFeed(run, o, b).rests
    ensures OverlayFeed(run, o, b).rests[Issued(run, i)] == Merge(o.Stream(run[i].ov), b.Stream(run[i].bs))
  {
    hide Merge, Issued, IsRun;
    var token := Issued(run, i);
    IssuedIsNotEmpty(run, i);
    assert token in IssuedTokens(run, o, b);
    assert IssuedBy(run, o, b, token, i);
    forall k: nat | IssuedBy(run, o, b, token, k) ensures k == i {
      if k < i {
        NumbersAreNeverReused(run, k, i);
      } else if i < k {
        NumbersAreNeverReused(run, i, k);
      }
    }
  }

  lemma IssuedIsNotEmpty(run: seq<Event>, i: nat)
    requires i < |run| && run[i].Create?
    ensures Issued(run, i) != ""
  {
  }

  /** Tokens of the feed keep their meaning while the inner store goes on. */
  lemma OverlayFeedIsStable(run: seq<Event>, later: seq<Event>, o: Feed, b: Feed)
    requires IsRun(later) && run <= later && "" in o.rests && "" in b.rests
    ensures OverlayFeed(run, o, b).ExtendedBy(OverlayFeed(later, o, b))
  {
    hide Merge, OverlayFeed, IsRun;
    var f, g := OverlayFeed(run, o, b), OverlayFeed(later, o, b);
    forall t | t in f.rests ensures t in g.rests && g.rests[t] == f.rests[t] {
      TokenStands(run, later, o, b, t);
    }
  }

  lemma TokenStands(run: seq<Event>, later: seq<Event>, o: Feed, b: Feed, token: string)
    requires IsRun(later) && run <= later && "" in o.rests && "" in b.rests
    requires token in OverlayFeed(run, o, b).rests
    ensures token in OverlayFeed(later, o, b).rests
    ensures OverlayFeed(later, o, b).rests[token] == OverlayFeed(run, o, b).rests[token]
  {
    hide Merge, Issued;
    if token != "" {
      var i :| 0 <= i < |run| && run[i].Create? && o.KnowsState(run[i].ov) && b.KnowsState(run[i].bs)
          && Issued(run, i) == token;
      FeedAtToken(run, o, b, i);
      IssuedInPrefix(run, later, i);
      FeedAtToken(later, o, b, i);
    }
  }

  lemma IssuedInPrefix(run: seq<Event>, later: seq<Event>, i: nat)
    requires run <= later && i < |run| && run[i].Create?
    ensures Issued(later, i) == Issued(run, i)
  {
    TableOfPrefix(run, later, i + 1);
  }

  /** The token that a request presents, if it comes in time: the empty one, or one its store issued. */
  predicate InTimeToken(run: seq<Event>, look: nat) {
    && look < |run| && run[look].Lookup?
    && (run[look].token == "" ||
        exists i :: 0 <= i < look && run[i].Create? && Issued(run, i) == run[look].token && InTime(run, i, look))
  }

  /**
   An overlay store is a store like those it merges: every answer it gives in time is a page of
   its feed, and a truncated one brings the end of the listing nearer.
   */
  lemma AnswersArePages(run: seq<Event>, o: Feed, b: Feed, r: Request) returns (shown: seq<Entry>)
    requires IsRun(run) && "" in o.rests && "" in b.rests
    requires Accepted(run, o, b, r) && InTimeToken(run, r.look) && Ordered(Pending(run, o, b, r.look))
    ensures OverlayFeed(run, o, b).IsPage(run[r.look].token, r.page, shown)
    ensures r.page.truncated ==>
              |OverlayFeed(run, o, b).rests[r.page.nextToken]| < |OverlayFeed(run, o, b).rests[run[r.look].token]|
  {
    var rest := Pending(run, o, b, r.look);
    shown := rest[..if |rest| <= r.max then |rest| else r.max];
    PendingIsRest(run, o, b, r);
    hide OverlayFeed, Pending, Resumes, Merge, Listing.Objects, Prefixes, InTimeToken, IsRun;
    if r.page.truncated {
      assert rest == rest[..r.max] + rest[r.max..];
      FeedAtToken(run, o, b, r.make);
      IssuedIsNotEmpty(run, r.make);
    } else {
      assert shown == rest;
    }
    OrderedSlices(rest, |shown|);
  }

  /** What a request in time has to list is what remains at its token. */
  lemma PendingIsRest(run: seq<Event>, o: Feed, b: Feed, r: Request)
    requires IsRun(run) && "" in o.rests && "" in b.rests
    requires Accepted(run, o, b, r) && InTimeToken(run, r.look)
    ensures run[r.look].token in OverlayFeed(run, o, b).rests
    ensures Pending(run, o, b, r.look) == OverlayFeed(run, o, b).rests[run[r.look].token]
  {
    hide Merge, Serves, IsRun;
    if run[r.look].token == "" {
      assert TableAt(run, r.look).Positions("") == (START, START);
      assert [] + o.rests[""] == o.rests[""] && [] + b.rests[""] == b.rests[""];
    } else {
      var i :| 0 <= i < r.look && run[i].Create? && Issued(run, i) == run[r.look].token && InTime(run, i, r.look);
      TokenResumesExactlyIf(run, i, r.look);
      hide TableAt, InTime, Issued;
      FeedAtToken(run, o, b, i);
    }
  }

  // ---------------------------------------------------------------- the merge loop over feeds

  /** All these answers are pages of one feed, which lists from its start in order. */
  ghost predicate Backs(f: Feed, answers: set<Answered>) {
    && "" in f.rests && Ordered(f.rests[""])
    && forall a :: a in answers ==> exists shown :: f.IsPage(a.token, a.page, shown)
  }

  lemma FetchKeepsStream(f: Feed, answers: set<Answered>, cs: CursorState, next: CursorState)
    requires Backs(f, answers) && f.KnowsState(cs) && Fetches(answers, cs, next)
    ensures f.KnowsState(next) && f.Stream(next) == f.Stream(cs)
  {
    var a :| a in answers && a.token == cs.after && TakesPage(a.page, next);
    var shown :| f.IsPage(a.token, a.page, shown);
    MergedPageRestores(shown);
    hide MergedPage;
    assert [] + f.rests[cs.after] == f.rests[cs.after];
    assert shown + [] == shown;
  }

  /** The head of the merge of two streams is the head of the merge of what both cursors hold. */
  lemma {:induction false} EmitTakesHead(s: seq<Entry>, moreS: seq<Entry>, t: seq<Entry>, moreT: seq<Entry>)
    requires (s != [] || moreS == []) && (t != [] || moreT == []) && (s != [] || t != [])
    ensures var pick := Next(s, t);
            Merge(s + moreS, t + moreT) == [pick.entry] + Merge(pick.overlay + moreS, pick.baseline + moreT)
  {
    var pick := Next(s, t);
    var whole := Next(s + moreS, t + moreT);
    assert s != [] ==> (s + moreS)[0] == s[0] && (s + moreS)[1..] == s[1..] + moreS;
    assert t != [] ==> (t + moreT)[0] == t[0] && (t + moreT)[1..] == t[1..] + moreT;
    assert whole.entry == pick.entry;
    assert whole.overlay == pick.overlay + moreS && whole.baseline == pick.baseline + moreT;
  }

  /** What is emitted and what both cursors still stream make up what they streamed at first. */
  lemma {:induction false} LoopsKeepMerge(o: Feed, b: Feed, os: set<Answered>, bs: set<Answered>, max: nat,
                                          loop: seq<Loop>, i: nat)
    requires Backs(o, os) && Backs(b, bs)
    requires IsLoop(os, bs, max, loop) && i < |loop| && o.KnowsState(loop[0].oc) && b.KnowsState(loop[0].bc)
    ensures o.KnowsState(loop[i].oc) && b.KnowsState(loop[i].bc) && |loop[i].shown| <= max
    ensures loop[i].shown + Merge(o.Stream(loop[i].oc), b.Stream(loop[i].bc))
         == Merge(o.Stream(loop[0].oc), b.Stream(loop[0].bc))
  {
    hide Merge, Next, Backs, Fetches, Feed.Stream, Feed.KnowsState;
    if i > 0 {
      LoopsKeepMerge(o, b, os, bs, max, loop, i - 1);
      var s, t := loop[i - 1], loop[i];
      assert LoopStep(os, bs, max, s, t);
      if Fetches(os, s.oc, t.oc) && t == s.(oc := t.oc) {
        FetchKeepsStream(o, os, s.oc, t.oc);
      } else if Fetches(bs, s.bc, t.bc) && t == s.(bc := t.bc) {
        FetchKeepsStream(b, bs, s.bc, t.bc);
      } else {
        EmitKeepsMerge(o, b, s, t);
      }
    } else {
      assert [] + Merge(o.Stream(loop[0].oc), b.Stream(loop[0].bc))
             == Merge(o.Stream(loop[0].oc), b.Stream(loop[0].bc));
    }
  }

  lemma EmitKeepsMerge(o: Feed, b: Feed, s: Loop, t: Loop)
    requires o.KnowsState(s.oc) && b.KnowsState(s.bc) && Emits(s, t)
    ensures o.KnowsState(t.oc) && b.KnowsState(t.bc)
    ensures t.shown + Merge(o.Stream(t.oc), b.Stream(t.bc)) == s.shown + Merge(o.Stream(s.oc), b.Stream(s.bc))
  {
    var moreS := if s.oc.done then [] else o.rests[s.oc.after];
    var moreT := if s.bc.done then [] else b.rests[s.bc.after];
    var pick := Next(s.oc.remaining, s.bc.remaining);
    hide Merge, Next;
    EmitTakesHead(s.oc.remaining, moreS, s.bc.remaining, moreT);
    ConcatAssociative(s.shown, [pick.entry], Merge(pick.overlay + moreS, pick.baseline + moreT));
  }

  /** Over any two feeds, and whatever pages they are fetched in, the merge loop keeps the promise of a page. */
  lemma LoopServes(o: Feed, b: Feed, os: set<Answered>, bs: set<Answered>, max: nat, loop: seq<Loop>, page: ListPage)
    requires Backs(o, os) && Backs(b, bs)
    requires IsLoop(os, bs, max, loop) && o.KnowsState(loop[0].oc) && b.KnowsState(loop[0].bc)
    requires LoopAnswers(max, loop[|loop| - 1], page)
    ensures Serves(Merge(o.Stream(loop[0].oc), b.Stream(loop[0].bc)), max, page,
                   loop[|loop| - 1].oc, loop[|loop| - 1].bc, o, b)
  {
    var end := loop[|loop| - 1];
    LoopsKeepMerge(o, b, os, bs, max, loop, |loop| - 1);
    var merged, rest := Merge(o.Stream(loop[0].oc), b.Stream(loop[0].bc)), Merge(o.Stream(end.oc), b.Stream(end.bc));
    assert rest == [] <==> o.Stream(end.oc) == [] && b.Stream(end.bc) == [];
    hide Merge, IsLoop, Listing.Objects, Prefixes, Backs;
    CutPage(merged, end.shown, rest, max, page.nextToken);
  }

  // ---------------------------------------------------------------- requests to an overlay store

  /** A request to an overlay store and the merge loop that it ran. */
  datatype Execution = Execution(r: Request, loop: seq<Loop>)

  /**
   How a request is carried out: from the positions that its token stands for, with pages that
   the two stores below answered with, up to the session that saves the positions reached.
   */
  predicate Executes(run: seq<Event>, os: set<Answered>, bs: set<Answered>, x: Execution) {
    && x.r.look < |run| && run[x.r.look].Lookup? && 1 <= x.r.max
    && IsLoop(os, bs, x.r.max, x.loop)
    && (x.loop[0].oc, x.loop[0].bc) == TableAt(run, x.r.look).Positions(run[x.r.look].token)
    && LoopAnswers(x.r.max, x.loop[|x.loop| - 1], x.r.page)
    && (x.r.page.truncated ==>
          && x.r.look < x.r.make < |run| && run[x.r.make].Create? && x.r.page.nextToken == Issued(run, x.r.make)
          && run[x.r.make].ov == x.loop[|x.loop| - 1].oc && run[x.r.make].bs == x.loop[|x.loop| - 1].bc)
  }

  /** Whether a request presents no token, or the token of another in time. */
  predicate IsAsked(run: seq<Event>, rs: set<Request>, r: Request) {
    && r.look < |run| && run[r.look].Lookup?
    && (run[r.look].token == "" || exists w :: w in rs && Follows(run, w, r))
  }

  /** Answered requests of any clients to one overlay store, each from the start or from the token of another. */
  ghost predicate AreAnswered(run: seq<Event>, o: Feed, b: Feed, rs: set<Request>) {
    IsRun(run) && forall r :: r in rs ==> Accepted(run, o, b, r) && IsAsked(run, rs, r)
  }

  /** The same, by the merge loops that were run. */
  predicate IsSession(run: seq<Event>, os: set<Answered>, bs: set<Answered>, xs: set<Execution>) {
    IsRun(run) && forall x :: x in xs ==> Executes(run, os, bs, x) && IsAsked(run, RequestsOf(xs), x.r)
  }

  function RequestsOf(xs: set<Execution>): set<Request> {
    set x | x in xs :: x.r
  }

  /** A request whose positions are known is answered as traversals need it. */
  lemma ExecutionIsAccepted(run: seq<Event>, o: Feed, b: Feed, os: set<Answered>, bs: set<Answered>, x: Execution)
    requires Backs(o, os) && Backs(b, bs) && Executes(run, os, bs, x) && Resumes(run, o, b, x.r.look)
    ensures Accepted(run, o, b, x.r)
  {
    hide TableAt, IsLoop, LoopAnswers, CutsPage, Merge, Backs;
    LoopServes(o, b, os, bs, x.r.max, x.loop, x.r.page);
  }

  /** Every request of a session is answered as traversals need it. */
  lemma {:induction false} ExecutionsAreAccepted(run: seq<Event>, o: Feed, b: Feed, os: set<Answered>,
                                                 bs: set<Answered>, xs: set<Execution>, x: Execution)
    requires Backs(o, os) && Backs(b, bs) && IsSession(run, os, bs, xs) && x in xs
    ensures Accepted(run, o, b, x.r)
    decreases x.r.look
  {
    assert Executes(run, os, bs, x) && IsAsked(run, RequestsOf(xs), x.r);
    if run[x.r.look].token == "" {
      assert TableAt(run, x.r.look).Positions("") == (START, START);
    } else {
      var w :| w in RequestsOf(xs) && Follows(run, w, x.r);
      var y :| y in xs && y.r == w;
      assert Executes(run, os, bs, y);
      ExecutionsAreAccepted(run, o, b, os, bs, xs, y);
      TokenResumesExactlyIf(run, w.make, x.r.look);
    }
    hide Executes, IsSession, TableAt, InTime, Merge;
    ExecutionIsAccepted(run, o, b, os, bs, x);
  }

  lemma SessionsAreAnswered(run: seq<Event>, o: Feed, b: Feed, os: set<Answered>, bs: set<Answered>, xs: set<Execution>)
    requires Backs(o, os) && Backs(b, bs) && IsSession(run, os, bs, xs)
    ensures AreAnswered(run, o, b, RequestsOf(xs))
  {
    hide Backs, IsRun, Executes, IsAsked, Accepted;
    forall r | r in RequestsOf(xs) ensures Accepted(run, o, b, r) {
      var x :| x in xs && x.r == r;
      ExecutionsAreAccepted(run, o, b, os, bs, xs, x);
    }
  }

  /** Every answered request presents its token in time, and has entries in order to list. */
  lemma {:induction false} PendingIsOrdered(run: seq<Event>, o: Feed, b: Feed, rs: set<Request>, r: Request)
    requires "" in o.rests && "" in b.rests && Ordered(o.rests[""]) && Ordered(b.rests[""])
    requires AreAnswered(run, o, b, rs) && r in rs
    ensures r.look < |run| && InTimeToken(run, r.look) && Accepted(run, o, b, r) && Ordered(Pending(run, o, b, r.look))
    decreases r.look
  {
    assert Accepted(run, o, b, r) && IsAsked(run, rs, r);
    hide Merge, Ordered, AreAnswered, CutsPage;
    if run[r.look].token == "" {
      assert TableAt(run, r.look).Positions("") == (START, START);
      assert [] + o.rests[""] == o.rests[""] && [] + b.rests[""] == b.rests[""];
      MergeOrdered(o.rests[""], b.rests[""]);
    } else {
      var w :| w in rs && Follows(run, w, r);
      PendingIsOrdered(run, o, b, rs, w);
      AnsweredIsAccepted(run, o, b, rs, w);
      NextPending(run, o, b, w, r);
      OrderedSlices(Pending(run, o, b, w.look), w.max);
    }
  }

  lemma AnsweredIsAccepted(run: seq<Event>, o: Feed, b: Feed, rs: set<Request>, r: Request)
    requires AreAnswered(run, o, b, rs) && r in rs
    ensures IsRun(run) && Accepted(run, o, b, r) && IsAsked(run, rs, r)
  {
  }

  /** The answers to some requests, by the tokens that were presented. */
  function AnswersTo(run: seq<Event>, rs: set<Request>): set<Answered> {
    set r | r in rs && r.look < |run| && run[r.look].Lookup? :: Answered(run[r.look].token, r.page)
  }

  /**
   An overlay store is a store like those it merges: what it answers to any requests in time are
   pages of one feed, its merged listing, just as it expects of the two stores below.
   */
  lemma OverlaysBack(run: seq<Event>, o: Feed, b: Feed, rs: set<Request>)
    requires "" in o.rests && "" in b.rests && Ordered(o.rests[""]) && Ordered(b.rests[""])
    requires AreAnswered(run, o, b, rs)
    ensures Backs(OverlayFeed(run, o, b), AnswersTo(run, rs))
  {
    hide OverlayFeed, IsRun, Accepted, Merge, Pending, InTimeToken, IsAsked, Feed.IsPage, Ordered;
    var f := OverlayFeed(run, o, b);
    OverlayStarts(run, o, b);
    MergeOrdered(o.rests[""], b.rests[""]);
    forall a | a in AnswersTo(run, rs) ensures exists shown :: f.IsPage(a.token, a.page, shown) {
      var r :| r in rs && r.look < |run| && run[r.look].Lookup? && a == Answered(run[r.look].token, r.page);
      PendingIsOrdered(run, o, b, rs, r);
      var shown := AnswersArePages(run, o, b, r);
    }
  }

  lemma OverlayStarts(run: seq<Event>, o: Feed, b: Feed)
    requires "" in o.rests && "" in b.rests
    ensures "" in OverlayFeed(run, o, b).rests
    ensures OverlayFeed(run, o, b).rests[""] == Merge(o.rests[""], b.rests[""])
  {
    hide Merge, IssuedTokens;
    var f := OverlayFeed(run, o, b);
    assert "" in f.rests;
  }

  /** The answers of a store on one backend are pages of its feed. */
  lemma BackendsBack(s: Source, answers: set<Answered>)
    requires Ordered(s.Remaining(""))
    requires AreAnswers(s, answers)
    ensures Backs(s.AsFeed(), answers)
  {
    hide ShowsPage, Feed.IsPage;
    forall a | a in answers ensures exists shown :: s.AsFeed().IsPage(a.token, a.page, shown) {
      assert IsAnswer(s, a);
      var shown :| ShowsPage(s, a.token, a.page, shown);
      BackendPagesArePages(s, a.token, a.page, shown);
    }
  }

  lemma BackendPagesArePages(s: Source, after: string, page: ListPage, shown: seq<Entry>)
    requires ShowsPage(s, after, page, shown)
    ensures s.AsFeed().IsPage(after, page, shown)
  {
    hide Visible, After, Listing.Objects, Prefixes;
  }

  // ---------------------------------------------------------------- whole listings of stacked stores

  function Requests(xs: seq<Execution>): (rs: seq<Request>)
    ensures |rs| == |xs| && forall i :: 0 <= i < |xs| ==> rs[i] == xs[i].r
  {
    seq(|xs|, i requires 0 <= i < |xs| => xs[i].r)
  }

  /** The requests by which one client of a session lists everything, following tokens in time. */
  predicate ListsAll(run: seq<Event>, xs: set<Execution>, mine: seq<Execution>) {
    && mine != [] && (forall i :: 0 <= i < |mine| ==> mine[i] in xs)
    && mine[0].r.look < |run| && run[mine[0].r.look].Lookup? && run[mine[0].r.look].token == ""
    && (forall i :: 0 <= i < |mine| - 1 ==> Follows(run, mine[i].r, mine[i + 1].r))
    && !mine[|mine| - 1].r.page.truncated
  }

  /** Over any two stores whose answers are pages of feeds, a client lists the merge of both feeds. */
  lemma ListingsShowMerge(run: seq<Event>, o: Feed, b: Feed, os: set<Answered>, bs: set<Answered>,
                          xs: set<Execution>, mine: seq<Execution>)
    requires Backs(o, os) && Backs(b, bs) && IsSession(run, os, bs, xs) && ListsAll(run, xs, mine)
    ensures Listed(Pages(Requests(mine))) == Merge(o.rests[""], b.rests[""])
  {
    hide Merge, Accepted, Listed, Ordered, IsRun, Executes, IsAsked, Follows, Pending, InTimeToken;
    var rs := Requests(mine);
    forall i | 0 <= i < |rs| ensures Accepted(run, o, b, rs[i]) {
      ExecutionsAreAccepted(run, o, b, os, bs, xs, mine[i]);
    }
    forall i | 0 <= i < |rs| - 1 ensures Follows(run, rs[i], rs[i + 1]) {
      assert Follows(run, mine[i].r, mine[i + 1].r);
    }
    TraversalListsMerge(run, o, b, rs);
  }

  /** Three layers list the same whichever two of them are stacked first. */
  lemma StackingIsAssociative(top: map<string, Object>, middle: map<string, Object>, bottom: map<string, Object>,
                              prefix: string, delimiter: string)
    ensures Merge(BucketListing(top, prefix, delimiter),
                  Merge(BucketListing(middle, prefix, delimiter), BucketListing(bottom, prefix, delimiter)))
         == BucketListing(bottom + middle + top, prefix, delimiter)
    ensures Merge(Merge(BucketListing(top, prefix, delimiter), BucketListing(middle, prefix, delimiter)),
                  BucketListing(bottom, prefix, delimiter))
         == BucketListing(bottom + middle + top, prefix, delimiter)
  {
    hide BucketListing, Merge;
    MergedListing(bottom, middle, prefix, delimiter);
    MergedListing(bottom + middle, top, prefix, delimiter);
    MergeAssociative(BucketListing(top, prefix, delimiter), BucketListing(middle, prefix, delimiter),
                     BucketListing(bottom, prefix, delimiter));
  }

  /** A feed that starts with the whole listing of a bucket. */
  predicate Lists(f: Feed, objects: map<string, Object>, prefix: string, delimiter: string) {
    "" in f.rests && f.rests[""] == BucketListing(objects, prefix, delimiter)
  }

  /**
   Overlays of overlays. Let an inner overlay store answer any requests, over two stores that
   list two buckets, and an outer one any requests over those answers and a third store.
   Whichever of its two stores the inner one is, a client that follows the tokens of the outer
   store lists the map that is overridden twice.
   */
  lemma StackedListingsShowEverything(run: seq<Event>, inner: seq<Event>, top: Feed, middle: Feed, bottom: Feed,
                                      ts: set<Answered>, bs: set<Answered>, rs: set<Request>,
                                      xs: set<Execution>, mine: seq<Execution>,
                                      high: map<string, Object>, mid: map<string, Object>, low: map<string, Object>,
                                      prefix: string, delimiter: string)
    requires Lists(top, high, prefix, delimiter) && Lists(middle, mid, prefix, delimiter)
    requires Lists(bottom, low, prefix, delimiter)
    requires || (Backs(top, ts) && AreAnswered(inner, middle, bottom, rs)
                 && IsSession(run, ts, AnswersTo(inner, rs), xs))
             || (AreAnswered(inner, top, middle, rs) && Backs(bottom, bs)
                 && IsSession(run, AnswersTo(inner, rs), bs, xs))
    requires ListsAll(run, xs, mine)
    ensures Listed(Pages(Requests(mine))) == BucketListing(low + mid + high, prefix, delimiter)
  {
    hide BucketListing, Merge, Backs, IsSession, ListsAll, OverlayFeed, Listed, AnswersTo, AreAnswered;
    StackingIsAssociative(high, mid, low, prefix, delimiter);
    if Backs(top, ts) && AreAnswered(inner, middle, bottom, rs) && IsSession(run, ts, AnswersTo(inner, rs), xs) {
      OverlaysBack(inner, middle, bottom, rs);
      OverlayStarts(inner, middle, bottom);
      ListingsShowMerge(run, top, OverlayFeed(inner, middle, bottom), ts, AnswersTo(inner, rs), xs, mine);
    } else {
      OverlaysBack(inner, top, middle, rs);
      OverlayStarts(inner, top, middle);
      ListingsShowMerge(run, OverlayFeed(inner, top, middle), bottom, AnswersTo(inner, rs), bs, xs, mine);
    }
  }

  /** The same with an inner store given by the merge loops that it ran. */
  lemma SessionsBack(run: seq<Event>, o: Feed, b: Feed, os: set<Answered>, bs: set<Answered>, xs: set<Execution>)
    requires Backs(o, os) && Backs(b, bs) && IsSession(run, os, bs, xs)
    ensures Backs(OverlayFeed(run, o, b), AnswersTo(run, RequestsOf(xs)))
  {
    hide IsSession, OverlayFeed, AnswersTo, AreAnswered;
    SessionsAreAnswered(run, o, b, os, bs, xs);
    OverlaysBack(run, o, b, RequestsOf(xs));
  }
}
