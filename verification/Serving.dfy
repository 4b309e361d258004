/** One call of the page method, as a continuation of the run of the session table. */
module Serving {
  import opened Results
  import opened Numbers
  import opened Listing
  import opened KeyMapping
  import opened Streams
  import opened SessionRuns
  import opened S3Store
  import opened OverlayStore
  import opened Loops
  import opened ListingRuns
  import opened Nesting

  /** A request for a page, with the times at which it reads the clock. */
  datatype PageRequest = PageRequest(bucket: string, p: ListParams, lookedUp: int, created: int)

  /** What the run of a store says about a request and its answer. */
  ghost predicate IsTraced(run: seq<Event>, o: Source, b: Source, q: PageRequest, answer: Result<ListPage, Error>,
                           r: Request, done: Done) {
    answer.Success? ==>
      && r.page == answer.value && r.max == EffectiveMax(q.p.maxKeys)
      && r.look < |run| && run[r.look] == Lookup(q.p.after, q.lookedUp)
      && Accepted(run, o.AsFeed(), b.AsFeed(), r)
      && (r.page.truncated ==> r.make < |run| && run[r.make].now == q.created)
      && Executes(run, done.os, done.bs, Execution(r, done.loop)) && AreFetched(o, b, done.os, done.bs)
  }

  /** The last moment of a run. */
  predicate EndsBy(run: seq<Event>, now: int) {
    run != [] ==> run[|run| - 1].now <= now
  }

  lemma {:induction false} RunGoesOn(run: seq<Event>, e: Event)
    requires IsRun(run) && EndsBy(run, e.now) && |run| < MAX_UINT64
    ensures IsRun(run + [e])
    ensures TableAt(run + [e], |run| + 1) == Step(TableAt(run, |run|), e)
  {
    TableOfPrefix(run, run + [e], |run|);
  }

  /** What `OverlayStore.ListPage` ensures, said of the run that its lookup and its creation continue. */
  lemma {:induction false} AnswerIsAccepted(run: seq<Event>, o: Source, b: Source, laterO: Source, laterB: Source,
                                            r: Request, ov: CursorState, bs: CursorState)
    requires r.look < |run| && run[r.look].Lookup? && 1 <= r.max
    requires o.ExtendedBy(laterO) && b.ExtendedBy(laterB)
    requires var (ovState, bsState) := TableAt(run, r.look).Positions(run[r.look].token);
             && o.KnowsState(ovState) && b.KnowsState(bsState)
             && CutsPage(Merge(o.Stream(ovState), b.Stream(bsState)), r.max, r.page)
             && (r.page.truncated ==>
                   && laterO.KnowsState(ov) && laterB.KnowsState(bs)
                   && Merge(laterO.Stream(ov), laterB.Stream(bs))
                       == Merge(o.Stream(ovState), b.Stream(bsState))[r.max..])
    requires r.page.truncated ==>
               && r.look < r.make < |run|
               && run[r.make] == Create(ov, bs, run[r.make].now)
               && r.page.nextToken == Issued(run, r.make)
    ensures Accepted(run, laterO.AsFeed(), laterB.AsFeed(), r)
  {
    var (ovState, bsState) := TableAt(run, r.look).Positions(run[r.look].token);
    StreamIsStable(o, laterO, ovState);
    StreamIsStable(b, laterB, bsState);
    FeedOfSource(laterO, ovState);
    FeedOfSource(laterB, bsState);
    FeedOfSource(laterO, ov);
    FeedOfSource(laterB, bs);
    hide TableAt, CutsPage, Source.Stream, Source.AsFeed, Feed.Stream, Merge;
  }

  lemma {:induction false} AnswerIsExecuted(run: seq<Event>, r: Request, done: Done, ov: CursorState, bs: CursorState)
    requires r.look < |run| && run[r.look].Lookup? && 1 <= r.max
    requires Does(done, r.max, TableAt(run, r.look).Positions(run[r.look].token).0,
                  TableAt(run, r.look).Positions(run[r.look].token).1, r.page, ov, bs)
    requires r.page.truncated ==>
               && r.look < r.make < |run|
               && run[r.make] == Create(ov, bs, run[r.make].now)
               && r.page.nextToken == Issued(run, r.make)
    ensures Executes(run, done.os, done.bs, Execution(r, done.loop))
  {
    hide TableAt, IsLoop, LoopAnswers, Issued;
  }

  /** The run goes on by the lookup of a request, and by the creation of a session if entries remain. */
  lemma RunContinues(run: seq<Event>, q: PageRequest, answer: Result<ListPage, Error>, ov: CursorState, bs: CursorState)
      returns (later: seq<Event>, r: Request)
    requires IsRun(run) && |run| + 2 <= MAX_UINT64 && EndsBy(run, q.lookedUp) && q.lookedUp <= q.created
    ensures run < later && |later| <= |run| + 2 && IsRun(later) && EndsBy(later, q.created)
    ensures later[|run|] == Lookup(q.p.after, q.lookedUp) && TableAt(later, |run|) == TableAt(run, |run|)
    ensures var touched := TableAt(run, |run|).Touched(q.p.after, q.lookedUp);
            TableAt(later, |later|)
              == if answer.Success? && answer.value.truncated then touched.Created(ov, bs, q.created) else touched
    ensures answer.Success? ==> r.look == |run| && r.page == answer.value && r.max == EffectiveMax(q.p.maxKeys)
    ensures answer.Success? && answer.value.truncated ==>
              && r.make == |run| + 1 && r.make < |later| && later[r.make] == Create(ov, bs, q.created)
              && Issued(later, r.make) == Format(TableAt(later, |later|).nextID, 10)
  {
    var touched := run + [Lookup(q.p.after, q.lookedUp)];
    RunGoesOn(run, Lookup(q.p.after, q.lookedUp));
    later := touched;
    r := Request(|run|, |run| + 1, EffectiveMax(q.p.maxKeys), Page([], [], false, ""));
    if answer.Success? {
      r := r.(page := answer.value);
      if answer.value.truncated {
        later := touched + [Create(ov, bs, q.created)];
        RunGoesOn(touched, Create(ov, bs, q.created));
        TableOfPrefix(run, later, |run|);
        return;
      }
    }
    TableOfPrefix(run, later, |run|);
  }

  /** Answers one request and records it: its lookup, and the creation of a session if entries remain. */
  method Answer(store: OverlayStore, q: PageRequest, ghost run: seq<Event>)
      returns (answer: Result<ListPage, Error>, ghost later: seq<Event>, ghost r: Request, ghost done: Done)
    requires store.Valid() && IsBucketName(q.bucket)
    requires IsRun(run) && |run| + 2 <= MAX_UINT64 && EndsBy(run, q.lookedUp) && q.lookedUp <= q.created
    requires store.sessions.Value() == TableAt(run, |run|)
    modifies store.sessions, store.overlay.client`tokens, store.baseline.client`tokens
    ensures store.Valid()
    ensures TokensKept(old(store.overlay.client.tokens), store.overlay.client.tokens)
    ensures TokensKept(old(store.baseline.client.tokens), store.baseline.client.tokens)
    ensures run < later && |later| <= |run| + 2 && IsRun(later) && EndsBy(later, q.created)
    ensures store.sessions.Value() == TableAt(later, |later|)
    ensures IsTraced(later, store.OverlaySource(q.bucket, q.p), store.BaselineSource(q.bucket, q.p), q, answer, r, done)
    ensures answer.Success? ==> r.look == |run| && (answer.value.truncated ==> r.make == |run| + 1 < |later|)
  {
    hide IsRun, EndsBy, Store.SourceOf, Source.Stream, Source.AsFeed, Merge, CutsPage, TokensKept, Accepted, Does;
    hide Executes;
    hide AreFetched;
    ghost var table := store.sessions.Value();
    ghost var o, b := store.OverlaySource(q.bucket, q.p), store.BaselineSource(q.bucket, q.p);
    PositionsAreKnown(table, q.p.after, o.tokens, b.tokens);
    ghost var ov, bs;
    answer, ov, bs, done := store.ListPage(q.bucket, q.p, q.lookedUp, q.created);
    later, r := RunContinues(run, q, answer, ov, bs);
    if answer.Success? {
      AnswerIsAccepted(later, o, b, store.OverlaySource(q.bucket, q.p), store.BaselineSource(q.bucket, q.p), r, ov, bs);
      AnswerIsExecuted(later, r, done, ov, bs);
    }
  }
}
