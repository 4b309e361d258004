/**
 Runs of the whole server: any clients' listings, page by page, in between any reads and writes.
 Through all of it the server is one map, and a client that follows tokens lists its bucket as
 long as nobody writes to that bucket.
 */
module ServerRuns {
  import opened Order
  import opened Results
  import opened Numbers
  import opened Listing
  import opened KeyMapping
  import opened Streams
  import opened Sessions
  import opened SessionRuns
  import opened S3Store
  import opened OverlayStore
  import opened ListingRuns
  import opened Gateway
  import opened Refinement
  import opened Serving

  datatype Call = GetPage(q: PageRequest) | Do(op: Operation, now: int)

  datatype Reply = OfList(answer: Result<ListPage, Error>) | OfOperation(response: Response)

  type Tokens = map<string, string>

  type Contents = map<string, Object>

  /** What stays the same: the overlay's mapping and the baseline's buckets. */
  datatype Setup = Setup(m: Mapping, base: map<string, Contents>)

  /** What the server held when a call was answered, and the events that answering it took. */
  datatype Trace = Trace(r: Request, done: Loops.Done, run: seq<Event>, o: Tokens, b: Tokens)

  /**
   The history of a server: the run of its session table, the tokens its backends handed out, what
   the overlay's bucket held before, between and after the calls, and their traces.
   */
  datatype History = History(u: Setup, run: seq<Event>, o: Tokens, b: Tokens,
                             stores: seq<Contents>, traces: seq<Trace>, times: seq<int>)

  /** A backend's listing as it is served while the backend holds this. */
  function SourceAt(m: Mapping, bucket: string, p: ListParams, stored: Contents, tokens: Tokens): Source {
    Source(m, bucket,
           if BackendLimit(p.maxKeys) == 0 then []
               else BucketListing(stored, BackendPrefix(m, bucket, p.prefix), p.delimiter),
           tokens)
  }

  function OverlayAt(u: Setup, bucket: string, p: ListParams, stored: Contents, tokens: Tokens): Source {
    SourceAt(u.m, bucket, p, stored, tokens)
  }

  function BaselineAt(u: Setup, bucket: string, p: ListParams, tokens: Tokens): Source {
    SourceAt(IDENTITY, bucket, p, if bucket in u.base then u.base[bucket] else map[], tokens)
  }

  /** The single map that the server represents while the overlay's bucket holds this. */
  function StateOf(u: Setup, stored: Contents): Merged
    requires u.m.bucket != ""
  {
    Abstraction(u.m, stored, u.base)
  }

  /** The objects of all client buckets stay, but for those of a bucket that is written to, which gets more. */
  ghost predicate OthersStay(u: Setup, before: Contents, op: Operation, response: Response, after: Contents) {
    && (forall b :: IsBucketName(b) && (b != op.bucket || !response.Written?) ==>
          ClientObjects(u.m, after, b) == ClientObjects(u.m, before, b))
    && ClientObjects(u.m, before, op.bucket).Keys <= ClientObjects(u.m, after, op.bucket).Keys
  }

  /** A call and its reply: a page changes nothing, an operation is a step of the single map. */
  ghost predicate IsStep(u: Setup, before: Contents, call: Call, reply: Reply, t: Trace, time: int, after: Contents)
    requires u.m.bucket != ""
  {
    match call
    case GetPage(q) =>
      && reply.OfList? && after == before
      && IsTraced(t.run, OverlayAt(u, q.bucket, q.p, before, t.o), BaselineAt(u, q.bucket, q.p, t.b), q, reply.answer,
                  t.r, t.done)
    case Do(op, _) =>
      && reply.OfOperation?
      && MapStep(StateOf(u, before), op, reply.response, time, StateOf(u, after))
      && OthersStay(u, before, op, reply.response, after)
  }

  predicate IsPast(h: History, t: Trace) {
    t.run <= h.run && TokensKept(t.o, h.o) && TokensKept(t.b, h.b)
  }

  predicate IsPage(reply: Reply) {
    reply.OfList? && reply.answer.Success?
  }

  ghost predicate IsStepOf(h: History, calls: seq<Call>, replies: seq<Reply>, i: nat)
    requires h.u.m.bucket != "" && |h.stores| == |calls| + 1
    requires |replies| == |h.traces| == |h.times| == |calls| && i < |calls|
  {
    && IsStep(h.u, h.stores[i], calls[i], replies[i], h.traces[i], h.times[i], h.stores[i + 1])
    && IsPast(h, h.traces[i])
  }

  /** The calls and replies of a history. */
  ghost predicate IsHistory(h: History, calls: seq<Call>, replies: seq<Reply>) {
    && h.u.m.bucket != "" && IsRun(h.run) && |h.stores| == |calls| + 1
    && |replies| == |h.traces| == |h.times| == |calls|
    && (forall i :: 0 <= i < |calls| ==> IsStepOf(h, calls, replies, i))
    && forall i, j :: 0 <= i < j < |calls| && IsPage(replies[i]) && IsPage(replies[j]) ==>
                        |h.traces[i].run| <= h.traces[j].r.look
  }

  /** The server is where the history ends. */
  predicate EndsAt(s: Server, h: History)
    reads s.store.sessions, s.store.overlay.client, s.store.baseline.client
  {
    && Configured(s) && s.store.Valid()
    && s.store.sessions.Value() == TableAt(h.run, |h.run|)
    && h.u == Setup(s.store.overlay.mapping, s.store.baseline.client.buckets)
    && h.stores != [] && h.stores[|h.stores| - 1] == s.store.overlay.client.Contents(s.store.overlay.mapping.bucket)
    && h.o == s.store.overlay.client.tokens && h.b == s.store.baseline.client.tokens
  }

  predicate IsCall(call: Call) {
    match call
    case GetPage(q) => IsBucketName(q.bucket) && q.lookedUp <= q.created
    case Do(op, _) => IsOperation(op)
  }

  /** The history with one more call. */
  function Extended(h: History, t: Trace, stored: Contents, time: int): History {
    History(h.u, t.run, t.o, t.b, h.stores + [stored], h.traces + [t], h.times + [time])
  }

  lemma HistoryGoesOn(h: History, calls: seq<Call>, replies: seq<Reply>, call: Call, reply: Reply,
                      t: Trace, stored: Contents, time: int)
    requires IsHistory(h, calls, replies)
    requires h.run <= t.run && IsRun(t.run) && TokensKept(h.o, t.o) && TokensKept(h.b, t.b)
    requires IsStep(h.u, h.stores[|calls|], call, reply, t, time, stored)
    requires IsPage(reply) ==> |h.run| <= t.r.look
    ensures IsHistory(Extended(h, t, stored, time), calls + [call], replies + [reply])
  {
    hide IsStep, IsRun, TokensKept;
    var later, all, every := Extended(h, t, stored, time), calls + [call], replies + [reply];
    TokensStay(t.o);
    TokensStay(t.b);
    forall i | 0 <= i < |all| ensures IsStepOf(later, all, every, i) {
      if i < |calls| {
        assert IsStepOf(h, calls, replies, i);
        TokensKeptTransitive(h.traces[i].o, h.o, t.o);
        TokensKeptTransitive(h.traces[i].b, h.b, t.b);
      }
    }
    forall i, j | 0 <= i < j < |all| && IsPage(every[i]) && IsPage(every[j])
      ensures |later.traces[i].run| <= later.traces[j].r.look
    {
      assert IsStepOf(h, calls, replies, i);
    }
  }

  lemma BaselineIsServed(s: Server, u: Setup, bucket: string, p: ListParams)
    requires Configured(s) && u == Setup(s.store.overlay.mapping, s.store.baseline.client.buckets)
    ensures s.store.BaselineSource(bucket, p) == BaselineAt(u, bucket, p, s.store.baseline.client.tokens)
    ensures s.store.OverlaySource(bucket, p)
         == OverlayAt(u, bucket, p, s.store.overlay.client.Contents(u.m.bucket), s.store.overlay.client.tokens)
    ensures Represented(s) == StateOf(u, s.store.overlay.client.Contents(u.m.bucket))
    ensures forall b :: s.store.overlay.Objects(b) == ClientObjects(u.m, s.store.overlay.client.Contents(u.m.bucket), b)
  {
    hide BucketListing, BackendPrefix, BackendLimit, ClientObjects, Abstraction;
  }

  /** Answers a request for a page, and goes on with the history. */
  method ServePage(s: Server, q: PageRequest, ghost h: History, ghost calls: seq<Call>, ghost replies: seq<Reply>)
      returns (answer: Result<ListPage, Error>, ghost later: History)
    requires EndsAt(s, h) && IsHistory(h, calls, replies) && IsCall(GetPage(q))
    requires |h.run| + 2 <= MAX_UINT64 && EndsBy(h.run, q.lookedUp)
    modifies s.store.sessions, s.store.overlay.client`tokens, s.store.baseline.client`tokens
    ensures EndsAt(s, later) && IsHistory(later, calls + [GetPage(q)], replies + [OfList(answer)])
    ensures |later.run| <= |h.run| + 2 && EndsBy(later.run, q.created)
    ensures later.u == h.u && later.stores == h.stores + [h.stores[|calls|]]
  {
    hide IsHistory, IsRun, OverlayStore.Valid, IsTraced, Source.AsFeed, SourceAt, Store.SourceOf, TokensKept;
    HistoryParts(h, calls, replies);
    ghost var r, run, done;
    answer, run, r, done := Answer(s.store, q, h.run);
    BaselineIsServed(s, h.u, q.bucket, q.p);
    ghost var t := Trace(r, done, run, s.store.overlay.client.tokens, s.store.baseline.client.tokens);
    later := Extended(h, t, h.stores[|calls|], 0);
    HistoryGoesOn(h, calls, replies, GetPage(q), OfList(answer), t, h.stores[|calls|], 0);
  }

  lemma HistoryParts(h: History, calls: seq<Call>, replies: seq<Reply>)
    requires IsHistory(h, calls, replies)
    ensures h.u.m.bucket != "" && IsRun(h.run) && |h.stores| == |calls| + 1 && |replies| == |calls|
  {
  }

  /** Serves an operation, and goes on with the history. */
  method ServeOperation(s: Server, op: Operation, now: int,
                        ghost h: History, ghost calls: seq<Call>, ghost replies: seq<Reply>)
      returns (response: Response, ghost later: History)
    requires EndsAt(s, h) && IsHistory(h, calls, replies) && IsOperation(op)
    modifies s.store.overlay.client`buckets
    ensures EndsAt(s, later) && IsHistory(later, calls + [Do(op, now)], replies + [OfOperation(response)])
    ensures later.run == h.run && later.u == h.u && |later.stores| == |h.stores| + 1
    ensures s.Reliable() && (op.Put? ==> IsStorable(op.body)) ==> !response.BackendFailure?
  {
    hide IsHistory, IsRun, OverlayStore.Valid, TokensKept, MapStep, Represented, Abstraction, S3Store.Store.Objects;
    hide SourceAt;
    hide Configured, ClientObjects, TableAt, OverlayStore.OverlaySource, OverlayStore.BaselineSource, IsStorable;
    HistoryParts(h, calls, replies);
    BaselineIsServed(s, h.u, op.bucket, ListParams("", "", "", 0));
    ghost var time;
    response, time := Serve(s, op, now);
    BaselineIsServed(s, h.u, op.bucket, ListParams("", "", "", 0));
    ghost var stored := s.store.overlay.client.Contents(h.u.m.bucket);
    ghost var t := Trace(Request(0, 0, 0, Page([], [], false, "")), Loops.Done({}, {}, []), h.run, h.o, h.b);
    later := Extended(h, t, stored, time);
    TokensStay(h.o);
    TokensStay(h.b);
    HistoryGoesOn(h, calls, replies, Do(op, now), OfOperation(response), t, stored, time);
  }

  /** Any state of a server begins a history, whatever run its session table has behind it. */
  lemma HistoryBegins(s: Server, run: seq<Event>) returns (h: History)
    requires Configured(s) && s.store.Valid() && IsRun(run) && s.store.sessions.Value() == TableAt(run, |run|)
    ensures h.run == run && EndsAt(s, h) && IsHistory(h, [], [])
  {
    h := History(Setup(s.store.overlay.mapping, s.store.baseline.client.buckets), run,
                 s.store.overlay.client.tokens, s.store.baseline.client.tokens,
                 [s.store.overlay.client.Contents(s.store.overlay.mapping.bucket)], [], []);
  }

  /** The clock never goes back, neither behind the run nor between two requests for pages. */
  predicate InOrder(run: seq<Event>, calls: seq<Call>) {
    && (forall i :: 0 <= i < |calls| && calls[i].GetPage? ==> EndsBy(run, calls[i].q.lookedUp))
    && forall i, j :: 0 <= i < j < |calls| && calls[i].GetPage? && calls[j].GetPage? ==>
          calls[i].q.created <= calls[j].q.lookedUp
  }

  predicate MustBeAnswered(call: Call) {
    call.Do? && (call.op.Put? ==> IsStorable(call.op.body))
  }

  /** Serves one call and goes on with the history. */
  method ServeCall(s: Server, call: Call, ghost h: History, ghost calls: seq<Call>, ghost replies: seq<Reply>)
      returns (reply: Reply, ghost later: History)
    requires EndsAt(s, h) && IsHistory(h, calls, replies) && IsCall(call)
    requires |h.run| + 2 <= MAX_UINT64 && (call.GetPage? ==> EndsBy(h.run, call.q.lookedUp))
    modifies s.store.sessions, s.store.overlay.client`tokens, s.store.baseline.client`tokens,
             s.store.overlay.client`buckets
    ensures EndsAt(s, later) && IsHistory(later, calls + [call], replies + [reply])
    ensures |later.run| <= |h.run| + 2
            && (if call.GetPage? then EndsBy(later.run, call.q.created) else later.run == h.run)
    ensures s.Reliable() && MustBeAnswered(call) ==> reply.OfOperation? && !reply.response.BackendFailure?
  {
    hide EndsAt, IsHistory, EndsBy, IsStorable;
    match call
    case GetPage(q) =>
      var answer;
      answer, later := ServePage(s, q, h, calls, replies);
      reply := OfList(answer);
    case Do(op, now) =>
      var response;
      response, later := ServeOperation(s, op, now, h, calls, replies);
      reply := OfOperation(response);
  }

  /**
   Serves any calls of any clients one after another and goes on with the history. Operations fail
   only if a backend does, or if a body cannot be stored.
   */
  method ServeCalls(s: Server, calls: seq<Call>, ghost before: History, ghost past: seq<Call>, ghost told: seq<Reply>)
      returns (replies: seq<Reply>, ghost h: History)
    requires EndsAt(s, before) && IsHistory(before, past, told)
    requires InOrder(before.run, calls) && (forall call :: call in calls ==> IsCall(call))
    requires |before.run| + 2 * |calls| <= MAX_UINT64
    modifies s.store.sessions, s.store.overlay.client`tokens, s.store.baseline.client`tokens,
             s.store.overlay.client`buckets
    ensures EndsAt(s, h) && |replies| == |calls| && IsHistory(h, past + calls, told + replies)
    ensures s.Reliable() ==>
              forall i :: 0 <= i < |calls| && MustBeAnswered(calls[i]) ==>
                            replies[i].OfOperation? && !replies[i].response.BackendFailure?
  {
    replies, h := [], before;
    assert past + calls[..0] == past && told + replies == told;
    hide EndsAt, IsHistory, MustBeAnswered, EndsBy;
    for i := 0 to |calls|
      invariant EndsAt(s, h) && |replies| == i && IsHistory(h, past + calls[..i], told + replies)
      invariant |h.run| <= |before.run| + 2 * i
      invariant forall j :: i <= j < |calls| && calls[j].GetPage? ==> EndsBy(h.run, calls[j].q.lookedUp)
      invariant s.Reliable() ==>
                  forall j :: 0 <= j < i && MustBeAnswered(calls[j]) ==>
                                replies[j].OfOperation? && !replies[j].response.BackendFailure?
    {
      var reply;
      ghost var all, every := past + calls[..i], told + replies;
      ghost var run := h.run;
      assert calls[i] in calls;
      reply, h := ServeCall(s, calls[i], h, all, every);
      assert all + [calls[i]] == past + calls[..i + 1] && every + [reply] == told + (replies + [reply]);
      replies := replies + [reply];
      forall j | i < j < |calls| && calls[j].GetPage? ensures EndsBy(h.run, calls[j].q.lookedUp) {
        if calls[i].GetPage? {
          EndsBefore(h.run, calls[i].q.created, calls[j].q.lookedUp);
        }
      }
    }
    assert calls[..|calls|] == calls;
  }

  lemma EndsBefore(run: seq<Event>, now: int, later: int)
    requires EndsBy(run, now) && now <= later
    ensures EndsBy(run, later)
  {
  }

  // ---------------------------------------------------------------- what histories show

  /** Nobody writes to a bucket between two moments. */
  predicate IsQuiet(calls: seq<Call>, replies: seq<Reply>, from: nat, to: nat, bucket: string)
    requires from <= to <= |calls| == |replies|
  {
    forall i :: from <= i < to && calls[i].Do? && calls[i].op.bucket == bucket ==>
      replies[i].OfOperation? && !replies[i].response.Written?
  }

  /** Then its objects stay, whatever is written elsewhere. */
  lemma {:induction false} QuietKeepsObjects(h: History, calls: seq<Call>, replies: seq<Reply>, from: nat, to: nat,
                                             bucket: string)
    requires IsHistory(h, calls, replies) && IsBucketName(bucket)
    requires from <= to <= |calls| && IsQuiet(calls, replies, from, to, bucket)
    ensures ClientObjects(h.u.m, h.stores[to], bucket) == ClientObjects(h.u.m, h.stores[from], bucket)
  {
    if from < to {
      QuietKeepsObjects(h, calls, replies, from, to - 1, bucket);
      assert IsStepOf(h, calls, replies, to - 1);
      hide IsHistory, ClientObjects, MapStep, IsTraced;
    }
  }

  /** What a backend has left to list of a client bucket depends on that bucket's objects alone. */
  lemma {:induction false} SameRest(m: Mapping, bucket: string, stored: Contents, other: Contents, prefix: string,
                                    delimiter: string, at: Option<string>)
    requires IsBucketName(bucket) && ClientObjects(m, stored, bucket) == ClientObjects(m, other, bucket)
    ensures Visible(m, bucket, RestAfter(BucketListing(stored, BackendPrefix(m, bucket, prefix), delimiter), at))
         == Visible(m, bucket, RestAfter(BucketListing(other, BackendPrefix(m, bucket, prefix), delimiter), at))
  {
    hide BucketListing, Visible, ClientObjects, BackendPrefix, RestAfter, Less, Ordered;
    var raw := BucketListing(stored, BackendPrefix(m, bucket, prefix), delimiter);
    var later := BucketListing(other, BackendPrefix(m, bucket, prefix), delimiter);
    VisibleOrdered(m, bucket, RestAfter(raw, at));
    VisibleOrdered(m, bucket, RestAfter(later, at));
    forall e ensures e in Visible(m, bucket, RestAfter(raw, at)) <==> e in Visible(m, bucket, RestAfter(later, at)) {
      VisibleRest(m, bucket, stored, prefix, delimiter, at, e);
      VisibleRest(m, bucket, other, prefix, delimiter, at, e);
    }
    OrderedUnique(Visible(m, bucket, RestAfter(raw, at)), Visible(m, bucket, RestAfter(later, at)));
  }

  /** Two requests of one listing are served from the same feed if the bucket's objects are the same. */
  lemma SameFeed(m: Mapping, bucket: string, p: ListParams, q: ListParams, stored: Contents, other: Contents,
                 tokens: Tokens)
    requires IsBucketName(bucket) && ClientObjects(m, stored, bucket) == ClientObjects(m, other, bucket)
    requires p.prefix == q.prefix && p.delimiter == q.delimiter && BackendLimit(p.maxKeys) != 0
             && BackendLimit(q.maxKeys) != 0
    ensures SourceAt(m, bucket, p, stored, tokens).AsFeed() == SourceAt(m, bucket, q, other, tokens).AsFeed()
  {
    var s, t := SourceAt(m, bucket, p, stored, tokens), SourceAt(m, bucket, q, other, tokens);
    hide BucketListing, Visible, ClientObjects, BackendPrefix, RestAfter, BackendLimit;
    forall token | token == "" || token in tokens ensures s.Remaining(token) == t.Remaining(token) {
      SameRest(m, bucket, stored, other, p.prefix, p.delimiter, if token == "" then None else Some(tokens[token]));
    }
  }

  // ---------------------------------------------------------------- one client's listing

  /** A call for a page of this listing, and that it was answered. */
  predicate ListsFor(call: Call, reply: Reply, bucket: string, prefix: string, delimiter: string) {
    && call.GetPage? && IsPage(reply)
    && call.q.bucket == bucket && call.q.p.prefix == prefix && call.q.p.delimiter == delimiter
    && BackendLimit(call.q.p.maxKeys) != 0
  }

  /** The second call presents the token that the first was answered with, in time. */
  predicate GoesOn(h: History, calls: seq<Call>, replies: seq<Reply>, first: nat, second: nat) {
    && first < second < |calls| == |replies| == |h.traces|
    && calls[second].GetPage? && IsPage(replies[first]) && replies[first].answer.value.truncated
    && calls[second].q.p.after == replies[first].answer.value.nextToken
    && IsInTime(h.run, h.traces[first].r, h.traces[second].r)
  }

  predicate IsInTime(run: seq<Event>, first: Request, second: Request) {
    first.make < second.look < |run| && run[first.make].Create? && InTime(run, first.make, second.look)
  }

  /** It is in time at the latest ten minutes after the first was answered. */
  lemma SoonGoesOn(h: History, calls: seq<Call>, replies: seq<Reply>, first: nat, second: nat)
    requires IsHistory(h, calls, replies) && first < second < |calls| && calls[first].GetPage? && calls[second].GetPage?
    requires IsPage(replies[first]) && replies[first].answer.value.truncated && IsPage(replies[second])
    requires calls[second].q.p.after == replies[first].answer.value.nextToken
    requires calls[second].q.lookedUp <= calls[first].q.created + 10 * 60 * 1_000_000_000
    ensures GoesOn(h, calls, replies, first, second)
  {
    assert IsStepOf(h, calls, replies, first) && IsStepOf(h, calls, replies, second);
    hide IsHistory, IsRun, MapStep, Source.AsFeed, TokensKept, InTime, Serves;
    var t, r := h.traces[first], h.traces[second].r;
    assert t.run <= h.run && h.traces[second].run <= h.run;
    HistoryParts(h, calls, replies);
    assert |t.run| <= r.look by { PagesAreInOrder(h, calls, replies, first, second); }
    SoonIsInTime(h.run, t.r.make, r.look);
  }

  lemma PagesAreInOrder(h: History, calls: seq<Call>, replies: seq<Reply>, i: nat, j: nat)
    requires IsHistory(h, calls, replies) && i < j < |calls| && IsPage(replies[i]) && IsPage(replies[j])
    ensures |h.traces[i].run| <= h.traces[j].r.look
  {
  }

  /** Which of the calls are one client's listing: from no token, following tokens in time, to the end. */
  predicate IsListing(h: History, calls: seq<Call>, replies: seq<Reply>, picks: seq<nat>,
                      bucket: string, prefix: string, delimiter: string)
  {
    && picks != [] && |calls| == |replies| == |h.traces|
    && (forall i :: 0 <= i < |picks| ==>
          picks[i] < |calls| && ListsFor(calls[picks[i]], replies[picks[i]], bucket, prefix, delimiter))
    && calls[picks[0]].q.p.after == ""
    && (forall i :: 0 <= i < |picks| - 1 ==> GoesOn(h, calls, replies, picks[i], picks[i + 1]))
    && !replies[picks[|picks| - 1]].answer.value.truncated
  }

  function PickedPages(replies: seq<Reply>, picks: seq<nat>): (pages: seq<ListPage>)
    requires forall i :: 0 <= i < |picks| ==>
               picks[i] < |replies| && replies[picks[i]].OfList? && replies[picks[i]].answer.Success?
    ensures |pages| == |picks| && forall i :: 0 <= i < |picks| ==> pages[i] == replies[picks[i]].answer.value
  {
    seq(|picks|, i requires 0 <= i < |picks| => replies[picks[i]].answer.value)
  }

  function Picked(h: History, picks: seq<nat>): (rs: seq<Request>)
    requires forall i :: 0 <= i < |picks| ==> picks[i] < |h.traces|
    ensures |rs| == |picks| && forall i :: 0 <= i < |picks| ==> rs[i] == h.traces[picks[i]].r
  {
    seq(|picks|, i requires 0 <= i < |picks| => h.traces[picks[i]].r)
  }

  /** The feed of one backend for a listing, while the overlay holds what it held at some moment. */
  function OverlayFeedAt(h: History, i: nat, bucket: string, p: ListParams): Feed
    requires i < |h.stores|
  {
    OverlayAt(h.u, bucket, p, h.stores[i], h.o).AsFeed()
  }

  function BaselineFeedAt(h: History, bucket: string, p: ListParams): Feed {
    BaselineAt(h.u, bucket, p, h.b).AsFeed()
  }

  /** An answered call counts for the feeds of any quiet moment before or after it. */
  lemma PageIsAccepted(h: History, calls: seq<Call>, replies: seq<Reply>, k: nat, at: nat, from: nat, to: nat,
                       bucket: string, p: ListParams)
    requires IsHistory(h, calls, replies) && k < |calls| && IsBucketName(bucket) && BackendLimit(p.maxKeys) != 0
    requires ListsFor(calls[k], replies[k], bucket, p.prefix, p.delimiter)
    requires from <= k <= to <= |calls| && from <= at <= to && IsQuiet(calls, replies, from, to, bucket)
    ensures var r := h.traces[k].r;
            && Accepted(h.run, OverlayFeedAt(h, at, bucket, p), BaselineFeedAt(h, bucket, p), r)
            && r.page == replies[k].answer.value && r.look < |h.run|
            && h.run[r.look] == Lookup(calls[k].q.p.after, calls[k].q.lookedUp)
  {
    var t, q := h.traces[k], calls[k].q;
    assert IsStepOf(h, calls, replies, k);
    hide Source.AsFeed, SourceAt, Accepted, IsRun, BackendLimit, TokensKept;
    QuietWithin(calls, replies, from, to, from, k, bucket);
    QuietKeepsObjects(h, calls, replies, from, k, bucket);
    QuietWithin(calls, replies, from, to, from, at, bucket);
    QuietKeepsObjects(h, calls, replies, from, at, bucket);
    hide IsHistory, ClientObjects;
    SourceGrows(h.u.m, bucket, q.p, h.stores[k], t.o, h.o);
    SourceGrows(IDENTITY, bucket, q.p, if bucket in h.u.base then h.u.base[bucket] else map[], t.b, h.b);
    SameFeed(h.u.m, bucket, q.p, p, h.stores[k], h.stores[at], h.o);
    SameFeed(IDENTITY, bucket, q.p, p, if bucket in h.u.base then h.u.base[bucket] else map[],
             if bucket in h.u.base then h.u.base[bucket] else map[], h.b);
    var o, b := OverlayAt(h.u, bucket, q.p, h.stores[k], t.o).AsFeed(), BaselineAt(h.u, bucket, q.p, t.b).AsFeed();
    AcceptedGrows(t.run, h.run, o, b, t.r);
    AcceptedIsStable(h.run, o, b, OverlayFeedAt(h, at, bucket, p), BaselineFeedAt(h, bucket, p), t.r);
  }

  lemma QuietWithin(calls: seq<Call>, replies: seq<Reply>, from: nat, to: nat, lo: nat, hi: nat, bucket: string)
    requires |calls| == |replies| && from <= lo <= hi <= to <= |calls| && IsQuiet(calls, replies, from, to, bucket)
    ensures IsQuiet(calls, replies, lo, hi, bucket)
  {
  }

  lemma SourceGrows(m: Mapping, bucket: string, p: ListParams, stored: Contents, tokens: Tokens, later: Tokens)
    requires TokensKept(tokens, later)
    ensures SourceAt(m, bucket, p, stored, tokens).AsFeed().ExtendedBy(SourceAt(m, bucket, p, stored, later).AsFeed())
  {
    hide BucketListing, BackendPrefix, BackendLimit;
    FeedIsStable(SourceAt(m, bucket, p, stored, tokens), SourceAt(m, bucket, p, stored, later));
  }

  lemma PicksAreCalls(h: History, calls: seq<Call>, replies: seq<Reply>, picks: seq<nat>,
                      bucket: string, prefix: string, delimiter: string)
    requires IsListing(h, calls, replies, picks, bucket, prefix, delimiter)
    ensures |calls| == |replies| == |h.traces| && picks != []
    ensures forall i :: 0 <= i < |picks| ==> picks[i] < |calls| && calls[picks[i]].GetPage?
    ensures forall i :: 0 <= i < |picks| ==> replies[picks[i]].OfList? && replies[picks[i]].answer.Success?
    ensures calls[picks[0]].q.p.after == "" && !replies[picks[|picks| - 1]].answer.value.truncated
    ensures forall i :: 0 <= i < |picks| ==> ListsFor(calls[picks[i]], replies[picks[i]], bucket, prefix, delimiter)
  {
  }

  lemma PicksFollow(h: History, calls: seq<Call>, replies: seq<Reply>, picks: seq<nat>,
                    bucket: string, prefix: string, delimiter: string, i: nat)
    requires IsListing(h, calls, replies, picks, bucket, prefix, delimiter) && i + 1 < |picks|
    requires h.traces[picks[i]].r.page == replies[picks[i]].answer.value
    requires h.traces[picks[i + 1]].r.look < |h.run|
    requires h.run[h.traces[picks[i + 1]].r.look]
             == Lookup(calls[picks[i + 1]].q.p.after, calls[picks[i + 1]].q.lookedUp)
    ensures Follows(h.run, h.traces[picks[i]].r, h.traces[picks[i + 1]].r)
  {
    hide InTime, BackendLimit;
    assert GoesOn(h, calls, replies, picks[i], picks[i + 1]);
  }

  /** All calls of a listing lie within two moments. */
  predicate AreWithin(picks: seq<nat>, from: nat, to: nat) {
    forall i :: 0 <= i < |picks| ==> from <= picks[i] <= to
  }

  /** The calls of a listing are a traversal of the feeds of any quiet moment around them. */
  lemma ListingIsTraversal(h: History, calls: seq<Call>, replies: seq<Reply>, picks: seq<nat>,
                           bucket: string, p: ListParams, from: nat, to: nat, at: nat)
    requires IsHistory(h, calls, replies) && IsBucketName(bucket) && BackendLimit(p.maxKeys) != 0
    requires IsListing(h, calls, replies, picks, bucket, p.prefix, p.delimiter)
    requires AreWithin(picks, from, to) && from <= at <= to <= |calls| && IsQuiet(calls, replies, from, to, bucket)
    ensures IsTraversal(h.run, OverlayFeedAt(h, at, bucket, p), BaselineFeedAt(h, bucket, p), Picked(h, picks))
    ensures Pages(Picked(h, picks)) == PickedPages(replies, picks)
    ensures h.run[Picked(h, picks)[0].look].token == ""
  {
    hide *;
    HistoryParts(h, calls, replies);
    PicksAreCalls(h, calls, replies, picks, bucket, p.prefix, p.delimiter);
    PicksLieWithin(picks, from, to);
    var o, b, rs := OverlayFeedAt(h, at, bucket, p), BaselineFeedAt(h, bucket, p), Picked(h, picks);
    forall i | 0 <= i < |picks|
      ensures Accepted(h.run, o, b, rs[i]) && rs[i].page == replies[picks[i]].answer.value && rs[i].look < |h.run|
      ensures h.run[rs[i].look] == Lookup(calls[picks[i]].q.p.after, calls[picks[i]].q.lookedUp)
    {
      PageIsAccepted(h, calls, replies, picks[i], at, from, to, bucket, p);
    }
    forall i | 0 <= i < |rs| - 1 ensures Follows(h.run, rs[i], rs[i + 1]) {
      PicksFollow(h, calls, replies, picks, bucket, p.prefix, p.delimiter, i);
    }
    assert Pages(rs) == PickedPages(replies, picks);
    AnyTraversal(h.run, o, b, rs);
  }

  lemma PicksLieWithin(picks: seq<nat>, from: nat, to: nat)
    requires AreWithin(picks, from, to)
    ensures forall i :: 0 <= i < |picks| ==> from <= picks[i] <= to
  {
  }

  lemma AnyTraversal(run: seq<Event>, o: Feed, b: Feed, rs: seq<Request>)
    requires IsRun(run) && rs != [] && !rs[|rs| - 1].page.truncated
    requires forall i :: 0 <= i < |rs| ==> Accepted(run, o, b, rs[i])
    requires forall i :: 0 <= i < |rs| - 1 ==> Follows(run, rs[i], rs[i + 1])
    ensures IsTraversal(run, o, b, rs)
  {
    hide Accepted, Follows, IsRun;
  }

  /** The feeds of a moment start with what the single map shows of the bucket at that moment. */
  lemma FeedsStartWithState(h: History, at: nat, bucket: string, p: ListParams)
    requires h.u.m.bucket != "" && at < |h.stores| && IsBucketName(bucket) && BackendLimit(p.maxKeys) != 0
    ensures var o, b := OverlayFeedAt(h, at, bucket, p), BaselineFeedAt(h, bucket, p);
            && "" in o.rests && "" in b.rests && Ordered(o.rests[""]) && Ordered(b.rests[""])
            && Merge(o.rests[""], b.rests[""])
               == BucketListing(Slice(StateOf(h.u, h.stores[at]), bucket), p.prefix, p.delimiter)
  {
    var base := if bucket in h.u.base then h.u.base[bucket] else map[];
    hide Merge, BucketListing, BackendLimit, BackendPrefix, ClientObjects, Source.AsFeed, Abstraction, Slice;
    FeedFromStart(OverlayAt(h.u, bucket, p, h.stores[at], h.o), h.stores[at], p.prefix, p.delimiter);
    FeedFromStart(BaselineAt(h.u, bucket, p, h.b), base, p.prefix, p.delimiter);
    MergedListing(ClientObjects(IDENTITY, base, bucket), ClientObjects(h.u.m, h.stores[at], bucket), p.prefix,
                  p.delimiter);
    SliceIsView(StateOf(h.u, h.stores[at]), bucket, ViewOf(h.u.m, h.stores[at], h.u.base, bucket));
  }

  /**
   How many entries a reply holds, in terms of the limit of its call: 1000 if it is not positive.
   It is truncated exactly if more entries were left to list than that, and is full then.
   */
  lemma RepliesHoldLimit(h: History, calls: seq<Call>, replies: seq<Reply>, k: nat)
    requires IsHistory(h, calls, replies) && k < |calls| && calls[k].GetPage? && IsPage(replies[k])
    ensures var t, q, page := h.traces[k], calls[k].q, replies[k].answer.value;
            var limit := if q.p.maxKeys > 0 then q.p.maxKeys else 1000;
            var o := OverlayAt(h.u, q.bucket, q.p, h.stores[k], t.o).AsFeed();
            var b := BaselineAt(h.u, q.bucket, q.p, t.b).AsFeed();
            && t.r.look < |t.run| && t.run[t.r.look].Lookup? && Resumes(t.run, o, b, t.r.look)
            && var left := |Pending(t.run, o, b, t.r.look)|;
               && (page.truncated <==> left > limit)
               && |page.objects| + |page.commonPrefixes| == if page.truncated then limit else left
  {
    var t, q := h.traces[k], calls[k].q;
    assert IsStepOf(h, calls, replies, k);
    hide IsHistory, Source.AsFeed, SourceAt, IsRun, TokensKept, Pending, Loops.AreFetched, Nesting.Executes;
    hide CutsPage;
    var o, b := OverlayAt(h.u, q.bucket, q.p, h.stores[k], t.o).AsFeed(), BaselineAt(h.u, q.bucket, q.p, t.b).AsFeed();
    PageHoldsLimit(Pending(t.run, o, b, t.r.look), q.p.maxKeys, replies[k].answer.value);
  }

  /**
   Listings through the server. Whatever listings, reads and writes of whatever clients are served
   in between, as long as nobody writes to the bucket, the pages that one client collects by
   following tokens list exactly what the bucket holds, at any moment meanwhile.
   */
  lemma ServedListingsShowTheBucket(h: History, calls: seq<Call>, replies: seq<Reply>, picks: seq<nat>,
                                    bucket: string, prefix: string, delimiter: string, from: nat, to: nat, at: nat)
    requires IsHistory(h, calls, replies) && IsBucketName(bucket)
    requires IsListing(h, calls, replies, picks, bucket, prefix, delimiter)
    requires AreWithin(picks, from, to) && from <= at <= to <= |calls| && IsQuiet(calls, replies, from, to, bucket)
    ensures Listed(PickedPages(replies, picks))
            == BucketListing(Slice(StateOf(h.u, h.stores[at]), bucket), prefix, delimiter)
    ensures var listed := Listed(PickedPages(replies, picks));
            forall i, j :: 0 <= i < j < |listed| ==> Precedes(listed[i].Key(), listed[j].Key())
  {
    hide IsHistory, IsListing, IsQuiet, AreWithin, BackendLimit, Slice, StateOf, BucketListing, Merge, Listed;
    hide IsTraversal, Ordered;
    HistoryParts(h, calls, replies);
    PicksAreCalls(h, calls, replies, picks, bucket, prefix, delimiter);
    var p := ListParams(prefix, delimiter, "", 0);
    DefaultLimit();
    ListingIsTraversal(h, calls, replies, picks, bucket, p, from, to, at);
    FeedsStartWithState(h, at, bucket, p);
    TraversalListsMerge(h.run, OverlayFeedAt(h, at, bucket, p), BaselineFeedAt(h, bucket, p), Picked(h, picks));
    OrderedIsByteOrder(Listed(PickedPages(replies, picks)));
  }

  lemma DefaultLimit()
    ensures BackendLimit(0) != 0
  {
  }

  /** A HEAD tells what a listing shows under its key. */
  ghost predicate HeadMatches(head: Response, listing: seq<Entry>, key: string) {
    if head.ObjectHeaders? then
      exists e :: e in listing && e.ObjectEntry? && e.meta.key == key
                  && e.meta.size == head.meta.size && "\"" + e.meta.etag + "\"" == head.meta.etag
                  && e.meta.lastModified == head.meta.lastModified
    else head == NO_SUCH_KEY && !HasKey(listing, key)
  }

  lemma ListingShowsHeads(view: map<string, Object>, key: string)
    ensures HeadMatches(HeadOf(view, key), BucketListing(view, "", ""), key)
  {
    var g := Grouped(view, "", "");
    GroupedWithoutDelimiter(view, "", key);
    hide Grouped, List, Ordered;
    if key in view {
      assert g[key] in BucketListing(view, "", "");
      assert g[key].ObjectEntry? && g[key].meta == Describe(key, view[key]);
    }
  }

  /**
   Listings agree with reads: a HEAD served before, between or after the pages of a listing of the
   whole bucket finds a key exactly if the pages show it, with the size and the tag shown, as long
   as nobody writes to the bucket meanwhile.
   */
  lemma HeadsAgreeWithListings(h: History, calls: seq<Call>, replies: seq<Reply>, picks: seq<nat>,
                               bucket: string, key: string, from: nat, to: nat, k: nat)
    requires IsHistory(h, calls, replies) && IsBucketName(bucket)
    requires IsListing(h, calls, replies, picks, bucket, "", "")
    requires AreWithin(picks, from, to) && from <= k < to <= |calls| && IsQuiet(calls, replies, from, to, bucket)
    requires calls[k].Do? && calls[k].op == Head(bucket, key)
    requires replies[k].OfOperation? && !replies[k].response.BackendFailure?
    ensures HeadMatches(replies[k].response, Listed(PickedPages(replies, picks)), key)
  {
    assert IsStepOf(h, calls, replies, k);
    hide IsHistory, IsListing, IsQuiet, AreWithin, Slice, StateOf, BucketListing, Listed, HeadOf, HeadMatches;
    hide OthersStay;
    ServedListingsShowTheBucket(h, calls, replies, picks, bucket, "", "", from, to, k);
    ListingShowsHeads(Slice(StateOf(h.u, h.stores[k]), bucket), key);
  }

  // ---------------------------------------------------------------- below another overlay store

  /** Some calls for pages of a bucket, each from the start or with the token of another of them in time. */
  predicate AreAsked(h: History, calls: seq<Call>, replies: seq<Reply>, ks: set<nat>, from: nat, to: nat,
                     bucket: string, prefix: string, delimiter: string)
  {
    && |calls| == |replies| == |h.traces|
    && forall k :: k in ks ==>
         && from <= k <= to && k < |calls| && ListsFor(calls[k], replies[k], bucket, prefix, delimiter)
         && (calls[k].q.p.after == "" || exists j :: j in ks && GoesOn(h, calls, replies, j, k))
  }

  function RequestsAt(h: History, ks: set<nat>): set<Request>
    requires forall k :: k in ks ==> k < |h.traces|
  {
    set k | k in ks :: h.traces[k].r
  }

  lemma AskedIsAccepted(h: History, calls: seq<Call>, replies: seq<Reply>, ks: set<nat>, from: nat, to: nat,
                        bucket: string, p: ListParams, at: nat, k: nat)
    requires IsHistory(h, calls, replies) && IsBucketName(bucket) && BackendLimit(p.maxKeys) != 0
    requires from <= at <= to <= |calls| && IsQuiet(calls, replies, from, to, bucket)
    requires AreAsked(h, calls, replies, ks, from, to, bucket, p.prefix, p.delimiter) && k in ks
    ensures Accepted(h.run, OverlayFeedAt(h, at, bucket, p), BaselineFeedAt(h, bucket, p), h.traces[k].r)
    ensures Nesting.IsAsked(h.run, RequestsAt(h, ks), h.traces[k].r)
  {
    hide IsHistory, IsQuiet, BackendLimit, Accepted, OverlayFeedAt, BaselineFeedAt, InTime;
    PageIsAccepted(h, calls, replies, k, at, from, to, bucket, p);
    if calls[k].q.p.after != "" {
      var j :| j in ks && GoesOn(h, calls, replies, j, k);
      PageIsAccepted(h, calls, replies, j, at, from, to, bucket, p);
      assert h.traces[j].r in RequestsAt(h, ks) && Follows(h.run, h.traces[j].r, h.traces[k].r);
    }
  }

  lemma ServedPagesAreAnswered(h: History, calls: seq<Call>, replies: seq<Reply>, ks: set<nat>, from: nat, to: nat,
                               bucket: string, p: ListParams, at: nat)
    requires IsHistory(h, calls, replies) && IsBucketName(bucket) && BackendLimit(p.maxKeys) != 0
    requires from <= at <= to <= |calls| && IsQuiet(calls, replies, from, to, bucket)
    requires AreAsked(h, calls, replies, ks, from, to, bucket, p.prefix, p.delimiter)
    ensures Nesting.AreAnswered(h.run, OverlayFeedAt(h, at, bucket, p), BaselineFeedAt(h, bucket, p), RequestsAt(h, ks))
  {
    HistoryParts(h, calls, replies);
    hide IsHistory, IsQuiet, BackendLimit, Accepted, Nesting.IsAsked, OverlayFeedAt, BaselineFeedAt, IsRun;
    forall r | r in RequestsAt(h, ks)
      ensures Accepted(h.run, OverlayFeedAt(h, at, bucket, p), BaselineFeedAt(h, bucket, p), r)
      ensures Nesting.IsAsked(h.run, RequestsAt(h, ks), r)
    {
      var k :| k in ks && h.traces[k].r == r;
      AskedIsAccepted(h, calls, replies, ks, from, to, bucket, p, at, k);
    }
  }

  /**
   A server below another overlay store: let the other store merge pages that the server answered
   with, as its baseline, and pages of any store as its overlay. Then a client that follows the
   other store's tokens lists what the server holds overridden by what the overlay lists.
   */
  lemma StoresOverServersListEverything(h: History, calls: seq<Call>, replies: seq<Reply>, ks: set<nat>,
                                        from: nat, to: nat, bucket: string, p: ListParams, at: nat,
                                        run: seq<Event>, top: Feed, ts: set<Loops.Answered>, high: map<string, Object>,
                                        xs: set<Nesting.Execution>, mine: seq<Nesting.Execution>)
    requires IsHistory(h, calls, replies) && IsBucketName(bucket) && BackendLimit(p.maxKeys) != 0
    requires from <= at <= to <= |calls| && IsQuiet(calls, replies, from, to, bucket)
    requires AreAsked(h, calls, replies, ks, from, to, bucket, p.prefix, p.delimiter)
    requires Nesting.Backs(top, ts) && Nesting.Lists(top, high, p.prefix, p.delimiter)
    requires Nesting.IsSession(run, ts, Nesting.AnswersTo(h.run, RequestsAt(h, ks)), xs)
             && Nesting.ListsAll(run, xs, mine)
    ensures Listed(Pages(Nesting.Requests(mine)))
         == BucketListing(Slice(StateOf(h.u, h.stores[at]), bucket) + high, p.prefix, p.delimiter)
  {
    hide IsHistory, IsQuiet, GoesOn, ListsFor, BackendLimit, Slice, StateOf, BucketListing, Merge, Ordered, Listed;
    hide OverlayFeedAt, BaselineFeedAt, Nesting.OverlayFeed, Nesting.AnswersTo, Nesting.Backs, Nesting.IsSession;
    hide Nesting.ListsAll, Nesting.AreAnswered;
    HistoryParts(h, calls, replies);
    var o, b, rs := OverlayFeedAt(h, at, bucket, p), BaselineFeedAt(h, bucket, p), RequestsAt(h, ks);
    ServedPagesAreAnswered(h, calls, replies, ks, from, to, bucket, p, at);
    FeedsStartWithState(h, at, bucket, p);
    Nesting.OverlaysBack(h.run, o, b, rs);
    Nesting.OverlayStarts(h.run, o, b);
    Nesting.ListingsShowMerge(run, top, Nesting.OverlayFeed(h.run, o, b), ts, Nesting.AnswersTo(h.run, rs), xs, mine);
    MergedListing(Slice(StateOf(h.u, h.stores[at]), bucket), high, p.prefix, p.delimiter);
  }
}
