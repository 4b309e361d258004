/**
 Listing a growing bucket through the server: writes to the bucket may be served between any two
 pages of a listing of it.
 */
module GrowthRuns {
  import opened Order
  import opened Listing
  import opened KeyMapping
  import opened Streams
  import opened SessionRuns
  import opened S3Store
  import opened Loops
  import opened ListingRuns
  import opened Nesting
  import opened Refinement
  import opened Serving
  import opened ServerRuns
  import Growth

  function BaseOf(h: History, bucket: string): Contents {
    if bucket in h.u.base then h.u.base[bucket] else map[]
  }

  /** The backends as they answered the k-th call, with all tokens handed out by the end. */
  function OverlayOf(h: History, k: nat, bucket: string, p: ListParams): Source
    requires k < |h.stores|
  {
    OverlayAt(h.u, bucket, p, h.stores[k], h.o)
  }

  function BaselineOf(h: History, bucket: string, p: ListParams): Source {
    BaselineAt(h.u, bucket, p, h.b)
  }

  lemma ExecutesGrows(run: seq<Event>, later: seq<Event>, os: set<Answered>, bs: set<Answered>, x: Execution)
    requires Executes(run, os, bs, x) && run <= later
    ensures Executes(later, os, bs, x)
  {
    TableOfPrefix(run, later, x.r.look);
    if x.r.page.truncated {
      TableOfPrefix(run, later, x.r.make + 1);
    }
    hide TableAt, IsLoop, LoopAnswers;
  }

  /** What the history says of an answered call for a page. */
  lemma PageIsExecuted(h: History, calls: seq<Call>, replies: seq<Reply>, k: nat, bucket: string, q: Growth.Query)
    requires IsHistory(h, calls, replies) && k < |calls| && IsBucketName(bucket)
    requires ListsFor(calls[k], replies[k], bucket, q.prefix, q.delimiter)
    ensures var t, p := h.traces[k], calls[k].q.p;
            && AreFetched(OverlayOf(h, k, bucket, p), BaselineOf(h, bucket, p), t.done.os, t.done.bs)
            && Growth.Lists(OverlayOf(h, k, bucket, p), h.stores[k], q)
            && Growth.Lists(BaselineOf(h, bucket, p), BaseOf(h, bucket), q)
            && t.r.page == replies[k].answer.value
            && Executes(h.run, t.done.os, t.done.bs, Execution(t.r, t.done.loop))
            && h.run[t.r.look] == Lookup(p.after, calls[k].q.lookedUp)
  {
    var t, p := h.traces[k], calls[k].q.p;
    assert IsStepOf(h, calls, replies, k);
    hide IsHistory, MapStep, Accepted, AreAnswers, IsRun, BucketListing, BackendPrefix;
    ExecutesGrows(t.run, h.run, t.done.os, t.done.bs, Execution(t.r, t.done.loop));
    hide Executes, TokensKept, BackendLimit;
    var o, b := OverlayAt(h.u, bucket, p, h.stores[k], t.o), BaselineAt(h.u, bucket, p, t.b);
    AnswersAreStable(o, OverlayOf(h, k, bucket, p), t.done.os);
    AnswersAreStable(b, BaselineOf(h, bucket, p), t.done.bs);
  }

  lemma StepGrows(u: Setup, before: Contents, call: Call, reply: Reply, t: Trace, time: int, after: Contents,
                  bucket: string)
    requires u.m.bucket != "" && IsStep(u, before, call, reply, t, time, after) && IsBucketName(bucket)
    ensures ClientObjects(u.m, before, bucket).Keys <= ClientObjects(u.m, after, bucket).Keys
  {
    hide ClientObjects, MapStep, IsTraced;
  }

  function KeysAt(h: History, k: nat, bucket: string): set<string>
    requires k < |h.stores|
  {
    ClientObjects(h.u.m, h.stores[k], bucket).Keys
  }

  lemma KeysGrowByStep(h: History, calls: seq<Call>, replies: seq<Reply>, k: nat, bucket: string)
    requires IsHistory(h, calls, replies) && IsBucketName(bucket) && k < |calls|
    ensures KeysAt(h, k, bucket) <= KeysAt(h, k + 1, bucket)
  {
    hide IsStep, ClientObjects;
    assert IsStepOf(h, calls, replies, k);
    StepGrows(h.u, h.stores[k], calls[k], replies[k], h.traces[k], h.times[k], h.stores[k + 1], bucket);
  }

  /** No operation takes a key away from a bucket. */
  lemma {:induction false} KeysGrow(h: History, calls: seq<Call>, replies: seq<Reply>, from: nat, to: nat,
                                    bucket: string)
    requires IsHistory(h, calls, replies) && IsBucketName(bucket) && from <= to <= |calls|
    ensures KeysAt(h, from, bucket) <= KeysAt(h, to, bucket)
  {
    hide *;
    HistoryParts(h, calls, replies);
    if from < to {
      KeysGrow(h, calls, replies, from, to - 1, bucket);
      KeysGrowByStep(h, calls, replies, to - 1, bucket);
    }
  }

  lemma EntryKeysGrow(less: map<string, Object>, more: map<string, Object>, q: Growth.Query)
    requires less.Keys <= more.Keys
    ensures Growth.EntryKeys(less, q) <= Growth.EntryKeys(more, q)
  {
    assert more.Keys == less.Keys + more.Keys;
    GroupKeysUnion(less.Keys, more.Keys, q.prefix, q.delimiter);
  }

  lemma {:induction false} ListedAppend(pages: seq<ListPage>, page: ListPage)
    ensures Listed(pages + [page]) == Listed(pages) + MergedPage(page.objects, page.commonPrefixes)
  {
    if pages == [] {
      assert pages + [page] == [page] && Listed([page][1..]) == [];
    } else {
      assert (pages + [page])[1..] == pages[1..] + [page];
      ListedAppend(pages[1..], page);
    }
  }

  /** The machine of growing listings at some place of the loop that answered the k-th call. */
  function MachineAt(h: History, k: nat, bucket: string, p: ListParams, q: Growth.Query, l: Loop,
                     before: seq<Entry>): Growth.State
    requires k < |h.stores|
    requires OverlayOf(h, k, bucket, p).KnowsState(l.oc) && BaselineOf(h, bucket, p).KnowsState(l.bc)
  {
    Growth.StateAt(OverlayOf(h, k, bucket, p), h.stores[k], BaselineOf(h, bucket, p), BaseOf(h, bucket),
                   q, l, before, [])
  }

  ghost predicate IsSoundAt(h: History, first: Growth.State, k: nat, bucket: string, p: ListParams, q: Growth.Query,
                            l: Loop, before: seq<Entry>)
  {
    && k < |h.stores|
    && OverlayOf(h, k, bucket, p).KnowsState(l.oc) && BaselineOf(h, bucket, p).KnowsState(l.bc)
    && Growth.Invariant(q, first, MachineAt(h, k, bucket, p, q, l, before))
  }

  const BEGIN := Loop(START, START, [])

  /** A listing that begins is sound. */
  lemma BeginsSound(h: History, k: nat, bucket: string, p: ListParams, q: Growth.Query)
    requires k < |h.stores|
    ensures IsSoundAt(h, MachineAt(h, k, bucket, p, q, BEGIN, []), k, bucket, p, q, BEGIN, [])
  {
    hide ClientObjects, BucketListing, BackendPrefix, BackendLimit, ListPrefix, GroupKeys;
    hide Growth.EntryKeys, Growth.IsSound;
    var s := MachineAt(h, k, bucket, p, q, BEGIN, []);
    Growth.InitialIsSound(q, s.(saved := [s.at]));
  }

  /** What changes between pages are the overlay's keys alone. */
  lemma SamePlace(h: History, j: nat, k: nat, bucket: string, p: ListParams, r: ListParams, q: Growth.Query,
                  l: Loop, before: seq<Entry>)
    requires j < |h.stores| && k < |h.stores|
    requires OverlayOf(h, j, bucket, p).KnowsState(l.oc) && BaselineOf(h, bucket, p).KnowsState(l.bc)
    ensures OverlayOf(h, k, bucket, r).KnowsState(l.oc) && BaselineOf(h, bucket, r).KnowsState(l.bc)
    ensures MachineAt(h, k, bucket, r, q, Loop(l.oc, l.bc, []), before + l.shown)
         == MachineAt(h, j, bucket, p, q, l, before).(overlay := ClientObjects(h.u.m, h.stores[k], bucket))
  {
    hide ClientObjects, BucketListing, BackendPrefix, BackendLimit, ListPrefix;
    assert before + l.shown + [] == before + l.shown;
  }

  /** From the end of one page to the beginning of the next, whatever is written in between. */
  lemma NextBeginsSound(h: History, calls: seq<Call>, replies: seq<Reply>, first: Growth.State, j: nat, k: nat,
                        bucket: string, p: ListParams, r: ListParams, q: Growth.Query, l: Loop, before: seq<Entry>)
    requires IsHistory(h, calls, replies) && IsBucketName(bucket) && j <= k <= |calls|
    requires IsSoundAt(h, first, j, bucket, p, q, l, before)
    ensures IsSoundAt(h, first, k, bucket, r, q, Loop(l.oc, l.bc, []), before + l.shown)
  {
    KeysGrow(h, calls, replies, j, k, bucket);
    HistoryParts(h, calls, replies);
    SamePlace(h, j, k, bucket, p, r, q, l, before);
    var less, more := ClientObjects(h.u.m, h.stores[j], bucket), ClientObjects(h.u.m, h.stores[k], bucket);
    EntryKeysGrow(less, more, q);
    var s := MachineAt(h, j, bucket, p, q, l, before);
    OverlayIs(h, j, bucket, p, q, l, before);
    hide IsHistory, ClientObjects, Growth.IsSound, Growth.EntryKeys, MachineAt, OverlayOf, BaselineOf;
    Growth.GrowthKeepsSound(Growth.EntryKeys(first.overlay, q), Growth.EntryKeys(less, q), Growth.EntryKeys(more, q),
                            s.baseline, s.at);
  }

  lemma OverlayIs(h: History, k: nat, bucket: string, p: ListParams, q: Growth.Query, l: Loop, before: seq<Entry>)
    requires k < |h.stores|
    requires OverlayOf(h, k, bucket, p).KnowsState(l.oc) && BaselineOf(h, bucket, p).KnowsState(l.bc)
    ensures MachineAt(h, k, bucket, p, q, l, before).overlay == ClientObjects(h.u.m, h.stores[k], bucket)
    ensures MachineAt(h, k, bucket, p, q, l, before).baseline
         == GroupKeys(ClientObjects(IDENTITY, BaseOf(h, bucket), bucket).Keys, q.prefix, q.delimiter)
    ensures MachineAt(h, k, bucket, p, q, l, before).saved == []
    ensures MachineAt(h, k, bucket, p, q, l, before).at.emitted == before + l.shown
  {
    hide ClientObjects, BucketListing, BackendPrefix, BackendLimit, ListPrefix;
  }

  /** Serving a page keeps a listing sound. */
  lemma PageKeepsSound(h: History, calls: seq<Call>, replies: seq<Reply>, first: Growth.State, k: nat,
                       bucket: string, q: Growth.Query, before: seq<Entry>)
    requires IsHistory(h, calls, replies) && k < |calls| && IsBucketName(bucket)
    requires ListsFor(calls[k], replies[k], bucket, q.prefix, q.delimiter)
    requires h.traces[k].done.loop != []
    requires IsSoundAt(h, first, k, bucket, calls[k].q.p, q, h.traces[k].done.loop[0], before)
    ensures var loop := h.traces[k].done.loop;
            IsSoundAt(h, first, k, bucket, calls[k].q.p, q, loop[|loop| - 1], before)
  {
    var t, p := h.traces[k], calls[k].q.p;
    PageIsExecuted(h, calls, replies, k, bucket, q);
    hide IsHistory, TableAt, Growth.Invariant, AreFetched, Growth.Lists, LoopAnswers, LoopStep;
    Growth.RequestsKeepInvariant(OverlayOf(h, k, bucket, p), h.stores[k],
                                 BaselineOf(h, bucket, p), BaseOf(h, bucket), q,
                                 t.done.os, t.done.bs, t.r.max, t.done.loop, before, [], first, |t.done.loop| - 1);
  }

  /** Where the loop ended that answered a call. */
  function EndOf(h: History, k: nat): Loop
    requires k < |h.traces| && h.traces[k].done.loop != []
  {
    h.traces[k].done.loop[|h.traces[k].done.loop| - 1]
  }

  lemma SoundIsOrdered(h: History, first: Growth.State, k: nat, bucket: string, p: ListParams, q: Growth.Query,
                       l: Loop, before: seq<Entry>)
    requires IsSoundAt(h, first, k, bucket, p, q, l, before)
    ensures Ordered(before + l.shown) && Ordered(l.shown)
  {
    OverlayIs(h, k, bucket, p, q, l, before);
    hide MachineAt, Growth.Separated, Growth.Covers, Growth.Stems, Growth.EntryKeys;
    OrderedSlices(before + l.shown, |before|);
    assert (before + l.shown)[|before|..] == l.shown;
  }

  /** A page shows what its loop emitted. */
  lemma PageShowsLoop(h: History, calls: seq<Call>, replies: seq<Reply>, first: Growth.State, k: nat,
                      bucket: string, q: Growth.Query, before: seq<Entry>)
    requires IsHistory(h, calls, replies) && k < |calls| && IsBucketName(bucket)
    requires ListsFor(calls[k], replies[k], bucket, q.prefix, q.delimiter) && h.traces[k].done.loop != []
    requires IsSoundAt(h, first, k, bucket, calls[k].q.p, q, EndOf(h, k), before)
    ensures var page := replies[k].answer.value; MergedPage(page.objects, page.commonPrefixes) == EndOf(h, k).shown
  {
    PageIsExecuted(h, calls, replies, k, bucket, q);
    SoundIsOrdered(h, first, k, bucket, calls[k].q.p, q, EndOf(h, k), before);
    hide IsHistory, IsSoundAt, TableAt, AreFetched, Growth.Lists, LoopStep, Ordered, MergedPage, OverlayOf, BaselineOf;
    MergedPageRestores(EndOf(h, k).shown);
  }

  /** The first call of a listing begins at the start of both backends. */
  lemma FirstBegins(h: History, calls: seq<Call>, replies: seq<Reply>, k: nat, bucket: string, q: Growth.Query)
    requires IsHistory(h, calls, replies) && k < |calls| && IsBucketName(bucket)
    requires ListsFor(calls[k], replies[k], bucket, q.prefix, q.delimiter) && calls[k].q.p.after == ""
    ensures h.traces[k].done.loop != [] && h.traces[k].done.loop[0] == BEGIN
  {
    PageIsExecuted(h, calls, replies, k, bucket, q);
    hide IsHistory, AreFetched, Growth.Lists, LoopStep, LoopAnswers;
    assert TableAt(h.run, h.traces[k].r.look).Positions("") == (START, START);
  }

  /** A call that goes on begins where the loop before ended. */
  lemma NextBegins(h: History, calls: seq<Call>, replies: seq<Reply>, j: nat, k: nat, bucket: string, q: Growth.Query)
    requires IsHistory(h, calls, replies) && GoesOn(h, calls, replies, j, k) && IsBucketName(bucket)
    requires ListsFor(calls[j], replies[j], bucket, q.prefix, q.delimiter)
    requires ListsFor(calls[k], replies[k], bucket, q.prefix, q.delimiter)
    ensures h.traces[j].done.loop != [] && h.traces[k].done.loop != []
    ensures h.traces[k].done.loop[0] == Loop(EndOf(h, j).oc, EndOf(h, j).bc, [])
  {
    PageIsExecuted(h, calls, replies, j, bucket, q);
    PageIsExecuted(h, calls, replies, k, bucket, q);
    HistoryParts(h, calls, replies);
    TokenResumesExactlyIf(h.run, h.traces[j].r.make, h.traces[k].r.look);
    hide IsHistory, TableAt, InTime, AreFetched, Growth.Lists, LoopStep, LoopAnswers, IsRun;
  }

  /** The machine at the beginning of a listing. */
  function FirstOf(h: History, calls: seq<Call>, k: nat, bucket: string, q: Growth.Query): Growth.State
    requires k < |calls| && k < |h.stores| && calls[k].GetPage?
  {
    MachineAt(h, k, bucket, calls[k].q.p, q, BEGIN, [])
  }

  /** All calls of a listing leave it sound, and what their pages show is what their loops emitted. */
  lemma {:induction false} PicksAreSound(h: History, calls: seq<Call>, replies: seq<Reply>, picks: seq<nat>,
                                         bucket: string, q: Growth.Query, n: nat)
    requires IsHistory(h, calls, replies) && IsBucketName(bucket) && n < |picks| && |h.stores| == |calls| + 1
    requires IsListing(h, calls, replies, picks, bucket, q.prefix, q.delimiter)
    ensures h.traces[picks[n]].done.loop != []
    ensures IsSoundAt(h, FirstOf(h, calls, picks[0], bucket, q), picks[n], bucket, calls[picks[n]].q.p, q,
                      EndOf(h, picks[n]), Listed(PickedPages(replies, picks)[..n]))
    ensures Listed(PickedPages(replies, picks)[..n + 1])
         == Listed(PickedPages(replies, picks)[..n]) + EndOf(h, picks[n]).shown
  {
    hide *;
    PicksAreCalls(h, calls, replies, picks, bucket, q.prefix, q.delimiter);
    HistoryParts(h, calls, replies);
    var first, pages, k := FirstOf(h, calls, picks[0], bucket, q), PickedPages(replies, picks), picks[n];
    var before := Listed(pages[..n]);
    if n == 0 {
      assert pages[..0] == [];
      FirstBegins(h, calls, replies, k, bucket, q);
      FirstIsSound(h, calls, k, bucket, q);
    } else {
      var j := picks[n - 1];
      PickGoesOn(h, calls, replies, picks, bucket, q.prefix, q.delimiter, n - 1);
      PicksAreSound(h, calls, replies, picks, bucket, q, n - 1);
      NextBegins(h, calls, replies, j, k, bucket, q);
      NextBeginsSound(h, calls, replies, first, j, k, bucket, calls[j].q.p, calls[k].q.p, q, EndOf(h, j),
                      Listed(pages[..n - 1]));
    }
    PageKeepsSound(h, calls, replies, first, k, bucket, q, before);
    EndIsLast(h, k);
    PageShowsLoop(h, calls, replies, first, k, bucket, q, before);
    assert pages[..n + 1] == pages[..n] + [pages[n]];
    ListedAppend(pages[..n], pages[n]);
  }

  lemma EndIsLast(h: History, k: nat)
    requires k < |h.traces| && h.traces[k].done.loop != []
    ensures EndOf(h, k) == h.traces[k].done.loop[|h.traces[k].done.loop| - 1]
  {
  }

  lemma PickGoesOn(h: History, calls: seq<Call>, replies: seq<Reply>, picks: seq<nat>,
                   bucket: string, prefix: string, delimiter: string, i: nat)
    requires IsListing(h, calls, replies, picks, bucket, prefix, delimiter) && i + 1 < |picks|
    ensures GoesOn(h, calls, replies, picks[i], picks[i + 1]) && picks[i] < picks[i + 1]
  {
    hide IsInTime;
    assert GoesOn(h, calls, replies, picks[i], picks[i + 1]);
  }

  lemma FirstIsSound(h: History, calls: seq<Call>, k: nat, bucket: string, q: Growth.Query)
    requires k < |calls| && k < |h.stores| && calls[k].GetPage?
    ensures IsSoundAt(h, FirstOf(h, calls, k, bucket, q), k, bucket, calls[k].q.p, q, BEGIN, Listed([]))
  {
    BeginsSound(h, k, bucket, calls[k].q.p, q);
  }

  /** The entry keys that the single map shows of a bucket. */
  ghost function ShownKeys(h: History, k: nat, bucket: string, q: Growth.Query): set<string>
    requires h.u.m.bucket != "" && k < |h.stores|
  {
    Growth.EntryKeys(Slice(StateOf(h.u, h.stores[k]), bucket), q)
  }

  lemma KeysOfUnion(low: map<string, Object>, high: map<string, Object>, q: Growth.Query)
    ensures Growth.EntryKeys(low + high, q) == Growth.EntryKeys(high, q) + Growth.EntryKeys(low, q)
  {
    assert (low + high).Keys == low.Keys + high.Keys;
    GroupKeysUnion(low.Keys, high.Keys, q.prefix, q.delimiter);
  }

  lemma ShownKeysAre(h: History, k: nat, bucket: string, q: Growth.Query)
    requires h.u.m.bucket != "" && k < |h.stores| && IsBucketName(bucket)
    ensures ShownKeys(h, k, bucket, q)
         == Growth.EntryKeys(ClientObjects(h.u.m, h.stores[k], bucket), q)
            + Growth.EntryKeys(ClientObjects(IDENTITY, BaseOf(h, bucket), bucket), q)
  {
    hide ClientObjects, Abstraction, Slice, Growth.EntryKeys;
    SliceIsView(StateOf(h.u, h.stores[k]), bucket, ViewOf(h.u.m, h.stores[k], h.u.base, bucket));
    KeysOfUnion(ClientObjects(IDENTITY, BaseOf(h, bucket), bucket), ClientObjects(h.u.m, h.stores[k], bucket), q);
  }

  lemma PlaceIsExhausted(h: History, k: nat, bucket: string, p: ListParams, q: Growth.Query, l: Loop,
                         before: seq<Entry>)
    requires k < |h.stores| && AreExhausted(l.oc, l.bc)
    requires OverlayOf(h, k, bucket, p).KnowsState(l.oc) && BaselineOf(h, bucket, p).KnowsState(l.bc)
    ensures Growth.Exhausted(MachineAt(h, k, bucket, p, q, l, before).at)
  {
    hide ClientObjects, BucketListing, BackendPrefix, BackendLimit, ListPrefix;
  }

  /** What the soundness of a place at the end of a listing comes to. */
  lemma SoundEndListsAll(h: History, calls: seq<Call>, first: nat, k: nat, bucket: string, q: Growth.Query,
                         l: Loop, before: seq<Entry>)
    requires h.u.m.bucket != "" && IsBucketName(bucket)
    requires first < |calls| && first < |h.stores| && calls[first].GetPage? && k < |calls| && calls[k].GetPage?
    requires IsSoundAt(h, FirstOf(h, calls, first, bucket, q), k, bucket, calls[k].q.p, q, l, before)
    requires AreExhausted(l.oc, l.bc)
    ensures Ordered(before + l.shown)
    ensures forall e :: HasKey(before + l.shown, e) ==> e in ShownKeys(h, k, bucket, q)
    ensures forall e :: e in ShownKeys(h, first, bucket, q) ==> HasKey(before + l.shown, e)
  {
    var s, f := MachineAt(h, k, bucket, calls[k].q.p, q, l, before), FirstOf(h, calls, first, bucket, q);
    FirstIsSound(h, calls, first, bucket, q);
    OverlayIs(h, k, bucket, calls[k].q.p, q, l, before);
    OverlayIs(h, first, bucket, calls[first].q.p, q, BEGIN, []);
    PlaceIsExhausted(h, k, bucket, calls[k].q.p, q, l, before);
    hide MachineAt, ClientObjects, ShownKeys, GroupKeys, Ordered, OverlayOf, BaselineOf, Growth.IsSound, HasKey;
    hide AreExhausted;
    Growth.SoundEnd(Growth.EntryKeys(f.overlay, q), Growth.EntryKeys(s.overlay, q), s.baseline, s.at);
    ShownKeysAre(h, k, bucket, q);
    ShownKeysAre(h, first, bucket, q);
  }

  /**
   Growing listings through the server. Whatever is served between the pages, writes to the very
   bucket included, the pages that one client collects by following tokens show strictly
   increasing keys, none that the bucket does not show at the last page, and every one that it
   showed at the first.
   */
  lemma GrowingListingsAreComplete(h: History, calls: seq<Call>, replies: seq<Reply>, picks: seq<nat>,
                                   bucket: string, q: Growth.Query)
    requires IsHistory(h, calls, replies) && IsBucketName(bucket)
    requires IsListing(h, calls, replies, picks, bucket, q.prefix, q.delimiter)
    ensures h.u.m.bucket != "" && |h.stores| == |calls| + 1
    ensures Ordered(Listed(PickedPages(replies, picks)))
    ensures var listed := Listed(PickedPages(replies, picks));
            forall i, j :: 0 <= i < j < |listed| ==> Precedes(listed[i].Key(), listed[j].Key())
    ensures forall k :: HasKey(Listed(PickedPages(replies, picks)), k) ==>
                          k in ShownKeys(h, picks[|picks| - 1], bucket, q)
    ensures forall k :: k in ShownKeys(h, picks[0], bucket, q) ==> HasKey(Listed(PickedPages(replies, picks)), k)
  {
    hide *;
    HistoryParts(h, calls, replies);
    PicksAreCalls(h, calls, replies, picks, bucket, q.prefix, q.delimiter);
    var n, pages := |picks| - 1, PickedPages(replies, picks);
    PicksAreSound(h, calls, replies, picks, bucket, q, n);
    assert pages[..n + 1] == pages;
    LastIsExhausted(h, calls, replies, picks[n], bucket, q);
    SoundEndListsAll(h, calls, picks[0], picks[n], bucket, q, EndOf(h, picks[n]), Listed(pages[..n]));
    OrderedIsByteOrder(Listed(pages));
  }

  lemma LastIsExhausted(h: History, calls: seq<Call>, replies: seq<Reply>, k: nat, bucket: string, q: Growth.Query)
    requires IsHistory(h, calls, replies) && k < |calls| && IsBucketName(bucket)
    requires ListsFor(calls[k], replies[k], bucket, q.prefix, q.delimiter)
    requires !replies[k].answer.value.truncated && h.traces[k].done.loop != []
    ensures AreExhausted(EndOf(h, k).oc, EndOf(h, k).bc)
  {
    PageIsExecuted(h, calls, replies, k, bucket, q);
    hide IsHistory, TableAt, AreFetched, Growth.Lists, LoopStep;
  }
}
