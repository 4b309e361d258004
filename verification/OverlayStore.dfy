/**
 Two layers of one bucket: what is written goes to the upper one, what is read comes from the
 upper one if it is there and else from the lower one, and a listing is fetched from both, page
 by page as each of them pleases, and merged by key.
 */
module OverlayStore {
  import opened Order
  import opened Results
  import opened Listing
  import opened KeyMapping
  import opened Numbers
  import opened Ranges
  import opened Streams
  import opened Sessions
  import opened BodyErrors
  import opened S3Store
  import opened Loops

  /** Whether the merge of a page takes the next object rather than the next common prefix. */
  predicate TakesObject(objects: seq<ObjectMeta>, prefixes: seq<string>, oi: nat, pi: nat)
    requires oi <= |objects| && pi <= |prefixes|
  {
    pi >= |prefixes|
    || (oi < |objects| && (objects[oi].key == prefixes[pi] || Less(objects[oi].key, prefixes[pi])))
  }

  lemma MergedPageStep(objects: seq<ObjectMeta>, prefixes: seq<string>, oi: nat, pi: nat)
    requires oi <= |objects| && pi <= |prefixes| && (oi < |objects| || pi < |prefixes|)
    ensures MergedPage(objects[oi..], prefixes[pi..])
         == if TakesObject(objects, prefixes, oi, pi) then
              [ObjectEntry(objects[oi])] + MergedPage(objects[oi + 1..], prefixes[pi..])
            else
              [PrefixEntry(prefixes[pi])] + MergedPage(objects[oi..], prefixes[pi + 1..])
  {
    assert oi < |objects| ==> objects[oi..][1..] == objects[oi + 1..];
    assert pi < |prefixes| ==> prefixes[pi..][1..] == prefixes[pi + 1..];
  }

  /** The index loop that merges the two halves of a backend page. */
  method MergePageEntries(page: ListPage) returns (entries: seq<Entry>)
    ensures entries == MergedPage(page.objects, page.commonPrefixes)
  {
    entries := [];
    var oi, pi := 0, 0;
    assert page.objects[0..] == page.objects && page.commonPrefixes[0..] == page.commonPrefixes;
    while oi < |page.objects| || pi < |page.commonPrefixes|
      invariant 0 <= oi <= |page.objects| && 0 <= pi <= |page.commonPrefixes|
      invariant entries + MergedPage(page.objects[oi..], page.commonPrefixes[pi..])
             == MergedPage(page.objects, page.commonPrefixes)
      decreases |page.objects| - oi + |page.commonPrefixes| - pi
    {
      MergedPageStep(page.objects, page.commonPrefixes, oi, pi);
      assert TakesObject(page.objects, page.commonPrefixes, oi, pi) ==> oi < |page.objects|;
      assert !TakesObject(page.objects, page.commonPrefixes, oi, pi) ==> pi < |page.commonPrefixes|;
      hide MergedPage, TakesObject;
      if TakesObject(page.objects, page.commonPrefixes, oi, pi) {
        ConcatAssociative(entries, [ObjectEntry(page.objects[oi])],
                          MergedPage(page.objects[oi + 1..], page.commonPrefixes[pi..]));
        entries := entries + [ObjectEntry(page.objects[oi])];
        oi := oi + 1;
      } else {
        ConcatAssociative(entries, [PrefixEntry(page.commonPrefixes[pi])],
                          MergedPage(page.objects[oi..], page.commonPrefixes[pi + 1..]));
        entries := entries + [PrefixEntry(page.commonPrefixes[pi])];
        pi := pi + 1;
      }
    }
  }

  /** Streams one backend's listing from a resume position. */
  class ListCursor {
    const store: Store
    const bucket: string
    const p: ListParams
    const tolerateMissing: bool
    var after: string
    var entries: seq<Entry>
    var idx: nat
    var done: bool

    constructor (store: Store, bucket: string, p: ListParams, st: CursorState, tolerateMissing: bool)
      requires KnownToken(st, store.client.tokens)
      ensures this.store == store && this.bucket == bucket && this.p == p && this.tolerateMissing == tolerateMissing
      ensures Valid() && Stream() == store.SourceOf(bucket, p).Stream(st) && Position() == st
    {
      this.store := store;
      this.bucket := bucket;
      this.p := p;
      this.tolerateMissing := tolerateMissing;
      after := st.after;
      entries := st.remaining;
      idx := 0;
      done := st.done;
    }

    function Source(): Source
      reads store.client
    {
      store.SourceOf(bucket, p)
    }

    function Position(): CursorState
      requires idx <= |entries|
      reads this
    {
      CursorState(after, entries[idx..], done)
    }

    predicate Valid()
      reads this, store.client`tokens
    {
      idx <= |entries| && KnownToken(Position(), store.client.tokens)
    }

    /** Whether no request for the rest of the listing can fail. */
    predicate Steady()
      reads store.client`buckets
    {
      store.client.reliable && 0 <= BackendLimit(p.maxKeys)
          && (tolerateMissing || store.Physical(bucket) in store.client.buckets)
    }

    /** The entries this cursor has yet to deliver. */
    function Stream(): seq<Entry>
      requires Valid()
      reads this, store.client
    {
      Source().Stream(Position())
    }

    /** Fetches one page once the entries at hand are consumed; the stream stays the same. */
    method Fetch() returns (r: Result<(), Error>, ghost a: Answered)
      requires Valid() && idx >= |entries| && !done
      requires IsBucketName(bucket)
      modifies this, store.client`tokens
      ensures Valid() && Stream() == old(Stream())
      ensures TokensKept(old(store.client.tokens), store.client.tokens)
      ensures r == Failure(ErrNotFound) ==> !tolerateMissing && store.Physical(bucket) !in store.client.buckets
      ensures Steady() ==> r.Success?
      ensures r.Success? ==> done || |Source().RawRest(after)| < |old(Source()).RawRest(old(after))|
      ensures old(Source()).ExtendedBy(Source())
      ensures r.Success? ==> Fetches({a}, old(Position()), Position()) && IsAnswer(Source(), a)
    {
      ghost var s, before := Source(), Position();
      a := Answered(after, Page([], [], false, ""));
      var page, shown := store.ListPage(bucket, p.(after := after));
      StreamIsStable(s, Source(), before);
      if page.Failure? {
        if page.error == ErrNotFound && tolerateMissing {
          store.MissingIsEmpty(bucket, p);
          MissingIsAnswer(Source(), after);
          done := true;
          return Success(()), a;
        }
        return Failure(page.error), a;
      }
      a := Answered(after, page.value);
      PageIsTaken(Source(), before, page.value, shown);
      hide ShowsPage, Fetches, IsAnswer, MergedPage, Streams.Source.Stream, Streams.Source.RawRest;
      var fetched := MergePageEntries(page.value);
      entries := fetched;
      idx := 0;
      after := page.value.nextToken;
      done := !page.value.truncated;
      assert Position() == CursorState(page.value.nextToken, shown, !page.value.truncated);
      r := Success(());
    }

    /**
     Loads the next entries, if there are any; the stream stays the same. Empty truncated
     pages are skipped, which ends because each of them consumes some of the backend's entries.
     */
    method Load() returns (r: Result<(), Error>, ghost answers: set<Answered>, ghost path: seq<CursorState>)
      requires Valid() && IsBucketName(bucket)
      modifies this, store.client`tokens
      ensures Valid() && Stream() == old(Stream())
      ensures TokensKept(old(store.client.tokens), store.client.tokens)
      ensures r == Failure(ErrNotFound) ==> !tolerateMissing && store.Physical(bucket) !in store.client.buckets
      ensures Steady() ==> r.Success?
      ensures r.Success? ==> idx < |entries| || done
      ensures r.Success? ==> ReachesTo(answers, path, old(Position()), Position())
      ensures r.Success? ==> AreAnswers(Source(), answers)
    {
      answers, path := {}, [Position()];
      StaysThere(Position());
      NothingFetched(Source(), Source());
      hide ReachesTo, AreAnswers, Store.SourceOf, Streams.Source.Stream, Streams.Source.RawRest, Fetches, IsAnswer;
      hide Streams.Source.ExtendedBy, Steady, Stream, TokensKept, Store.Physical;
      ghost var start, stream, steady, tokens := Position(), Stream(), Steady(), store.client.tokens;
      TokensStay(tokens);
      while idx >= |entries| && !done
        invariant Valid() && Stream() == stream
        invariant Steady() == steady
        invariant TokensKept(tokens, store.client.tokens)
        invariant ReachesTo(answers, path, start, Position())
        invariant AreAnswers(Source(), answers)
        decreases if done then 0 else 1 + |Source().RawRest(after)|
      {
        ghost var s, cs, known := Source(), Position(), store.client.tokens;
        ghost var a;
        var fetched;
        fetched, a := Fetch();
        TokensKeptTransitive(tokens, known, store.client.tokens);
        if fetched.Failure? {
          return fetched, answers, path;
        }
        OneMoreAnswer(s, Source(), answers, a);
        MoreFetches(answers, path, start, cs, {a}, Position());
        answers, path := answers + {a}, path + [Position()];
      }
      r := Success(());
    }

    method Peek() returns (r: Result<Option<Entry>, Error>, ghost answers: set<Answered>, ghost path: seq<CursorState>)
      requires Valid() && IsBucketName(bucket)
      modifies this, store.client`tokens
      ensures Valid() && Stream() == old(Stream())
      ensures TokensKept(old(store.client.tokens), store.client.tokens)
      ensures r == Failure(ErrNotFound) ==> !tolerateMissing && store.Physical(bucket) !in store.client.buckets
      ensures Steady() ==> r.Success?
      ensures r == Success(None) ==> Stream() == []
      ensures r.Success? && r.value.Some? ==> idx < |entries| && Stream() != [] && r.value.value == Stream()[0]
      ensures r.Success? ==> ReachesTo(answers, path, old(Position()), Position())
      ensures r.Success? ==> AreAnswers(Source(), answers) && Loaded(Position())
      ensures r.Success? ==> r.value == if Position().remaining == [] then None else Some(Position().remaining[0])
    {
      var loaded;
      loaded, answers, path := Load();
      if loaded.Failure? {
        return Failure(loaded.error), answers, path;
      }
      if idx >= |entries| {
        return Success(None), answers, path;
      }
      r := Success(Some(entries[idx]));
    }

    method Advance()
      requires Valid() && idx < |entries|
      modifies this`idx
      ensures Valid() && Stream() == old(Stream())[1..] && idx == old(idx) + 1
      ensures Position() == old(Position()).(remaining := old(Position()).remaining[1..])
    {
      ghost var s, before := Source(), Position();
      idx := idx + 1;
      assert Source() == s;
      StreamTail(s, before, Position());
    }

    /** Saves a position at which a new cursor streams exactly what this one still would. */
    method Snapshot() returns (st: CursorState)
      requires Valid()
      ensures KnownToken(st, store.client.tokens) && Source().Stream(st) == Stream()
      ensures st == Position()
    {
      st := CursorState(after, entries[idx..], done);
    }
  }

  ghost predicate IsOwnKey(o: Source, b: Source, k: string) {
    HasKey(o.Remaining(""), k) || HasKey(b.Remaining(""), k)
  }

  lemma RestIsOwn(s: Source, token: string, k: string)
    requires s.Knows(token) && HasKey(s.Remaining(token), k)
    ensures HasKey(s.Remaining(""), k)
  {
    var rest := s.RawRest(token);
    var front := s.raw[..|s.raw| - |rest|];
    assert s.raw == front + rest;
    VisibleConcat(s.mapping, s.bucket, front, rest);
    hide Visible;
  }

  lemma KeysOfConcat(a: seq<Entry>, b: seq<Entry>, k: string)
    ensures HasKey(a + b, k) <==> HasKey(a, k) || HasKey(b, k)
  {
    forall e | e in a || e in b ensures e in a + b {
    }
  }

  /** The keys that a request lists from some positions are those kept there and what the backends have left. */
  lemma KeptKeysAreListed(o: Source, b: Source, ov: CursorState, bs: CursorState)
    requires o.KnowsState(ov) && b.KnowsState(bs)
    ensures (forall k :: HasKey(Merge(o.Stream(ov), b.Stream(bs)), k) ==> IsOwnKey(o, b, k))
            <==> (forall k :: HasKey(ov.remaining, k) || HasKey(bs.remaining, k) ==> IsOwnKey(o, b, k))
  {
    hide HasKey, Merge, Source.Remaining;
    forall k
      ensures HasKey(Merge(o.Stream(ov), b.Stream(bs)), k) && !IsOwnKey(o, b, k) <==>
                (HasKey(ov.remaining, k) || HasKey(bs.remaining, k)) && !IsOwnKey(o, b, k)
    {
      MergeKeys(o.Stream(ov), b.Stream(bs), k);
      StreamKeys(o, ov, k);
      StreamKeys(b, bs, k);
    }
  }

  lemma StreamKeys(s: Source, cs: CursorState, k: string)
    requires s.KnowsState(cs)
    ensures HasKey(cs.remaining, k) ==> HasKey(s.Stream(cs), k)
    ensures HasKey(s.Stream(cs), k) ==> HasKey(cs.remaining, k) || HasKey(s.Remaining(""), k)
  {
    hide Source.Remaining;
    var rest := if cs.done then [] else s.Remaining(cs.after);
    KeysOfConcat(cs.remaining, rest, k);
    if !cs.done && HasKey(rest, k) {
      RestIsOwn(s, cs.after, k);
    }
  }

  /** An empty bucket in which a token of another one shows the key that its session kept back. */
  lemma ForeignTokenShowsOldKey(o: Source, b: Source, e: Entry)
    requires o.raw == [] && b.raw == []
    ensures var ov, bs := CursorState("", [e], true), CursorState("", [], true);
            Merge(o.Stream(ov), b.Stream(bs)) == [e] && !IsOwnKey(o, b, e.Key())
  {
    var ov, bs := CursorState("", [e], true), CursorState("", [], true);
    assert o.Stream(ov) == [e] && b.Stream(bs) == [] && [e][1..] == [];
    assert Merge([], []) == [];
  }

  lemma EmptyMerge()
    ensures Merge([], []) == []
  {
  }

  /** Number of entries per page; a missing or non-positive limit means 1000. */
  function EffectiveMax(maxKeys: int): (n: nat)
    ensures n >= 1
  {
    if maxKeys <= 0 then 1000 else maxKeys
  }

  /**
   A page of a merged stream: its first entries, as many as the limit allows, and truncated
   exactly if entries remain.
   */
  ghost predicate CutsPage(merged: seq<Entry>, max: nat, page: ListPage) {
    var n := if |merged| <= max then |merged| else max;
    && page.objects == Listing.Objects(merged[..n])
    && page.commonPrefixes == Prefixes(merged[..n])
    && (page.truncated <==> |merged| > max)
  }

  /**
   A page holds at most as many entries as the client asked for if and only if the client asked
   for any, or there is nothing to list: a limit of zero is taken for no limit.
   */
  lemma LimitIsKeptExactlyIf(merged: seq<Entry>, maxKeys: int, page: ListPage)
    requires 0 <= maxKeys && CutsPage(merged, EffectiveMax(maxKeys), page)
    ensures |page.objects| + |page.commonPrefixes| <= maxKeys <==> maxKeys > 0 || merged == []
  {
    SplitLength(merged[..if |merged| <= EffectiveMax(maxKeys) then |merged| else EffectiveMax(maxKeys)]);
  }

  /**
   How many entries a page holds, in terms of the limit that the client sent: 1000 if it is not
   positive. A page is truncated exactly if more entries remain than that, and is full then; and
   otherwise it holds all that remain.
   */
  lemma PageHoldsLimit(merged: seq<Entry>, maxKeys: int, page: ListPage)
    requires CutsPage(merged, EffectiveMax(maxKeys), page)
    ensures var limit := if maxKeys > 0 then maxKeys else 1000;
            && (page.truncated <==> |merged| > limit)
            && |page.objects| + |page.commonPrefixes| == if page.truncated then limit else |merged|
  {
    SplitLength(merged[..if |merged| <= EffectiveMax(maxKeys) then |merged| else EffectiveMax(maxKeys)]);
  }

  /** A request for no entries at all that is answered with one. */
  lemma ZeroLimitIsNotKept(meta: ObjectMeta)
    ensures CutsPage([ObjectEntry(meta)], EffectiveMax(0), Page([meta], [], false, ""))
  {
    var merged := [ObjectEntry(meta)];
    assert merged[..1] == merged && merged[1..] == [];
    assert Listing.Objects(merged) == [meta] + Listing.Objects([]) && Prefixes(merged) == Prefixes([]);
  }

  lemma CutsPageWithToken(merged: seq<Entry>, max: nat, page: ListPage, token: string)
    requires CutsPage(merged, max, page)
    ensures CutsPage(merged, max, page.(nextToken := token))
  {
  }

  /** The default limit makes no difference to what is listed. */
  lemma SameSource(store: Store, bucket: string, p: ListParams)
    ensures store.SourceOf(bucket, p.(maxKeys := EffectiveMax(p.maxKeys))) == store.SourceOf(bucket, p)
  {
  }

  lemma NothingShown(o: map<string, string>, b: map<string, string>)
    ensures TokensKept(o, o) && TokensKept(b, b)
    ensures Listing.Objects([]) == [] && Prefixes([]) == []
  {
  }

  lemma EmitEntry(shown: seq<Entry>, e: Entry, before: seq<Entry>, after: seq<Entry>)
    requires before == [e] + after
    ensures shown + before == (shown + [e]) + after
  {
  }

  /** Appends an entry to the half of the page it belongs to. */
  method AppendEntry(e: Entry, objects: seq<ObjectMeta>, prefixes: seq<string>, ghost shown: seq<Entry>)
      returns (moreObjects: seq<ObjectMeta>, morePrefixes: seq<string>)
    requires objects == Listing.Objects(shown) && prefixes == Prefixes(shown)
    ensures moreObjects == Listing.Objects(shown + [e]) && morePrefixes == Prefixes(shown + [e])
    ensures |moreObjects| + |morePrefixes| == |objects| + |prefixes| + 1
  {
    SplitConcat(shown, [e]);
    moreObjects, morePrefixes := objects, prefixes;
    match e
    case PrefixEntry(prefix) => morePrefixes := prefixes + [prefix];
    case ObjectEntry(meta) => moreObjects := objects + [meta];
  }

  lemma {:induction false} CutPage(merged: seq<Entry>, shown: seq<Entry>, rest: seq<Entry>, max: nat, token: string)
    requires merged == shown + rest && |shown| <= max && (|shown| < max ==> rest == [])
    ensures CutsPage(merged, max, Page(Listing.Objects(shown), Prefixes(shown), rest != [], token))
    ensures rest != [] ==> merged[max..] == rest
    ensures |Listing.Objects(shown)| + |Prefixes(shown)| == |shown|
  {
    SplitLength(shown);
    assert merged[..|shown|] == shown;
  }

  /** Every session resumes at tokens the backends handed out. */
  predicate Resumable(t: Table, overlay: map<string, string>, baseline: map<string, string>) {
    forall id :: id in t.active ==>
      KnownToken(t.active[id].overlay, overlay) && KnownToken(t.active[id].baseline, baseline)
  }

  lemma PositionsAreKnown(t: Table, token: string, o: map<string, string>, b: map<string, string>)
    requires Resumable(t, o, b)
    ensures KnownToken(t.Positions(token).0, o) && KnownToken(t.Positions(token).1, b)
  {
  }

  lemma TouchedIsResumable(t: Table, token: string, now: int, o: map<string, string>, b: map<string, string>,
                           o': map<string, string>, b': map<string, string>)
    requires Resumable(t, o, b) && TokensKept(o, o') && TokensKept(b, b')
    ensures Resumable(t.Touched(token, now), o', b')
  {
  }

  lemma CreatedIsResumable(t: Table, ov: CursorState, bs: CursorState, now: int, o: map<string, string>,
                           b: map<string, string>)
    requires Resumable(t, o, b) && KnownToken(ov, o) && KnownToken(bs, b)
    ensures Resumable(t.Created(ov, bs, now), o, b)
  {
  }

  class OverlayStore {
    const overlay: Store
    const baseline: Store
    const sessions: ListSessions

    constructor (overlay: Store, baseline: Store)
      requires overlay.client != baseline.client
      ensures this.overlay == overlay && this.baseline == baseline && fresh(sessions)
      ensures sessions.Value() == EMPTY && Valid()
    {
      this.overlay := overlay;
      this.baseline := baseline;
      sessions := new ListSessions();
    }

    /** The backends are distinct, and every session resumes at tokens they handed out. */
    predicate Valid()
      reads sessions, overlay.client`tokens, baseline.client`tokens
    {
      && overlay.client != baseline.client
      && Resumable(sessions.Value(), overlay.client.tokens, baseline.client.tokens)
    }

    /** Whether both backends answer every request they can answer. */
    predicate Reliable() {
      overlay.client.reliable && baseline.client.reliable
    }

    function OverlaySource(bucket: string, p: ListParams): Source
      reads overlay.client
    {
      overlay.SourceOf(bucket, p)
    }

    function BaselineSource(bucket: string, p: ListParams): Source
      reads baseline.client
    {
      baseline.SourceOf(bucket, p)
    }

    /** What the listing a token stands for still has to show. */
    function MergedRest(bucket: string, p: ListParams): seq<Entry>
      requires Valid()
      reads sessions, overlay.client, baseline.client
    {
      var (ov, bs) := sessions.Value().Positions(p.after);
      Merge(OverlaySource(bucket, p).Stream(ov), BaselineSource(bucket, p).Stream(bs))
    }

    /** A listing from the start lists what clients see of the bucket, unless the limit wraps to zero. */
    lemma StartIsView(bucket: string, p: ListParams)
      requires Valid() && IsBucketName(bucket) && p.after == ""
      ensures MergedRest(bucket, p)
           == if BackendLimit(p.maxKeys) == 0 then [] else BucketListing(View(bucket), p.prefix, p.delimiter)
    {
      hide Merge, BucketListing, Store.Objects, Store.SourceOf, Source.Stream, BackendLimit;
      overlay.ListingFromStart(bucket, p);
      baseline.ListingFromStart(bucket, p);
      assert sessions.Value().Positions("") == (START, START);
      if BackendLimit(p.maxKeys) == 0 {
        EmptyMerge();
      } else {
        MergedListing(baseline.Objects(bucket), overlay.Objects(bucket), p.prefix, p.delimiter);
      }
    }

    /**
     The first page of a listing is empty if and only if the bucket has nothing to list, or the
     limit wraps to zero when it is cut to 32 bits: then the whole listing is lost.
     */
    lemma FirstPageIsEmptyExactlyIf(bucket: string, p: ListParams, page: ListPage)
      requires Valid() && IsBucketName(bucket) && p.after == ""
      requires CutsPage(MergedRest(bucket, p), EffectiveMax(p.maxKeys), page)
      ensures page.objects == [] && page.commonPrefixes == [] <==>
                BackendLimit(p.maxKeys) == 0 || BucketListing(View(bucket), p.prefix, p.delimiter) == []
      ensures page.objects == [] && page.commonPrefixes == [] ==> !page.truncated
    {
      hide MergedRest, BucketListing, View, BackendLimit;
      StartIsView(bucket, p);
      var merged := MergedRest(bucket, p);
      SplitLength(merged[..if |merged| <= EffectiveMax(p.maxKeys) then |merged| else EffectiveMax(p.maxKeys)]);
    }

    /**
     A token carries no bucket, prefix or delimiter. A request that presents it lists only keys of
     its own listing if and only if all keys that the token's session kept back are among them.
     */
    lemma ListsOwnKeysExactlyIf(bucket: string, p: ListParams)
      requires Valid()
      ensures var (ov, bs) := sessions.Value().Positions(p.after);
              var o, b := OverlaySource(bucket, p), BaselineSource(bucket, p);
              (forall k :: HasKey(MergedRest(bucket, p), k) ==> IsOwnKey(o, b, k))
              <==> (forall k :: HasKey(ov.remaining, k) || HasKey(bs.remaining, k) ==> IsOwnKey(o, b, k))
    {
      var (ov, bs) := sessions.Value().Positions(p.after);
      KeptKeysAreListed(OverlaySource(bucket, p), BaselineSource(bucket, p), ov, bs);
    }

    /** The contents of a bucket as clients see them: the baseline overridden by the overlay. */
    function View(bucket: string): map<string, Object>
      reads overlay.client`buckets, baseline.client`buckets
    {
      baseline.Objects(bucket) + overlay.Objects(bucket)
    }

    method Get(bucket: string, key: string, rng: Option<ByteRange>) returns (r: Result<(string, ObjectMeta), Error>)
      requires IsBucketName(bucket) && key != ""
      requires rng.Some? ==> 0 <= rng.value.start && 1 <= rng.value.length
      ensures r == Failure(ErrNotFound) ==> key !in View(bucket)
      ensures r.Success? ==> key in View(bucket) && Delivers(r.value.0, r.value.1, key, View(bucket)[key], rng)
      ensures Reliable() && r.Failure? ==>
                r.error == ErrNotFound || (key in View(bucket) && !Deliverable(View(bucket)[key], rng))
    {
      r := overlay.Get(bucket, key, rng);
      if r == Failure(ErrNotFound) {
        r := baseline.Get(bucket, key, rng);
      }
    }

    method Head(bucket: string, key: string) returns (r: Result<ObjectMeta, Error>)
      requires IsBucketName(bucket) && key != ""
      ensures r == Failure(ErrNotFound) ==> key !in View(bucket)
      ensures r.Success? ==> key in View(bucket) && r.value == FullMeta(key, View(bucket)[key])
      ensures Reliable() && r.Failure? ==> r.error == ErrNotFound
    {
      r := overlay.Head(bucket, key);
      if r == Failure(ErrNotFound) {
        r := baseline.Head(bucket, key);
      }
    }

    /** A write changes one key of one bucket of the merged view, and never the baseline. */
    method Put(bucket: string, key: string, body: Result<string, ReadError>, contentType: string, now: int)
        returns (r: Result<ObjectMeta, Error>, ghost modified: int)
      requires IsBucketName(bucket) && key != "" && overlay.client != baseline.client
      modifies overlay.client`buckets
      ensures r.Failure? ==> overlay.client.buckets == old(overlay.client.buckets)
      ensures overlay.client.buckets.Keys == old(overlay.client.buckets.Keys)
      ensures && Reliable() && overlay.Physical(bucket) in old(overlay.client.buckets)
              && body.Success? && |body.value| <= MAX_INT64 ==>
                r.Success?
      ensures old(overlay.client.Sized()) ==> overlay.client.Sized()
      ensures r.Success? ==>
                && body.Success? && |body.value| <= MAX_INT64
                && View(bucket) == old(View(bucket))[key := Object(body.value, r.value.etag, modified, contentType)]
      ensures forall b :: IsBucketName(b) && b != bucket ==> View(b) == old(View(b))
      ensures forall b :: IsBucketName(b) && b != bucket ==> overlay.Objects(b) == old(overlay.Objects(b))
      ensures overlay.Objects(bucket).Keys >= old(overlay.Objects(bucket).Keys)
    {
      hide Store.Objects;
      ghost var before := overlay.Objects(bucket);
      r, modified := overlay.Put(bucket, key, body, contentType, now);
      if r.Success? {
        ghost var o := Object(body.value, r.value.etag, modified, contentType);
        assert baseline.Objects(bucket) + before[key := o] == (baseline.Objects(bucket) + before)[key := o];
      }
    }

    method CreateBucket(bucket: string) returns (r: Result<(), Error>)
      requires IsBucketName(bucket) && overlay.client != baseline.client
      modifies overlay.client`buckets
      ensures overlay.client.buckets.Keys >= old(overlay.client.buckets.Keys)
      ensures Reliable() && overlay.mapping.bucket != "" && overlay.mapping.bucket in old(overlay.client.buckets) ==>
                r.Success?
      ensures old(overlay.client.Sized()) ==> overlay.client.Sized()
      ensures forall b :: IsBucketName(b) ==> View(b) == old(View(b))
      ensures forall b :: IsBucketName(b) ==> overlay.Objects(b) == old(overlay.Objects(b))
    {
      hide Store.Objects;
      r := overlay.CreateBucket(bucket);
    }

    /** The union of both stores' buckets, in order. */
    method ListBuckets() returns (r: Result<seq<string>, Error>)
      requires overlay.client != baseline.client
      modifies overlay.client`tokens, baseline.client`tokens
      ensures r.Success? ==> r.value == Sorted(overlay.BucketNames() + baseline.BucketNames())
      ensures r.Success? ==> forall b :: b in r.value <==> b in overlay.BucketNames() + baseline.BucketNames()
      ensures r.Success? ==> forall i, j :: 0 <= i < j < |r.value| ==> Precedes(r.value[i], r.value[j])
      ensures Reliable() && overlay.Rooted() && baseline.Rooted() ==> r.Success?
    {
      hide Store.BucketNames, Store.Rooted;
      ghost var o, b := overlay.BucketNames(), baseline.BucketNames();
      var upper := overlay.ListBuckets();
      if upper.Failure? {
        return upper;
      }
      var lower := baseline.ListBuckets();
      if lower.Failure? {
        return lower;
      }
      var names := {};
      for i := 0 to |upper.value|
        invariant names == set n | n in upper.value[..i]
      {
        names := names + {upper.value[i]};
      }
      assert upper.value[..|upper.value|] == upper.value;
      assert names == o;
      for i := 0 to |lower.value|
        invariant names == o + set n | n in lower.value[..i]
      {
        names := names + {lower.value[i]};
      }
      assert lower.value[..|lower.value|] == lower.value;
      assert names == o + b;
      r := Success(Sorted(names));
      AscendingIsByteOrder(r.value);
    }

    /** The cursors of one request, over distinct backends; only the overlay may lack the bucket. */
    static predicate Paired(oc: ListCursor, bc: ListCursor) {
      && oc != bc && oc.store.client != bc.store.client
      && oc.tolerateMissing && !bc.tolerateMissing
      && IsBucketName(oc.bucket) && IsBucketName(bc.bucket)
    }

    /** Where the merge loop is: both cursors' positions and what was emitted. */
    static function LoopAt(oc: ListCursor, bc: ListCursor, shown: seq<Entry>): Loop
      requires oc.Valid() && bc.Valid()
      reads oc, bc, oc.store.client`tokens, bc.store.client`tokens
    {
      Loop(oc.Position(), bc.Position(), shown)
    }

    /** Peeks at both cursors. */
    static method PeekBoth(oc: ListCursor, bc: ListCursor, ghost shown: seq<Entry>, ghost max: nat)
        returns (r: Result<(Option<Entry>, Option<Entry>), Error>,
                 ghost os: set<Answered>, ghost bs: set<Answered>, ghost path: seq<Loop>)
      requires Paired(oc, bc) && oc.Valid() && bc.Valid()
      modifies oc, bc, oc.store.client`tokens, bc.store.client`tokens
      ensures oc.Valid() && bc.Valid()
      ensures TokensKept(old(oc.store.client.tokens), oc.store.client.tokens)
      ensures TokensKept(old(bc.store.client.tokens), bc.store.client.tokens)
      ensures r == Failure(ErrNotFound) ==> bc.store.Physical(bc.bucket) !in bc.store.client.buckets
      ensures oc.Steady() && bc.Steady() ==> r.Success?
      ensures oc.Stream() == old(oc.Stream()) && bc.Stream() == old(bc.Stream())
      ensures r.Success? ==>
                && (r.value.0.None? ==> oc.Stream() == [])
                && (r.value.0.Some? ==> oc.idx < |oc.entries| && oc.Stream() != [] && r.value.0.value == oc.Stream()[0])
                && (r.value.1.None? ==> bc.Stream() == [])
                && (r.value.1.Some? ==> bc.idx < |bc.entries| && bc.Stream() != [] && r.value.1.value == bc.Stream()[0])
      ensures r.Success? ==>
                && Leads(os, bs, max, path, old(LoopAt(oc, bc, shown)), LoopAt(oc, bc, shown))
                && AreFetched(oc.Source(), bc.Source(), os, bs)
                && AreLoaded(oc.Position(), bc.Position(), r.value.0, r.value.1)
    {
      hide Store.SourceOf, Source.Stream, AreAnswers, Loaded, Leads, ReachesTo;
      os, bs, path := {}, {}, [];
      ghost var ocs, bcs, s := [], [], LoopAt(oc, bc, shown);
      var oe, be;
      oe, os, ocs := oc.Peek();
      if oe.Failure? {
        return Failure(oe.error), os, bs, path;
      }
      be, bs, bcs := bc.Peek();
      if be.Failure? {
        return Failure(be.error), os, bs, path;
      }
      path := BothPaths(os, ocs, bs, bcs, max, s, oc.Position(), bc.Position());
      r := Success((oe.value, be.value));
    }

    /** One turn of the merge loop: peeks at both cursors and consumes the smaller entry. */
    static method MergeNext(oc: ListCursor, bc: ListCursor, ghost shown: seq<Entry>, ghost max: nat)
        returns (r: Result<Option<Entry>, Error>, ghost os: set<Answered>, ghost bs: set<Answered>,
                 ghost path: seq<Loop>)
      requires Paired(oc, bc) && oc.Valid() && bc.Valid() && |shown| < max
      modifies oc, bc, oc.store.client`tokens, bc.store.client`tokens
      ensures oc.Valid() && bc.Valid()
      ensures TokensKept(old(oc.store.client.tokens), oc.store.client.tokens)
      ensures TokensKept(old(bc.store.client.tokens), bc.store.client.tokens)
      ensures old(oc.Source()).ExtendedBy(oc.Source()) && old(bc.Source()).ExtendedBy(bc.Source())
      ensures r == Failure(ErrNotFound) ==> bc.store.Physical(bc.bucket) !in bc.store.client.buckets
      ensures oc.Steady() && bc.Steady() ==> r.Success?
      ensures r == Success(None) ==> Merge(old(oc.Stream()), old(bc.Stream())) == Merge(oc.Stream(), bc.Stream()) == []
      ensures r.Success? && r.value.Some? ==>
                Merge(old(oc.Stream()), old(bc.Stream())) == [r.value.value] + Merge(oc.Stream(), bc.Stream())
      ensures r.Success? ==>
                && Leads(os, bs, max, path, old(LoopAt(oc, bc, shown)),
                         LoopAt(oc, bc, shown + if r.value.None? then [] else [r.value.value]))
                && AreFetched(oc.Source(), bc.Source(), os, bs)
                && (r.value.None? ==> AreExhausted(oc.Position(), bc.Position()))
    {
      hide Store.SourceOf, Source.Stream, AreFetched, Leads;
      r := Success(None);
      ghost var start := LoopAt(oc, bc, shown);
      var peeked;
      peeked, os, bs, path := PeekBoth(oc, bc, shown, max);
      if peeked.Failure? {
        return Failure(peeked.error), os, bs, path;
      }
      ghost var mid := LoopAt(oc, bc, shown);
      var (oe, be) := peeked.value;
      if oe.Some? && be.Some? {
        if oe.value.Key() == be.value.Key() || Less(oe.value.Key(), be.value.Key()) {
          oc.Advance();
          if oe.value.Key() == be.value.Key() {
            bc.Advance();
          }
          r := Success(oe);
        } else {
          bc.Advance();
          r := Success(be);
        }
      } else if oe.Some? {
        oc.Advance();
        r := Success(oe);
      } else if be.Some? {
        bc.Advance();
        r := Success(be);
      } else {
        assert shown + [] == shown;
        return;
      }
      EmitJoins(os, bs, max, path, start, mid, LoopAt(oc, bc, shown + [r.value.value]));
      path := path + [LoopAt(oc, bc, shown + [r.value.value])];
    }

    /**
     The merge loop: emits entries until the page is full or both cursors are exhausted. What
     is emitted and what both cursors still stream make up what they streamed before.
     */
    static method FillPage(oc: ListCursor, bc: ListCursor, max: nat)
        returns (r: Result<(), Error>, objects: seq<ObjectMeta>, prefixes: seq<string>, ghost shown: seq<Entry>,
                 ghost os: set<Answered>, ghost bs: set<Answered>, ghost loop: seq<Loop>)
      requires Paired(oc, bc) && oc.Valid() && bc.Valid()
      modifies oc, bc, oc.store.client`tokens, bc.store.client`tokens
      ensures oc.Valid() && bc.Valid()
      ensures TokensKept(old(oc.store.client.tokens), oc.store.client.tokens)
      ensures TokensKept(old(bc.store.client.tokens), bc.store.client.tokens)
      ensures r == Failure(ErrNotFound) ==> bc.store.Physical(bc.bucket) !in bc.store.client.buckets
      ensures oc.Steady() && bc.Steady() ==> r.Success?
      ensures objects == Listing.Objects(shown) && prefixes == Prefixes(shown) && |shown| <= max
      ensures shown + Merge(oc.Stream(), bc.Stream()) == Merge(old(oc.Stream()), old(bc.Stream())) || r.Failure?
      ensures r.Success? && |shown| < max ==> Merge(oc.Stream(), bc.Stream()) == []
      ensures r.Success? ==>
                && Leads(os, bs, max, loop, old(LoopAt(oc, bc, [])), LoopAt(oc, bc, shown))
                && AreFetched(oc.Source(), bc.Source(), os, bs)
      ensures r.Success? && |shown| < max ==> AreExhausted(oc.Position(), bc.Position())
    {
      hide *;
      objects, prefixes, shown := [], [], [];
      os, bs, loop := {}, {}, [LoopAt(oc, bc, [])];
      PathBegins(max, LoopAt(oc, bc, []));
      NothingFetched(oc.Source(), bc.Source());
      ghost var o0, b0 := oc.store.client.tokens, bc.store.client.tokens;
      NothingShown(o0, b0);
      ghost var steady, merged := oc.Steady() && bc.Steady(), Merge(oc.Stream(), bc.Stream());
      ghost var start := LoopAt(oc, bc, []);
      while |objects| + |prefixes| < max
        invariant oc.Valid() && bc.Valid()
        invariant TokensKept(o0, oc.store.client.tokens) && TokensKept(b0, bc.store.client.tokens)
        invariant objects == Listing.Objects(shown) && prefixes == Prefixes(shown)
        invariant steady == (oc.Steady() && bc.Steady())
        invariant |objects| + |prefixes| == |shown| <= max
        invariant shown + Merge(oc.Stream(), bc.Stream()) == merged
        invariant Leads(os, bs, max, loop, start, LoopAt(oc, bc, shown))
        invariant AreFetched(oc.Source(), bc.Source(), os, bs)
        decreases max - |shown|
      {
        ghost var rest, o, b := Merge(oc.Stream(), bc.Stream()), oc.store.client.tokens, bc.store.client.tokens;
        ghost var so, sb, here, moreOs, moreBs, path := oc.Source(), bc.Source(), LoopAt(oc, bc, shown), {}, {}, [];
        var e;
        e, moreOs, moreBs, path := MergeNext(oc, bc, shown, max);
        TokensKeptTransitive(o0, o, oc.store.client.tokens);
        TokensKeptTransitive(b0, b, bc.store.client.tokens);
        if e.Failure? {
          r := Failure(e.error);
          return;
        }
        FetchesJoin(so, sb, os, bs, oc.Source(), bc.Source(), moreOs, moreBs);
        PathsJoin(os, bs, max, loop, moreOs, moreBs, path, start, here,
                  LoopAt(oc, bc, shown + if e.value.None? then [] else [e.value.value]));
        os, bs, loop := os + moreOs, bs + moreBs, Join(loop, path);
        if e.value.None? {
          NothingEmitted(shown);
          break;
        }
        objects, prefixes := AppendEntry(e.value.value, objects, prefixes, shown);
        EmitEntry(shown, e.value.value, rest, Merge(oc.Stream(), bc.Stream()));
        shown := shown + [e.value.value];
      }
      r := Success(());
    }

    /** Whether either cursor still has an entry to deliver. */
    static method HasMore(oc: ListCursor, bc: ListCursor, ghost shown: seq<Entry>, ghost max: nat)
        returns (r: Result<bool, Error>, ghost os: set<Answered>, ghost bs: set<Answered>, ghost path: seq<Loop>)
      requires Paired(oc, bc) && oc.Valid() && bc.Valid()
      modifies oc, bc, oc.store.client`tokens, bc.store.client`tokens
      ensures oc.Valid() && bc.Valid()
      ensures TokensKept(old(oc.store.client.tokens), oc.store.client.tokens)
      ensures TokensKept(old(bc.store.client.tokens), bc.store.client.tokens)
      ensures old(oc.Source()).ExtendedBy(oc.Source()) && old(bc.Source()).ExtendedBy(bc.Source())
      ensures oc.Stream() == old(oc.Stream()) && bc.Stream() == old(bc.Stream())
      ensures r == Failure(ErrNotFound) ==> bc.store.Physical(bc.bucket) !in bc.store.client.buckets
      ensures oc.Steady() && bc.Steady() ==> r.Success?
      ensures r.Success? ==> r.value == (Merge(oc.Stream(), bc.Stream()) != [])
      ensures r.Success? ==>
                && Leads(os, bs, max, path, old(LoopAt(oc, bc, shown)), LoopAt(oc, bc, shown))
                && AreFetched(oc.Source(), bc.Source(), os, bs)
                && Loaded(oc.Position()) && (oc.Position().remaining == [] ==> Loaded(bc.Position()))
                && (r.value <==> oc.Position().remaining != [] || bc.Position().remaining != [])
    {
      hide Store.SourceOf, Source.Stream, IsAnswer, Leads, ReachesTo;
      ghost var ocs, bcs, s := [], [bc.Position()], LoopAt(oc, bc, shown);
      os, bs, path := {}, {}, [];
      StaysThere(bc.Position());
      var more;
      more, os, ocs := oc.Peek();
      if more.Success? && more.value.None? {
        more, bs, bcs := bc.Peek();
      }
      if more.Failure? {
        return Failure(more.error), os, bs, path;
      }
      path := BothPaths(os, ocs, bs, bcs, max, s, oc.Position(), bc.Position());
      r := Success(more.value.Some?);
    }

    /** One page of the merge of two cursors, and the positions reached. The page's token is not set yet. */
    static method ServePage(oc: ListCursor, bc: ListCursor, max: nat)
        returns (r: Result<ListPage, Error>, ov: CursorState, bs: CursorState, ghost done: Done)
      requires Paired(oc, bc) && oc.Valid() && bc.Valid()
      modifies oc, bc, oc.store.client`tokens, bc.store.client`tokens
      ensures oc.Valid() && bc.Valid()
      ensures TokensKept(old(oc.store.client.tokens), oc.store.client.tokens)
      ensures TokensKept(old(bc.store.client.tokens), bc.store.client.tokens)
      ensures r == Failure(ErrNotFound) ==> bc.store.Physical(bc.bucket) !in bc.store.client.buckets
      ensures oc.Steady() && bc.Steady() ==> r.Success?
      ensures r.Success? ==> CutsPage(Merge(old(oc.Stream()), old(bc.Stream())), max, r.value)
      ensures r.Success? && r.value.truncated ==>
                && KnownToken(ov, oc.store.client.tokens) && oc.Source().Stream(ov) == oc.Stream()
                && KnownToken(bs, bc.store.client.tokens) && bc.Source().Stream(bs) == bc.Stream()
                && Merge(oc.Stream(), bc.Stream()) == Merge(old(oc.Stream()), old(bc.Stream()))[max..]
      ensures r.Success? ==>
                && Does(done, max, old(oc.Position()), old(bc.Position()), r.value, ov, bs)
                && AreFetched(oc.Source(), bc.Source(), done.os, done.bs)
    {
      hide Store.SourceOf, Merge, Source.Stream, Listing.Objects, Prefixes, CutsPage, Leads, Does, AreFetched;
      ov, bs := START, START;
      ghost var merged, start := Merge(oc.Stream(), bc.Stream()), LoopAt(oc, bc, []);
      ghost var shown, fos, fbs, loop, more;
      var filled, objects, prefixes;
      filled, objects, prefixes, shown, fos, fbs, loop := FillPage(oc, bc, max);
      done := Done(fos, fbs, loop);
      if filled.Failure? {
        return Failure(filled.error), ov, bs, done;
      }
      CutPage(merged, shown, Merge(oc.Stream(), bc.Stream()), max, "");
      if |objects| + |prefixes| < max {
        LoopIsDone(fos, fbs, max, loop, start, LoopAt(oc, bc, shown), Page(objects, prefixes, false, ""), ov, bs);
        return Success(Page(objects, prefixes, false, "")), ov, bs, done;
      }
      ghost var so, sb, here, os, moreBs := oc.Source(), bc.Source(), LoopAt(oc, bc, shown), {}, {};
      var left;
      left, os, moreBs, more := HasMore(oc, bc, shown, max);
      if left.Failure? {
        return Failure(left.error), ov, bs, done;
      }
      FetchesJoin(so, sb, fos, fbs, oc.Source(), bc.Source(), os, moreBs);
      PathsJoin(fos, fbs, max, loop, os, moreBs, more, start, here, LoopAt(oc, bc, shown));
      done := Done(fos + os, fbs + moreBs, Join(loop, more));
      ov := oc.Snapshot();
      bs := bc.Snapshot();
      LoopIsDone(done.os, done.bs, max, done.loop, start, LoopAt(oc, bc, shown),
                 Page(objects, prefixes, left.value, ""), ov, bs);
      r := Success(Page(objects, prefixes, left.value, ""));
    }

    /** Merges both listings from the given positions on, for one page, and reports the positions reached. */
    method MergeFrom(bucket: string, p: ListParams, ovState: CursorState, bsState: CursorState)
        returns (r: Result<ListPage, Error>, ov: CursorState, bs: CursorState, ghost done: Done)
      requires overlay.client != baseline.client && IsBucketName(bucket) && 1 <= p.maxKeys
      requires KnownToken(ovState, overlay.client.tokens) && KnownToken(bsState, baseline.client.tokens)
      modifies overlay.client`tokens, baseline.client`tokens
      ensures TokensKept(old(overlay.client.tokens), overlay.client.tokens)
      ensures TokensKept(old(baseline.client.tokens), baseline.client.tokens)
      ensures r == Failure(ErrNotFound) ==> baseline.Physical(bucket) !in baseline.client.buckets
      ensures Reliable() && baseline.Physical(bucket) in baseline.client.buckets && 0 <= BackendLimit(p.maxKeys) ==>
                r.Success?
      ensures r.Success? ==>
                CutsPage(old(Merge(OverlaySource(bucket, p).Stream(ovState),
                                   BaselineSource(bucket, p).Stream(bsState))),
                         p.maxKeys, r.value)
      ensures r.Success? && r.value.truncated ==>
                && OverlaySource(bucket, p).KnowsState(ov) && BaselineSource(bucket, p).KnowsState(bs)
                && Merge(OverlaySource(bucket, p).Stream(ov), BaselineSource(bucket, p).Stream(bs))
                   == old(Merge(OverlaySource(bucket, p).Stream(ovState),
                                BaselineSource(bucket, p).Stream(bsState)))[p.maxKeys..]
      ensures r.Success? ==>
                && Does(done, p.maxKeys, ovState, bsState, r.value, ov, bs)
                && AreFetched(OverlaySource(bucket, p), BaselineSource(bucket, p), done.os, done.bs)
    {
      hide Store.SourceOf, Merge, Source.Stream, CutsPage, Does, AreFetched;
      var oc := new ListCursor(overlay, bucket, p, ovState, true);
      var bc := new ListCursor(baseline, bucket, p, bsState, false);
      r, ov, bs, done := ServePage(oc, bc, p.maxKeys);
    }

    /**
     One page of the merged listing. The page is cut from what the token's listing still has
     to show, however the backends split theirs; a token is issued exactly if entries remain,
     and then stands for exactly those. A failed request leaves no session behind.
     */
    method ListPage(bucket: string, p: ListParams, lookedUp: int, created: int)
        returns (r: Result<ListPage, Error>, ghost ov: CursorState, ghost bs: CursorState, ghost done: Done)
      requires Valid() && IsBucketName(bucket)
      modifies sessions, overlay.client`tokens, baseline.client`tokens
      ensures Valid()
      ensures TokensKept(old(overlay.client.tokens), overlay.client.tokens)
      ensures TokensKept(old(baseline.client.tokens), baseline.client.tokens)
      ensures r == Failure(ErrNotFound) ==> baseline.Physical(bucket) !in baseline.client.buckets
      ensures Reliable() && baseline.Physical(bucket) in baseline.client.buckets && 0 <= BackendLimit(p.maxKeys) ==>
                r.Success?
      ensures r.Failure? || !r.value.truncated ==>
                sessions.Value() == old(sessions.Value()).Touched(p.after, lookedUp)
      ensures r.Success? ==> CutsPage(old(MergedRest(bucket, p)), EffectiveMax(p.maxKeys), r.value)
      ensures r.Success? ==>
                var limit := if p.maxKeys > 0 then p.maxKeys else 1000;
                && (r.value.truncated <==> |old(MergedRest(bucket, p))| > limit)
                && |r.value.objects| + |r.value.commonPrefixes|
                   == if r.value.truncated then limit else |old(MergedRest(bucket, p))|
      ensures r.Success? && r.value.truncated ==>
                && OverlaySource(bucket, p).KnowsState(ov) && BaselineSource(bucket, p).KnowsState(bs)
                && Merge(OverlaySource(bucket, p).Stream(ov), BaselineSource(bucket, p).Stream(bs))
                   == old(MergedRest(bucket, p))[EffectiveMax(p.maxKeys)..]
      ensures r.Success? && r.value.truncated ==>
                && sessions.Value() == old(sessions.Value()).Touched(p.after, lookedUp).Created(ov, bs, created)
                && r.value.nextToken == Format(sessions.nextID, 10)
      ensures r.Success? ==>
                && Does(done, EffectiveMax(p.maxKeys), old(sessions.Value()).Positions(p.after).0,
                        old(sessions.Value()).Positions(p.after).1, r.value, ov, bs)
                && AreFetched(OverlaySource(bucket, p), BaselineSource(bucket, p), done.os, done.bs)
    {
      hide Store.SourceOf, Merge, Source.Stream, CutsPage, Table.Touched, Table.Created, TokensKept, Does, AreFetched;
      ghost var table, o, b := sessions.Value(), overlay.client.tokens, baseline.client.tokens;
      SameSource(overlay, bucket, p);
      SameSource(baseline, bucket, p);
      PositionsAreKnown(table, p.after, o, b);
      var ovState, bsState := sessions.Lookup(p.after, lookedUp);
      hide Table.Positions, Table.Find;
      var page, ovNext, bsNext;
      page, ovNext, bsNext, done := MergeFrom(bucket, p.(maxKeys := EffectiveMax(p.maxKeys)), ovState, bsState);
      TouchedIsResumable(table, p.after, lookedUp, o, b, overlay.client.tokens, baseline.client.tokens);
      SameSource(overlay, bucket, p);
      SameSource(baseline, bucket, p);
      ov, bs := ovNext, bsNext;
      if page.Success? {
        PageHoldsLimit(old(MergedRest(bucket, p)), p.maxKeys, page.value);
      }
      if page.Success? && page.value.truncated {
        CreatedIsResumable(sessions.Value(), ov, bs, created, overlay.client.tokens, baseline.client.tokens);
        var token := sessions.Create(ovNext, bsNext, created);
        CutsPageWithToken(old(MergedRest(bucket, p)), EffectiveMax(p.maxKeys), page.value, token);
        DoesWithToken(done, EffectiveMax(p.maxKeys), ovState, bsState, page.value, ov, bs, token);
        return Success(page.value.(nextToken := token)), ov, bs, done;
      }
      r := page;
    }
  }
}
