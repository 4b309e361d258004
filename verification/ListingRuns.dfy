/**
 Whole listings: one client follows tokens page by page while any number of other clients use
 the same session table, some requests fail, and tokens are retried.
 */
module ListingRuns {
  import opened Listing
  import opened KeyMapping
  import opened Streams
  import opened SessionRuns
  import opened OverlayStore

  /**
   An accepted request: the event that looked its token up, the event that created the session
   for its next token, its page limit and its answer.
   */
  datatype Request = Request(look: nat, make: nat, max: nat, page: ListPage)

  /** What a request still has to list. */
  function Pending(run: seq<Event>, o: Feed, b: Feed, look: nat): seq<Entry>
    requires look < |run| && run[look].Lookup? && Resumes(run, o, b, look)
  {
    var (ov, bs) := TableAt(run, look).Positions(run[look].token);
    Merge(o.Stream(ov), b.Stream(bs))
  }

  predicate Resumes(run: seq<Event>, o: Feed, b: Feed, look: nat)
    requires look < |run| && run[look].Lookup?
  {
    var (ov, bs) := TableAt(run, look).Positions(run[look].token);
    o.KnowsState(ov) && b.KnowsState(bs)
  }

  /**
   What an answered request promises: its page is cut from what there was to list, and if
   entries remain, the positions of the new session stream exactly those.
   */
  ghost predicate Serves(merged: seq<Entry>, max: nat, page: ListPage,
                         ov: CursorState, bs: CursorState, o: Feed, b: Feed) {
    && CutsPage(merged, max, page)
    && (page.truncated ==>
          && o.KnowsState(ov) && b.KnowsState(bs)
          && Merge(o.Stream(ov), b.Stream(bs)) == merged[max..])
  }

  /** The request was answered as `OverlayStore.ListPage` promises. */
  ghost predicate Accepted(run: seq<Event>, o: Feed, b: Feed, r: Request) {
    && r.look < |run| && run[r.look].Lookup? && Resumes(run, o, b, r.look) && 1 <= r.max
    && (r.page.truncated ==>
          r.look < r.make < |run| && run[r.make].Create? && r.page.nextToken == Issued(run, r.make))
    && var (ov, bs) := if r.page.truncated then (run[r.make].ov, run[r.make].bs) else (START, START);
       Serves(Pending(run, o, b, r.look), r.max, r.page, ov, bs, o, b)
  }

  /**
   The backends hand out tokens all the time. An answer given when they had handed out fewer
   still counts, because tokens keep their meaning.
   */
  lemma AcceptedIsStable(run: seq<Event>, o: Feed, b: Feed, laterO: Feed, laterB: Feed, r: Request)
    requires Accepted(run, o, b, r) && o.ExtendedBy(laterO) && b.ExtendedBy(laterB)
    ensures Accepted(run, laterO, laterB, r)
  {
    hide TableAt, CutsPage;
  }

  lemma {:induction false} TableOfPrefix(run: seq<Event>, later: seq<Event>, i: nat)
    requires run <= later && i <= |run|
    ensures TableAt(later, i) == TableAt(run, i)
  {
    if i > 0 {
      TableOfPrefix(run, later, i - 1);
    }
  }

  /** Nothing that happens later takes an answer back. */
  lemma AcceptedGrows(run: seq<Event>, later: seq<Event>, o: Feed, b: Feed, r: Request)
    requires Accepted(run, o, b, r) && run <= later
    ensures Accepted(later, o, b, r)
  {
    TableOfPrefix(run, later, r.look);
    if r.page.truncated {
      TableOfPrefix(run, later, r.make + 1);
    }
    hide TableAt, CutsPage;
  }

  /** The second request presents the token of the first before its session may be collected. */
  predicate Follows(run: seq<Event>, first: Request, second: Request) {
    && first.page.truncated && first.make < second.look < |run| && run[first.make].Create?
    && run[second.look].Lookup? && run[second.look].token == first.page.nextToken
    && InTime(run, first.make, second.look)
  }

  /** The accepted requests of one client that follows tokens until the listing ends. */
  ghost predicate IsTraversal(run: seq<Event>, o: Feed, b: Feed, rs: seq<Request>) {
    && IsRun(run) && rs != []
    && (forall i :: 0 <= i < |rs| ==> Accepted(run, o, b, rs[i]))
    && (forall i :: 0 <= i < |rs| - 1 ==> Follows(run, rs[i], rs[i + 1]))
    && !rs[|rs| - 1].page.truncated
  }

  /** The entries of all pages, those of each page in key order. */
  function Listed(pages: seq<ListPage>): seq<Entry> {
    if pages == [] then [] else MergedPage(pages[0].objects, pages[0].commonPrefixes) + Listed(pages[1..])
  }

  function Pages(rs: seq<Request>): (pages: seq<ListPage>)
    ensures |pages| == |rs|
    ensures forall i :: 0 <= i < |rs| ==> pages[i] == rs[i].page
  {
    seq(|rs|, i requires 0 <= i < |rs| => rs[i].page)
  }

  /** A page shows the entries it was cut from. */
  lemma PageShowsCut(merged: seq<Entry>, max: nat, page: ListPage)
    requires Ordered(merged) && CutsPage(merged, max, page)
    ensures MergedPage(page.objects, page.commonPrefixes) == merged[..if |merged| <= max then |merged| else max]
  {
    MergedPageRestores(merged[..if |merged| <= max then |merged| else max]);
  }

  /** A request that follows another lists what that one left over. */
  lemma NextPending(run: seq<Event>, o: Feed, b: Feed, first: Request, second: Request)
    requires IsRun(run) && Accepted(run, o, b, first) && Accepted(run, o, b, second) && Follows(run, first, second)
    ensures Pending(run, o, b, second.look) == Pending(run, o, b, first.look)[first.max..]
  {
    TokenResumesExactlyIf(run, first.make, second.look);
  }

  /** The first page of a traversal, and what the rest of it has pending. */
  lemma FirstPage(run: seq<Event>, o: Feed, b: Feed, rs: seq<Request>, pending: seq<Entry>)
    requires Traverses(run, o, b, rs, pending) && Ordered(pending)
    ensures var shown := MergedPage(rs[0].page.objects, rs[0].page.commonPrefixes);
            if |rs| == 1 then shown == pending
            else |pending| > rs[0].max && shown == pending[..rs[0].max]
                 && Traverses(run, o, b, rs[1..], pending[rs[0].max..])
  {
    assert Accepted(run, o, b, rs[0]);
    PageShowsCut(pending, rs[0].max, rs[0].page);
    hide MergedPage, Listing.Objects, Prefixes;
    if |rs| == 1 {
      assert pending[..|pending|] == pending;
    } else {
      assert Follows(run, rs[0], rs[1]);
      NextPending(run, o, b, rs[0], rs[1]);
      TraversalTail(run, o, b, rs);
      assert rs[1..][0] == rs[1];
    }
  }

  /** A traversal whose first request has these entries to list. */
  ghost predicate Traverses(run: seq<Event>, o: Feed, b: Feed, rs: seq<Request>, pending: seq<Entry>) {
    IsTraversal(run, o, b, rs) && Pending(run, o, b, rs[0].look) == pending
  }

  /** All pages from a request on list exactly what was pending at that request, in order. */
  lemma {:induction false} TraversalListsPending(run: seq<Event>, o: Feed, b: Feed, rs: seq<Request>,
                                                 pending: seq<Entry>)
    requires rs != [] && Traverses(run, o, b, rs, pending) && Ordered(pending)
    ensures Listed(Pages(rs)) == pending
  {
    hide Traverses, MergedPage, Ordered;
    FirstPage(run, o, b, rs, pending);
    if |rs| == 1 {
      assert Listed(Pages(rs)[1..]) == [];
    } else {
      OrderedSlices(pending, rs[0].max);
      assert Pages(rs)[1..] == Pages(rs[1..]);
      TraversalListsPending(run, o, b, rs[1..], pending[rs[0].max..]);
    }
  }

  lemma TraversalTail(run: seq<Event>, o: Feed, b: Feed, rs: seq<Request>)
    requires IsTraversal(run, o, b, rs) && |rs| > 1
    ensures IsTraversal(run, o, b, rs[1..])
  {
    var tail := rs[1..];
    forall i | 0 <= i < |tail| ensures Accepted(run, o, b, tail[i]) {
      assert tail[i] == rs[i + 1];
    }
    forall i | 0 <= i < |tail| - 1 ensures Follows(run, tail[i], tail[i + 1]) {
      assert tail[i] == rs[i + 1] && tail[i + 1] == rs[i + 2];
      assert Follows(run, rs[i + 1], rs[i + 2]);
    }
  }

  /** A listing that starts from no token lists the merge of both feeds, whatever stores they come from. */
  lemma TraversalListsMerge(run: seq<Event>, o: Feed, b: Feed, rs: seq<Request>)
    requires IsTraversal(run, o, b, rs) && run[rs[0].look].token == ""
    requires "" in o.rests && "" in b.rests && Ordered(o.rests[""]) && Ordered(b.rests[""])
    ensures Listed(Pages(rs)) == Merge(o.rests[""], b.rests[""])
  {
    assert Accepted(run, o, b, rs[0]);
    hide Merge, Ordered, Listed, IsTraversal;
    MergeOrdered(o.rests[""], b.rests[""]);
    assert TableAt(run, rs[0].look).Positions("") == (START, START);
    assert [] + o.rests[""] == o.rests[""] && [] + b.rests[""] == b.rests[""];
    assert Pending(run, o, b, rs[0].look) == Merge(o.rests[""], b.rests[""]);
    TraversalListsPending(run, o, b, rs, Merge(o.rests[""], b.rests[""]));
  }

  /**
   Whole-run correctness. Whatever both backends hold, however they split their pages, with
   any page limits, and whatever else happens in between: following the tokens of a listing
   that starts from no token shows exactly the listing of the baseline bucket overridden by
   the overlay bucket, each entry once and in order.
   */
  lemma TraversalListsEverything(run: seq<Event>, o: Source, b: Source, rs: seq<Request>,
                                 over: map<string, Object>, base: map<string, Object>,
                                 prefix: string, delimiter: string)
    requires IsTraversal(run, o.AsFeed(), b.AsFeed(), rs) && run[rs[0].look].token == ""
    requires IsBucketName(o.bucket) && IsBucketName(b.bucket)
    requires o.raw == BucketListing(over, BackendPrefix(o.mapping, o.bucket, prefix), delimiter)
    requires b.raw == BucketListing(base, BackendPrefix(b.mapping, b.bucket, prefix), delimiter)
    ensures Listed(Pages(rs))
            == BucketListing(ClientObjects(b.mapping, base, b.bucket) + ClientObjects(o.mapping, over, o.bucket),
                             prefix, delimiter)
  {
    hide BucketListing, ClientObjects, BackendPrefix, Source.AsFeed, Merge, IsTraversal, Listed;
    FeedFromStart(o, over, prefix, delimiter);
    FeedFromStart(b, base, prefix, delimiter);
    TraversalListsMerge(run, o.AsFeed(), b.AsFeed(), rs);
    MergedListing(ClientObjects(b.mapping, base, b.bucket), ClientObjects(o.mapping, over, o.bucket), prefix,
                  delimiter);
  }

  /** A backend's feed starts with the listing of the client bucket. */
  lemma FeedFromStart(s: Source, stored: map<string, Object>, prefix: string, delimiter: string)
    requires IsBucketName(s.bucket)
    requires s.raw == BucketListing(stored, BackendPrefix(s.mapping, s.bucket, prefix), delimiter)
    ensures "" in s.AsFeed().rests
    ensures s.AsFeed().rests[""] == BucketListing(ClientObjects(s.mapping, stored, s.bucket), prefix, delimiter)
  {
    hide Visible, ClientObjects, BucketListing, BackendPrefix;
    MappingIsTransparent(s.mapping, s.bucket, stored, prefix, delimiter);
  }

  /** Every truncated page is full: it holds exactly as many entries as its limit. */
  lemma TruncatedPagesAreFull(merged: seq<Entry>, max: nat, page: ListPage)
    requires CutsPage(merged, max, page) && page.truncated
    ensures |page.objects| + |page.commonPrefixes| == max
  {
    SplitLength(merged[..max]);
  }

  /** k pages of m entries are what n entries need: n over m, rounded up, and one for none. */
  predicate FillsPages(n: nat, k: nat, m: nat) {
    if n == 0 then k == 1 else k >= 1 && (k - 1) * m < n <= k * m
  }

  lemma PagesNeeded(n: nat, k: nat, m: nat)
    requires 1 <= m
    ensures FillsPages(n, k, m) <==> k == if n == 0 then 1 else (n + m - 1) / m
  {
    var q, r := (n + m - 1) / m, (n + m - 1) % m;
    assert n + m - 1 == q * m + r && r < m;
    if n > 0 {
      assert (q - 1) * m == q * m - m;
      if k > q {
        MoreMeansMore(q, k - 1, m);
      } else if k < q {
        MoreMeansMore(k, q - 1, m);
      }
    }
  }

  lemma MoreMeansMore(a: int, b: int, m: nat)
    requires a <= b
    ensures a * m <= b * m
  {
    assert (b - a) * m >= 0;
  }

  lemma OneMorePage(n: nat, k: nat, m: nat)
    requires FillsPages(n, k, m) && n > 0
    ensures FillsPages(n + m, k + 1, m)
  {
    assert (k + 1) * m == k * m + m && k * m == (k - 1) * m + m;
  }

  /**
   At a constant limit a traversal takes exactly as many pages as its entries need, exact
   multiples and empty listings included.
   */
  lemma {:induction false} TraversalPageCount(run: seq<Event>, o: Feed, b: Feed, rs: seq<Request>, m: nat)
    requires IsTraversal(run, o, b, rs)
    requires forall i :: 0 <= i < |rs| ==> rs[i].max == m
    ensures FillsPages(|Pending(run, o, b, rs[0].look)|, |rs|, m)
  {
    assert Accepted(run, o, b, rs[0]);
    hide Listing.Objects, Prefixes, Pending, Resumes;
    if |rs| > 1 {
      assert Follows(run, rs[0], rs[1]);
      NextPending(run, o, b, rs[0], rs[1]);
      TraversalTail(run, o, b, rs);
      assert rs[1..][0] == rs[1];
      TraversalPageCount(run, o, b, rs[1..], m);
      OneMorePage(|Pending(run, o, b, rs[1].look)|, |rs| - 1, m);
    }
  }
}
