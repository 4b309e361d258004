/**
 A store on an S3 backend: the overlay store nests every client bucket inside one physical
 bucket, the baseline store addresses its backend one-to-one.
 */
module S3Store {
  import opened Order
  import opened Results
  import opened Listing
  import opened KeyMapping
  import opened Buckets
  import opened Numbers
  import opened Ranges
  import opened S3Service
  import opened Streams
  import opened BodyErrors

  datatype Error = ErrNotFound | ErrBackend(api: ApiError) | ErrBody(body: ReadError)

  function MapS3Error(e: ApiError): Error {
    if e == NoSuchKey || e == NoSuchBucket then ErrNotFound else ErrBackend(e)
  }

  /** A page of a backend's listing, measured by the physical entries that are left. */
  ghost predicate ShowsPage(s: Source, after: string, page: ListPage, shown: seq<Entry>) {
    && s.Knows(after)
    && if page.truncated then
         && s.Knows(page.nextToken)
         && ShowsRun(s.Remaining(after), page, shown, s.Remaining(page.nextToken))
         && |s.RawRest(page.nextToken)| < |s.RawRest(after)|
       else ShowsRun(s.Remaining(after), page, shown, [])
  }

  /** A cursor that has consumed its entries streams the same whether or not it fetches a page. */
  lemma StreamOfPage(s: Source, cs: CursorState, page: ListPage, shown: seq<Entry>)
    requires ShowsPage(s, cs.after, page, shown) && cs.remaining == [] && !cs.done
    ensures var next := CursorState(page.nextToken, shown, !page.truncated);
            s.KnowsState(next) && s.Stream(next) == s.Stream(cs)
  {
  }

  function UnmapObjects(m: Mapping, bucket: string, metas: seq<ObjectMeta>): seq<ObjectMeta> {
    if metas == [] then []
    else
      var last := metas[|metas| - 1];
      UnmapObjects(m, bucket, metas[..|metas| - 1])
      + match Unmap(m, bucket, last.key)
        case None => []
        case Some(key) => [last.(key := key)]
  }

  function UnmapPrefixes(m: Mapping, bucket: string, prefixes: seq<string>): seq<string> {
    if prefixes == [] then []
    else
      UnmapPrefixes(m, bucket, prefixes[..|prefixes| - 1])
      + match Unmap(m, bucket, prefixes[|prefixes| - 1])
        case None => []
        case Some(key) => [key]
  }

  /** Filtering the halves of a page is filtering the page. */
  lemma {:induction false} UnmapVisible(m: Mapping, bucket: string, s: seq<Entry>)
    ensures UnmapObjects(m, bucket, Objects(s)) == Objects(Visible(m, bucket, s))
    ensures UnmapPrefixes(m, bucket, Prefixes(s)) == Prefixes(Visible(m, bucket, s))
  {
    if s != [] {
      var front, last := s[..|s| - 1], [s[|s| - 1]];
      assert s == front + last;
      UnmapVisible(m, bucket, front);
      SplitConcat(front, last);
      VisibleConcat(m, bucket, front, last);
      SplitConcat(Visible(m, bucket, front), Visible(m, bucket, last));
      UnmapVisibleLast(m, bucket, Objects(front), Prefixes(front), last[0]);
    }
  }

  lemma {:induction false} UnmapVisibleLast(m: Mapping, bucket: string, objects: seq<ObjectMeta>,
                                            prefixes: seq<string>, e: Entry)
    ensures UnmapObjects(m, bucket, objects + Objects([e]))
         == UnmapObjects(m, bucket, objects) + Objects(Visible(m, bucket, [e]))
    ensures UnmapPrefixes(m, bucket, prefixes + Prefixes([e]))
         == UnmapPrefixes(m, bucket, prefixes) + Prefixes(Visible(m, bucket, [e]))
  {
    assert Visible(m, bucket, [e]) == match UnmapEntry(m, bucket, e) case None => [] case Some(x) => [x];
    match e {
      case ObjectEntry(meta) =>
        assert (objects + [meta])[..|objects|] == objects;
        assert prefixes + [] == prefixes;
      case PrefixEntry(prefix) =>
        assert (prefixes + [prefix])[..|prefixes|] == prefixes;
        assert objects + [] == objects;
    }
  }

  lemma NoNames(m: Mapping, all: seq<string>)
    ensures NamesOf(m, []) == {} && [] + all == all
  {
  }

  /** What a page adds to the common prefixes seen. */
  lemma {:induction false} NextNames(m: Mapping, shown: seq<string>, rest: seq<Entry>, n: nat)
    requires n <= |rest|
    ensures shown + Prefixes(rest[..n]) + Prefixes(rest[n..]) == shown + Prefixes(rest)
    ensures n == |rest| ==> shown + Prefixes(rest[..n]) == shown + Prefixes(rest)
    ensures NamesOf(m, shown + Prefixes(rest[..n])) == NamesOf(m, shown) + NamesOf(m, Prefixes(rest[..n]))
  {
    hide NamesOf, Prefixes, Listing.Objects;
    NamesOfConcat(m, shown, Prefixes(rest[..n]));
    SplitConcat(rest[..n], rest[n..]);
    ConcatAssociative(shown, Prefixes(rest[..n]), Prefixes(rest[n..]));
    assert rest[..n] + rest[n..] == rest && (n == |rest| ==> rest[..n] == rest);
  }

  /** The page limit that reaches the backend: 1000 by default, and cut to 32 bits. */
  function BackendLimit(maxKeys: int): int {
    ToInt32(if maxKeys <= 0 then 1000 else maxKeys)
  }

  /** The limit that reaches the backend is the one asked for, 1000 if none is, as long as it fits. */
  lemma LimitIsPassedOn(maxKeys: int)
    requires maxKeys <= MAX_INT32
    ensures BackendLimit(maxKeys) == if maxKeys > 0 then maxKeys else 1000
  {
  }

  /**
   The limit is lost exactly if it is a positive multiple of two to the 32nd, and becomes negative,
   which backends refuse, exactly if its low 32 bits are above the signed range.
   */
  lemma LimitWrapsExactlyIf(maxKeys: int)
    ensures BackendLimit(maxKeys) == 0 <==> maxKeys > 0 && maxKeys % 0x1_0000_0000 == 0
    ensures BackendLimit(maxKeys) < 0 <==> maxKeys > 0 && maxKeys % 0x1_0000_0000 > MAX_INT32
  {
  }

  class Store {
    const client: Service
    const mapping: Mapping

    constructor (client: Service, mapping: Mapping)
      ensures this.client == client && this.mapping == mapping
    {
      this.client := client;
      this.mapping := mapping;
    }

    function Physical(bucket: string): string {
      MapKey(mapping, bucket, "").0
    }

    /** Whether the physical bucket, if one is configured, exists. */
    predicate Rooted()
      reads client`buckets
    {
      mapping.bucket == "" || mapping.bucket in client.buckets
    }

    /** The client-visible contents of a bucket. */
    function Objects(bucket: string): map<string, Object>
      reads client`buckets
    {
      ClientObjects(mapping, client.Contents(Physical(bucket)), bucket)
    }

    /** The listing of a client bucket as the backend serves it now. */
    function SourceOf(bucket: string, p: ListParams): (s: Source)
      reads client
      ensures s.raw == RawOf(bucket, p) && s.mapping == mapping && s.bucket == bucket && s.tokens == client.tokens
    {
      Source(mapping, bucket, RawOf(bucket, p), client.tokens)
    }

    /** The physical entries it is served from. */
    function RawOf(bucket: string, p: ListParams): (raw: seq<Entry>)
      reads client`buckets
      ensures Ordered(raw)
    {
      if BackendLimit(p.maxKeys) == 0 then []
      else client.Raw(Physical(bucket), BackendPrefix(mapping, bucket, p.prefix), p.delimiter)
    }

    /** A listing from the start shows the client bucket and nothing else, unless the limit wraps to zero. */
    lemma ListingFromStart(bucket: string, p: ListParams)
      requires IsBucketName(bucket)
      ensures SourceOf(bucket, p).Stream(START)
           == if BackendLimit(p.maxKeys) == 0 then [] else BucketListing(Objects(bucket), p.prefix, p.delimiter)
    {
      hide BucketListing, ClientObjects, BackendPrefix, BackendLimit;
      MappingIsTransparent(mapping, bucket, client.Contents(Physical(bucket)), p.prefix, p.delimiter);
    }

    lemma MissingIsEmpty(bucket: string, p: ListParams)
      requires Physical(bucket) !in client.buckets
      ensures SourceOf(bucket, p).raw == []
    {
      EmptyListing(BackendPrefix(mapping, bucket, p.prefix), p.delimiter);
    }

    /**
     One page: the entries shown and the entries that remain at the next token make up what
     remained at the given token, and a truncated page makes progress.
     */
    method ListPage(bucket: string, p: ListParams) returns (r: Result<ListPage, Error>, ghost shown: seq<Entry>)
      requires IsBucketName(bucket)
      modifies client`tokens
      ensures TokensKept(old(client.tokens), client.tokens)
      ensures r == Failure(ErrNotFound) ==> Physical(bucket) !in client.buckets
      ensures client.reliable && Physical(bucket) !in client.buckets ==> r == Failure(ErrNotFound)
      ensures && client.reliable && Physical(bucket) in client.buckets
              && old(client.Knows(p.after)) && 0 <= BackendLimit(p.maxKeys) ==>
                r.Success?
      ensures r.Success? ==>
                Physical(bucket) in client.buckets && old(client.Knows(p.after)) && 0 <= BackendLimit(p.maxKeys)
      ensures r.Success? ==> ShowsPage(SourceOf(bucket, p), p.after, r.value, shown)
    {
      hide UnmapObjects, UnmapPrefixes, Visible, BucketListing, ClientObjects, Listing.Objects, Prefixes, After;
      hide ToInt32;
      shown := [];
      NothingAfter();
      var maxKeys := if p.maxKeys <= 0 then 1000 else p.maxKeys;
      ghost var raw := SourceOf(bucket, p).raw;
      var resp, n := client.ListObjectsV2(Physical(bucket), BackendPrefix(mapping, bucket, p.prefix),
                                          p.delimiter, p.after, ToInt32(maxKeys));
      assert raw == SourceOf(bucket, p).raw;
      if resp.Failure? {
        return Failure(MapS3Error(resp.error)), shown;
      }
      var objects := KeepObjects(bucket, resp.value.contents);
      var prefixes := KeepPrefixes(bucket, resp.value.commonPrefixes);
      shown := Shown(bucket, client.Rest(raw, p.after), n);
      r := Success(Page(objects, prefixes, resp.value.isTruncated,
                        if resp.value.isTruncated then resp.value.nextToken else ""));
    }

    lemma NothingAfter()
      ensures forall cut :: After([], cut) == []
    {
    }

    lemma Shown(bucket: string, rest: seq<Entry>, n: nat) returns (shown: seq<Entry>)
      requires IsBucketName(bucket) && Ordered(rest) && n <= |rest|
      ensures Ordered(shown)
      ensures Listing.Objects(shown) == UnmapObjects(mapping, bucket, Listing.Objects(rest[..n]))
      ensures Prefixes(shown) == UnmapPrefixes(mapping, bucket, Prefixes(rest[..n]))
      ensures shown + Visible(mapping, bucket, rest[n..]) == Visible(mapping, bucket, rest)
      ensures n == |rest| ==> shown == Visible(mapping, bucket, rest)
    {
      hide *;
      shown := Visible(mapping, bucket, rest[..n]);
      OrderedSlices(rest, n);
      UnmapVisible(mapping, bucket, rest[..n]);
      VisibleOrdered(mapping, bucket, rest[..n]);
      VisibleConcat(mapping, bucket, rest[..n], rest[n..]);
      assert rest[..n] + rest[n..] == rest;
      assert n == |rest| ==> rest[..n] == rest;
    }

    method KeepObjects(bucket: string, contents: seq<ObjectMeta>) returns (out: seq<ObjectMeta>)
      ensures out == UnmapObjects(mapping, bucket, contents)
    {
      out := [];
      for i := 0 to |contents|
        invariant out == UnmapObjects(mapping, bucket, contents[..i])
      {
        assert contents[..i + 1][..i] == contents[..i];
        match Unmap(mapping, bucket, contents[i].key)
        case None =>
        case Some(key) => out := out + [contents[i].(key := key)];
      }
      assert contents[..|contents|] == contents;
    }

    method KeepPrefixes(bucket: string, prefixes: seq<string>) returns (out: seq<string>)
      ensures out == UnmapPrefixes(mapping, bucket, prefixes)
    {
      out := [];
      for i := 0 to |prefixes|
        invariant out == UnmapPrefixes(mapping, bucket, prefixes[..i])
      {
        assert prefixes[..i + 1][..i] == prefixes[..i];
        match Unmap(mapping, bucket, prefixes[i])
        case None =>
        case Some(key) => out := out + [key];
      }
      assert prefixes[..|prefixes|] == prefixes;
    }

    // -------------------------------------------------------------- buckets

    /** The bucket names this store finds. */
    ghost function BucketNames(): set<string>
      reads client`buckets
    {
      if mapping.bucket == "" then client.buckets.Keys
      else ListedBuckets(mapping, client.Contents(mapping.bucket))
    }

    /** Names are collected over all pages of one listing, each once. */
    method ListBuckets() returns (r: Result<seq<string>, Error>)
      modifies client`tokens
      ensures r.Success? ==> forall b :: b in r.value <==> b in BucketNames()
      ensures client.reliable && Rooted() ==> r.Success?
    {
      if mapping.bucket == "" {
        var names := client.ListBuckets();
        return if names.Failure? then Failure(ErrBackend(names.error)) else Success(names.value);
      }
      r := CollectNames();
    }

    method CollectNames() returns (r: Result<seq<string>, Error>)
      modifies client`tokens
      ensures r.Success? ==> forall b :: b in r.value <==> b in ListedBuckets(mapping, client.Contents(mapping.bucket))
      ensures client.reliable && mapping.bucket in client.buckets ==> r.Success?
    {
      hide BucketListing, Prefixes, NamesOf;
      var buckets: seq<string> := [];
      var token := "";
      ghost var raw, shown := client.Raw(mapping.bucket, mapping.prefix, "/"), [];
      var more := true;
      NoNames(mapping, Prefixes(raw));
      while more
        invariant more ==> client.Knows(token) && shown + Prefixes(client.Rest(raw, token)) == Prefixes(raw)
        invariant !more ==> shown == Prefixes(raw)
        invariant forall b :: b in buckets <==> b in NamesOf(mapping, shown)
        decreases if more then 1 + |client.Rest(raw, token)| else 0
      {
        ghost var rest := client.Rest(raw, token);
        var resp, n := client.ListObjectsV2(mapping.bucket, mapping.prefix, "/", token, 1000);
        assert client.Raw(mapping.bucket, mapping.prefix, "/") == raw;
        if resp.Failure? {
          return Failure(ErrBackend(resp.error));
        }
        buckets := AddNames(buckets, resp.value.commonPrefixes);
        NextNames(mapping, shown, rest, n);
        shown := shown + Prefixes(rest[..n]);
        more := resp.value.isTruncated;
        token := resp.value.nextToken;
      }
      r := Success(buckets);
    }

    method AddNames(buckets: seq<string>, prefixes: seq<string>) returns (all: seq<string>)
      ensures forall b :: b in all <==> b in buckets || b in NamesOf(mapping, prefixes)
    {
      all := buckets;
      for i := 0 to |prefixes|
        invariant forall b :: b in all <==> b in buckets || b in NamesOf(mapping, prefixes[..i])
      {
        assert prefixes[..i + 1] == prefixes[..i] + [prefixes[i]];
        NamesOfConcat(mapping, prefixes[..i], [prefixes[i]]);
        var name := UnmapPrefixRoot(mapping, prefixes[i]);
        if name.Some? && name.value !in all {
          all := all + [name.value];
        }
      }
      assert prefixes[..|prefixes|] == prefixes;
    }

    // -------------------------------------------------------------- objects

    lemma LookupIsClientObject(bucket: string, key: string)
      requires IsBucketName(bucket) && key != ""
      ensures client.Lookup(MapKey(mapping, bucket, key).0, MapKey(mapping, bucket, key).1)
           == if key in Objects(bucket) then Some(Objects(bucket)[key]) else None
    {
      MapKeyIsPrefixed(mapping, bucket, key);
    }

    method Head(bucket: string, key: string) returns (r: Result<ObjectMeta, Error>)
      requires IsBucketName(bucket) && key != ""
      ensures r == Failure(ErrNotFound) ==> key !in Objects(bucket)
      ensures r.Success? ==> key in Objects(bucket) && r.value == FullMeta(key, Objects(bucket)[key])
      ensures client.reliable && r.Failure? ==> r.error == ErrNotFound
    {
      LookupIsClientObject(bucket, key);
      var (b, k) := MapKey(mapping, bucket, key);
      var out := client.HeadObject(b, k);
      match out
      case Failure(e) => r := Failure(MapS3Error(e));
      case Success(meta) => r := Success(meta.(key := key));
    }

    /**
     With a range inside the object the body is exactly that slice and the size its length,
     whether the backend honours the range or answers with the whole object.
     */
    method Get(bucket: string, key: string, rng: Option<ByteRange>) returns (r: Result<(string, ObjectMeta), Error>)
      requires IsBucketName(bucket) && key != ""
      requires rng.Some? ==> 0 <= rng.value.start && 1 <= rng.value.length
      ensures r == Failure(ErrNotFound) ==> key !in Objects(bucket)
      ensures r.Success? ==> key in Objects(bucket) && Delivers(r.value.0, r.value.1, key, Objects(bucket)[key], rng)
      ensures client.reliable && r.Failure? ==>
                r.error == ErrNotFound || (key in Objects(bucket) && !Deliverable(Objects(bucket)[key], rng))
    {
      LookupIsClientObject(bucket, key);
      var (b, k) := MapKey(mapping, bucket, key);
      var out := client.GetObject(b, k, if rng.Some? then Header(rng.value) else "");
      if out.Failure? {
        if key in Objects(bucket) && Deliverable(Objects(bucket)[key], rng) && rng.Some? {
          HeaderRoundTrip(rng.value, |Objects(bucket)[key].data|);
        }
        return Failure(MapS3Error(out.error));
      }
      var resp := out.value;
      var body, size := resp.body, resp.contentLength;
      if rng.Some? && resp.contentRange == "" {
        body := Limit(Skip(body, rng.value.start), rng.value.length);
        if size > rng.value.length {
          size := rng.value.length;
        }
      }
      r := Success((body, ObjectMeta(key, size, resp.etag, resp.lastModified, resp.contentType)));
      SliceIsDelivered(resp, key, Objects(bucket)[key], rng, body, size);
    }

    /**
     A write stores the object under its client key and touches no other key of any client
     bucket. A body that cannot be read is never sent.
     */
    method Put(bucket: string, key: string, body: Result<string, ReadError>, contentType: string, now: int)
        returns (r: Result<ObjectMeta, Error>, ghost modified: int)
      requires IsBucketName(bucket) && key != ""
      modifies client`buckets
      ensures r.Failure? ==> client.buckets == old(client.buckets)
      ensures old(client.Sized()) ==> client.Sized()
      ensures body.Failure? ==> r == Failure(ErrBody(body.error))
      ensures r.Success? ==> body.Success? && |body.value| <= MAX_INT64
      ensures && client.reliable && Physical(bucket) in old(client.buckets)
              && body.Success? && |body.value| <= MAX_INT64 ==>
                r.Success?
      ensures client.buckets.Keys == old(client.buckets.Keys)
      ensures r.Success? ==>
                && r.value.key == key
                && Objects(bucket)
                   == old(Objects(bucket))[key := Object(body.value, r.value.etag, modified, contentType)]
      ensures forall b :: IsBucketName(b) && b != bucket ==> Objects(b) == old(Objects(b))
    {
      if body.Failure? {
        return Failure(ErrBody(body.error)), 0;
      }
      var (b, k) := MapKey(mapping, bucket, key);
      var out := client.PutObject(b, k, body.value, contentType);
      if out.Failure? {
        return Failure(ErrBackend(out.error)), 0;
      }
      modified := out.value.lastModified;
      ghost var o := Object(body.value, out.value.etag, out.value.lastModified, contentType);
      ghost var stored := old(client.Contents(Physical(bucket)));
      assert client.Contents(Physical(bucket)) == stored[k := o];
      forall c | IsBucketName(c)
        ensures Objects(c) == if c == bucket then old(Objects(bucket))[key := o] else old(Objects(c))
      {
        WriteIsLocal(mapping, stored, bucket, key, o, c);
      }
      r := Success(ObjectMeta(key, 0, out.value.etag, now, ""));
    }

    /**
     Creating a client bucket writes a marker that no client key shows, or an empty bucket if the
     store addresses its backend one-to-one.
     */
    method CreateBucket(bucket: string) returns (r: Result<(), Error>)
      requires IsBucketName(bucket)
      modifies client`buckets
      ensures r.Failure? ==> client.buckets == old(client.buckets)
      ensures old(client.Sized()) ==> client.Sized()
      ensures r.Success? ==>
                if mapping.bucket == "" then
                  bucket !in old(client.buckets) && client.buckets.Keys == old(client.buckets.Keys) + {bucket}
                else
                  && ListPrefix(mapping, bucket) in client.Contents(mapping.bucket)
                  && client.buckets.Keys == old(client.buckets.Keys)
      ensures client.reliable && mapping.bucket == "" && bucket !in old(client.buckets) ==> r.Success?
      ensures client.reliable && mapping.bucket != "" && mapping.bucket in old(client.buckets) ==> r.Success?
      ensures forall b :: IsBucketName(b) ==> Objects(b) == old(Objects(b))
    {
      if mapping.bucket == "" {
        var made := client.CreateBucket(bucket);
        return if made.Failure? then Failure(ErrBackend(made.error)) else Success(());
      }
      r := CreateMarker(bucket);
    }

    method CreateMarker(bucket: string) returns (r: Result<(), Error>)
      requires IsBucketName(bucket) && mapping.bucket != ""
      modifies client`buckets
      ensures r.Failure? ==> client.buckets == old(client.buckets)
      ensures old(client.Sized()) ==> client.Sized()
      ensures r.Success? ==> ListPrefix(mapping, bucket) in client.Contents(mapping.bucket)
      ensures client.reliable && mapping.bucket in old(client.buckets) ==> r.Success?
      ensures client.buckets.Keys == old(client.buckets.Keys)
      ensures forall b :: IsBucketName(b) ==> Objects(b) == old(Objects(b))
    {
      var out := client.PutObject(mapping.bucket, JoinKey([mapping.prefix, bucket]) + "/", "", "");
      if out.Failure? {
        return Failure(ErrBackend(out.error));
      }
      ghost var o := Object("", out.value.etag, out.value.lastModified, "");
      ghost var stored := old(client.Contents(mapping.bucket));
      assert client.Contents(mapping.bucket) == stored[ListPrefix(mapping, bucket) := o];
      forall c | IsBucketName(c) ensures Objects(c) == old(Objects(c)) {
        MarkerWriteIsHidden(mapping, stored, bucket, o, c);
      }
      r := Success(());
    }
  }

  /**
   The contract of a store's Get: the whole object, or exactly the slice of a range inside it,
   and metadata whose size is that of the body.
   */
  predicate Delivers(body: string, meta: ObjectMeta, key: string, o: Object, rng: Option<ByteRange>) {
    && meta == FullMeta(key, o).(size := meta.size)
    && match rng
       case None => body == o.data && meta.size == |o.data|
       case Some(b) =>
         Deliverable(o, rng) ==>
           body == o.data[b.start..b.start + b.length] && meta.size == b.length
  }

  /** Whether a range, if any, lies inside an object. */
  predicate Deliverable(o: Object, rng: Option<ByteRange>) {
    rng.Some? ==> |o.data| <= MAX_INT64 && Inside(rng.value, |o.data|)
  }

  /** Cutting the slice out of an answer that ignored the range gives what an honoured range gives. */
  lemma SliceIsDelivered(resp: GetResponse, key: string, o: Object, rng: Option<ByteRange>, body: string, size: int)
    requires rng.Some? ==> 0 <= rng.value.start && 1 <= rng.value.length
    requires Answers(resp, o, if rng.Some? then Header(rng.value) else "")
    requires body == if rng.Some? && resp.contentRange == "" then
                       Limit(Skip(resp.body, rng.value.start), rng.value.length)
                     else resp.body
    requires size == if rng.Some? && resp.contentRange == "" && resp.contentLength > rng.value.length then
                       rng.value.length
                     else resp.contentLength
    ensures Delivers(body, ObjectMeta(key, size, resp.etag, resp.lastModified, resp.contentType), key, o, rng)
  {
    if rng.Some? && |o.data| <= MAX_INT64 && Inside(rng.value, |o.data|) {
      HeaderRoundTrip(rng.value, |o.data|);
      hide ParseByteRange, Header;
      assert resp.contentRange == "" ==> body == o.data[rng.value.start..][..rng.value.length];
    }
  }

  /** Reading on after discarding up to n bytes. */
  function Skip(body: string, n: nat): string {
    if n <= |body| then body[n..] else ""
  }

  function Limit(body: string, n: nat): string {
    if n <= |body| then body[..n] else body
  }
}
