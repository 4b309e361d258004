/**
 What the gateway relies on from an S3 backend, as a class whose methods choose freely among
 the answers the S3 API allows: any call may fail, a page may hold any number of entries, a
 token may be any non-empty string, and a range may be honoured or ignored.
 */
module S3Service {
  import opened Results
  import opened Listing
  import opened Numbers
  import opened Ranges

  datatype ApiError = NoSuchKey | NoSuchBucket | BucketExists | InvalidArgument | InvalidRangeError | Unavailable

  datatype ListResponse =
    ListResponse(contents: seq<ObjectMeta>, commonPrefixes: seq<string>, isTruncated: bool, nextToken: string)

  datatype GetResponse =
    GetResponse(body: string, contentLength: int, contentRange: string,
                etag: string, lastModified: int, contentType: string)

  datatype PutResponse = PutResponse(etag: string, lastModified: int)

  class Service {
    var buckets: map<string, map<string, Object>>
    /** Every continuation token handed out, with the key it resumes after. */
    var tokens: map<string, string>
    /** Whether the backend answers every request it can answer. */
    const reliable: bool

    constructor (buckets: map<string, map<string, Object>>, reliable: bool)
      ensures this.buckets == buckets && tokens == map[] && this.reliable == reliable
    {
      this.reliable := reliable;
      this.buckets := buckets;
      tokens := map[];
    }

    predicate Knows(token: string)
      reads this`tokens
    {
      token == "" || token in tokens
    }

    /** What is left of an ordered listing at a token. */
    function Rest(raw: seq<Entry>, token: string): (r: seq<Entry>)
      requires Knows(token)
      reads this`tokens
      ensures Ordered(raw) ==> Ordered(r)
    {
      RestAt(raw, tokens, token)
    }

    /** What a bucket holds; nothing if it does not exist. */
    function Contents(bucket: string): map<string, Object>
      reads this`buckets
    {
      if bucket in buckets then buckets[bucket] else map[]
    }

    function Raw(bucket: string, prefix: string, delimiter: string): (s: seq<Entry>)
      reads this`buckets
      ensures Ordered(s)
    {
      BucketListing(Contents(bucket), prefix, delimiter)
    }

    function Lookup(bucket: string, key: string): Option<Object>
      reads this`buckets
    {
      if key in Contents(bucket) then Some(Contents(bucket)[key]) else None
    }

    /** Object sizes are numbers of 64 bits. */
    predicate Sized()
      reads this`buckets
    {
      forall b, k :: b in buckets && k in buckets[b] ==> |buckets[b][k].data| <= MAX_INT64
    }

    /**
     A page is a contiguous run of the listing behind the token's key. A truncated page takes
     at least one entry and carries a token for the rest; tokens keep their meaning. A limit of
     zero is answered with nothing, as if nothing were left, and a negative one is refused.
     */
    method ListObjectsV2(bucket: string, prefix: string, delimiter: string, token: string, maxKeys: int)
        returns (r: Result<ListResponse, ApiError>, ghost n: nat)
      requires -MAX_INT32 - 1 <= maxKeys <= MAX_INT32
      modifies this`tokens
      ensures forall t :: t in old(tokens) ==> t in tokens && tokens[t] == old(tokens)[t]
      ensures r == Failure(NoSuchBucket) ==> bucket !in buckets
      ensures r != Failure(NoSuchKey)
      ensures reliable && bucket !in buckets ==> r == Failure(NoSuchBucket)
      ensures reliable && bucket in buckets && old(Knows(token)) && 0 <= maxKeys ==> r.Success?
      ensures r.Success? ==> bucket in buckets && old(Knows(token)) && Knows(token) && 0 <= maxKeys
      ensures r.Success? ==>
                IsPage(r.value, if maxKeys == 0 then [] else Rest(Raw(bucket, prefix, delimiter), token), n)
      ensures r.Success? && r.value.isTruncated ==>
                && Knows(r.value.nextToken)
                && Rest(Raw(bucket, prefix, delimiter), r.value.nextToken)
                   == Rest(Raw(bucket, prefix, delimiter), token)[n..]
    {
      var up: bool := *;
      n := 0;
      if bucket !in buckets {
        r := Failure(NoSuchBucket);
      } else if !Knows(token) || maxKeys < 0 {
        r := Failure(InvalidArgument);
      } else if !up && !reliable {
        r := Failure(Unavailable);
      } else if maxKeys == 0 {
        r := Success(ListResponse([], [], false, ""));
      } else {
        var raw := Raw(bucket, prefix, delimiter);
        r, n := CutPage(raw, token);
        assert raw == Raw(bucket, prefix, delimiter);
      }
    }

    method CutPage(raw: seq<Entry>, token: string) returns (r: Result<ListResponse, ApiError>, ghost n: nat)
      requires Ordered(raw) && Knows(token)
      modifies this`tokens
      ensures forall t :: t in old(tokens) ==> t in tokens && tokens[t] == old(tokens)[t]
      ensures r.Failure? ==> r == Failure(Unavailable) && !reliable
      ensures r.Success? ==> IsPage(r.value, Rest(raw, token), n)
      ensures r.Success? && r.value.isTruncated ==>
                Knows(r.value.nextToken) && Rest(raw, r.value.nextToken) == Rest(raw, token)[n..]
    {
      var size: int := *;
      var truncated: bool := *;
      var next: string := *;
      var rest := Rest(raw, token);
      var usable := next != "" && 0 < size <= |rest| && (next in tokens ==> tokens[next] == rest[size - 1].Key());
      if !truncated || size <= 0 || size > |rest| || (reliable && !usable) {
        assert rest[..|rest|] == rest;
        return Success(ListResponse(Objects(rest), Prefixes(rest), false, next)), |rest|;
      }
      var cut := rest[size - 1].Key();
      if !usable {
        return Failure(Unavailable), 0;
      }
      RestLast(raw, token, size);
      tokens := tokens[next := cut];
      return Success(ListResponse(Objects(rest[..size]), Prefixes(rest[..size]), true, next)), size;
    }

    lemma {:induction false} RestLast(raw: seq<Entry>, token: string, n: nat)
      requires Ordered(raw) && Knows(token) && 0 < n <= |Rest(raw, token)|
      ensures After(raw, Rest(raw, token)[n - 1].Key()) == Rest(raw, token)[n..]
    {
      if token == "" {
        AfterElement(raw, n - 1);
      } else {
        AfterLast(raw, tokens[token], n);
      }
    }

    method ListBuckets() returns (r: Result<seq<string>, ApiError>)
      ensures r.Success? ==> forall b :: b in r.value <==> b in buckets
      ensures reliable ==> r.Success?
    {
      var up: bool := *;
      if !up && !reliable {
        return Failure(Unavailable);
      }
      var names, todo := [], buckets.Keys;
      while todo != {}
        invariant forall b :: b in buckets <==> b in names || b in todo
        decreases todo
      {
        var b :| b in todo;
        names, todo := names + [b], todo - {b};
      }
      r := Success(names);
    }

    method HeadObject(bucket: string, key: string) returns (r: Result<ObjectMeta, ApiError>)
      ensures r.Success? ==> Lookup(bucket, key).Some?
                             && r.value == FullMeta(key, Lookup(bucket, key).value)
      ensures r == Failure(NoSuchKey) ==> Lookup(bucket, key).None?
      ensures r == Failure(NoSuchBucket) ==> bucket !in buckets
      ensures reliable && r.Failure? ==> r.error == NoSuchKey || r.error == NoSuchBucket
    {
      var up: bool := *;
      if !up && !reliable {
        return Failure(Unavailable);
      }
      if bucket !in buckets {
        return Failure(NoSuchBucket);
      }
      match Lookup(bucket, key)
      case None => return Failure(NoSuchKey);
      case Some(o) => return Success(FullMeta(key, o));
    }

    /** A backend answers a range with the slice and a Content-Range, or with the whole object and none. */
    method GetObject(bucket: string, key: string, range: string) returns (r: Result<GetResponse, ApiError>)
      ensures r == Failure(NoSuchKey) ==> Lookup(bucket, key).None?
      ensures r == Failure(NoSuchBucket) ==> bucket !in buckets
      ensures r.Success? ==> Lookup(bucket, key).Some? && Answers(r.value, Lookup(bucket, key).value, range)
      ensures reliable && r.Failure? ==>
                || r.error == NoSuchKey || r.error == NoSuchBucket
                || (r.error == InvalidRangeError && range != "" && Lookup(bucket, key).Some?
                    && ParseByteRange(range, |Lookup(bucket, key).value.data|).Failure?)
    {
      var up: bool := *;
      if !up && !reliable {
        return Failure(Unavailable);
      }
      if bucket !in buckets {
        return Failure(NoSuchBucket);
      }
      match Lookup(bucket, key)
      case None => return Failure(NoSuchKey);
      case Some(o) =>
        var honour: bool := *;
        if honour && range != "" {
          match ParseByteRange(range, |o.data|)
          case Failure(_) => return Failure(InvalidRangeError);
          case Success(None) =>
          case Success(Some(b)) =>
            return Success(GetResponse(o.data[b.start..b.start + b.length], b.length,
                                       ContentRange(b.start, b.length, |o.data|),
                                       o.etag, o.modified, o.contentType));
        }
        return Success(GetResponse(o.data, |o.data|, "", o.etag, o.modified, o.contentType));
    }

    /** Creating a bucket that exists is refused. */
    method CreateBucket(bucket: string) returns (r: Result<(), ApiError>)
      modifies this`buckets
      ensures r.Failure? ==> buckets == old(buckets)
      ensures r.Success? ==> bucket !in old(buckets) && buckets == old(buckets)[bucket := map[]]
      ensures reliable && bucket !in old(buckets) ==> r.Success?
    {
      var up: bool := *;
      if bucket in buckets {
        return Failure(BucketExists);
      }
      if !up && !reliable {
        return Failure(Unavailable);
      }
      buckets := buckets[bucket := map[]];
      r := Success(());
    }

    /** The backend chooses the entity tag and the time of a write. */
    method PutObject(bucket: string, key: string, body: string, contentType: string)
        returns (r: Result<PutResponse, ApiError>)
      modifies this`buckets
      ensures r.Failure? ==> buckets == old(buckets)
      ensures r.Success? ==> bucket in old(buckets) && |body| <= MAX_INT64
      ensures reliable && bucket in old(buckets) && |body| <= MAX_INT64 ==> r.Success?
      ensures old(Sized()) ==> Sized()
      ensures r.Success? ==>
                buckets == old(buckets)[bucket := old(buckets)[bucket][key :=
                             Object(body, r.value.etag, r.value.lastModified, contentType)]]
    {
      var up: bool := *;
      var etag: string := *;
      var lastModified: int := *;
      if bucket !in buckets {
        return Failure(NoSuchBucket);
      }
      if (!up && !reliable) || |body| > MAX_INT64 {
        return Failure(Unavailable);
      }
      buckets := buckets[bucket := buckets[bucket][key := Object(body, etag, lastModified, contentType)]];
      return Success(PutResponse(etag, lastModified));
    }
  }

  /** A page of the first n of the entries that are left. */
  predicate IsPage(p: ListResponse, rest: seq<Entry>, n: nat) {
    && n <= |rest|
    && p.contents == Objects(rest[..n])
    && p.commonPrefixes == Prefixes(rest[..n])
    && if p.isTruncated then n > 0 && p.nextToken != "" else n == |rest|
  }

  /** The answers a backend may give to a GET of an object. */
  predicate Answers(g: GetResponse, o: Object, range: string) {
    && g.etag == o.etag && g.lastModified == o.modified && g.contentType == o.contentType
    && ((g.contentRange == "" && g.body == o.data && g.contentLength == |o.data|)
        || (range != "" && g.contentRange != ""
            && match ParseByteRange(range, |o.data|)
               case Success(Some(b)) => g.body == o.data[b.start..b.start + b.length] && g.contentLength == b.length
               case _ => false))
  }
}
