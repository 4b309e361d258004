/**
 The S3 operations on objects, as the handlers carry them out step by step on the overlay
 store. Seen through the merged view of a bucket the gateway behaves like one plain map from
 keys to objects, except that any request may fail because a backend does.
 */
module Gateway {
  import opened Results
  import opened Order
  import opened Text
  import opened Listing
  import opened KeyMapping
  import opened Numbers
  import opened Ranges
  import opened S3Service
  import opened BodyErrors
  import opened S3Store
  import opened OverlayStore

  const DEFAULT_CONTENT_TYPE := "binary/octet-stream"

  datatype Response =
    | ErrorResponse(status: nat, code: string)
    | BackendFailure(error: Error)
    | ObjectHeaders(status: nat, meta: ObjectMeta, contentRange: string)
    | ObjectBody(status: nat, meta: ObjectMeta, contentRange: string, body: string)
    | Written(etag: string)  // sent in quotes
    | Done

  const INVALID_MAX_KEYS := ErrorResponse(400, "InvalidArgument")
  const NO_SUCH_KEY := ErrorResponse(404, "NoSuchKey")
  const INVALID_RANGE := ErrorResponse(416, "InvalidRange")
  const PRECONDITION_FAILED := ErrorResponse(412, "PreconditionFailed")
  const INVALID_COPY_SOURCE := ErrorResponse(400, "InvalidArgument")

  function Quoted(etag: string): string {
    "\"" + etag + "\""
  }

  function TrimLeft(s: string): string {
    if s != "" && s[0] == '"' then TrimLeft(s[1..]) else s
  }

  function TrimRight(s: string): string {
    if s != "" && s[|s| - 1] == '"' then TrimRight(s[..|s| - 1]) else s
  }

  /** strings.Trim(s, `"`). */
  function TrimQuotes(s: string): string {
    TrimRight(TrimLeft(s))
  }

  /** The quoted form in which tags are handed out is accepted as a precondition. */
  lemma TrimQuoted(etag: string)
    requires '"' !in etag
    ensures TrimQuotes(Quoted(etag)) == etag
  {
    var tail := etag + "\"";
    assert Quoted(etag)[1..] == tail && tail[..|etag|] == etag;
    assert TrimLeft(Quoted(etag)) == TrimLeft(tail);
    if etag == "" {
      assert tail[1..] == "";
      assert TrimLeft(tail) == "";
    } else {
      assert etag[0] in etag && etag[|etag| - 1] in etag;
      assert TrimLeft(tail) == tail;
      assert TrimRight(tail) == TrimRight(etag) == etag;
    }
  }

  function Quotes(n: nat): string {
    seq(n, _ => '"')
  }

  lemma {:induction false} TrimLeftIs(s: string) returns (n: nat)
    ensures s == Quotes(n) + TrimLeft(s) && (TrimLeft(s) != "" ==> TrimLeft(s)[0] != '"')
  {
    n := 0;
    if s != "" && s[0] == '"' {
      n := TrimLeftIs(s[1..]);
      n := n + 1;
      assert Quotes(n) == ['"'] + Quotes(n - 1);
      assert s == [s[0]] + s[1..];
    }
  }

  lemma {:induction false} TrimRightIs(s: string) returns (n: nat)
    ensures s == TrimRight(s) + Quotes(n) && (TrimRight(s) != "" ==> TrimRight(s)[|TrimRight(s)| - 1] != '"')
  {
    n := 0;
    if s != "" && s[|s| - 1] == '"' {
      n := TrimRightIs(s[..|s| - 1]);
      n := n + 1;
      assert Quotes(n) == Quotes(n - 1) + ['"'];
      assert s == s[..|s| - 1] + [s[|s| - 1]];
    }
  }

  /** Trimming takes off all quotes on either side, and nothing else. */
  lemma TrimQuotesIs(s: string) returns (left: nat, right: nat)
    ensures var t := TrimQuotes(s);
            s == Quotes(left) + t + Quotes(right) && (t != "" ==> t[0] != '"' && t[|t| - 1] != '"')
  {
    left := TrimLeftIs(s);
    right := TrimRightIs(TrimLeft(s));
    hide TrimLeft, TrimRight, Quotes;
    var l, t := TrimLeft(s), TrimQuotes(s);
    if t != "" {
      assert l[0] == t[0];
    }
    ConcatAssociative(Quotes(left), t, Quotes(right));
  }

  function ContentTypeOrDefault(contentType: string): string {
    if contentType == "" then DEFAULT_CONTENT_TYPE else contentType
  }

  /** The headers of an object: the stored metadata with a content type in any case. */
  function Headers(meta: ObjectMeta): ObjectMeta {
    meta.(etag := Quoted(meta.etag), contentType := ContentTypeOrDefault(meta.contentType))
  }

  // ---------------------------------------------------------------- what one map would do

  /** GET on a plain map: section 14.2 and 15.5.17 of RFC 9110, malformed ranges ignored. */
  function GetOf(m: map<string, Object>, key: string, range: string): Response {
    if key !in m then NO_SUCH_KEY
    else
      var o := m[key];
      var whole := ObjectBody(200, Headers(FullMeta(key, o)), "", o.data);
      if range == "" then whole
      else
        match ParseByteRange(range, |o.data|)
        case Failure(_) => INVALID_RANGE
        case Success(None) => whole
        case Success(Some(b)) =>
          ObjectBody(206, Headers(FullMeta(key, o)).(size := b.length),
                     ContentRange(b.start, b.length, |o.data|), o.data[b.start..b.start + b.length])
  }

  function HeadOf(m: map<string, Object>, key: string): Response {
    if key in m then ObjectHeaders(200, Headers(FullMeta(key, m[key])), "") else NO_SUCH_KEY
  }

  /** Whether the preconditions of a write hold. */
  predicate MayPut(m: map<string, Object>, key: string, ifNoneMatch: string, ifMatch: string) {
    && (ifNoneMatch == "*" ==> key !in m)
    && (ifMatch != "" ==> key in m && m[key].etag == TrimQuotes(ifMatch))
  }

  /** The max-keys parameter of a listing; 1000 if it is missing. */
  function MaxKeys(param: string): (r: Result<int, Response>)
    ensures r.Success? ==> 0 <= r.value <= MAX_INT64
  {
    if param == "" then Success(1000)
    else
      match ParseInt(param, 10)
      case None => Failure(INVALID_MAX_KEYS)
      case Some(n) => if n < 0 then Failure(INVALID_MAX_KEYS) else Success(n)
  }

  /** Every limit of 64 bits that a client may print is accepted, and so are those the gateway gets wrong. */
  lemma {:induction false} PrintedLimitIsAccepted(n: nat)
    requires n <= MAX_INT64
    ensures MaxKeys(Format(n, 10)) == Success(n as int)
  {
    ParseIntFormat(n, 10);
  }

  /** A limit for which every listing is answered as empty and complete. */
  lemma WrappedLimitIsAccepted()
    ensures exists n: nat :: MaxKeys(Format(n, 10)) == Success(n as int) && n > 0 && BackendLimit(n) == 0
  {
    PrintedLimitIsAccepted(0x1_0000_0000);
  }

  /** X-Amz-Copy-Source: an optional slash, the source bucket, a slash, the source key. */
  function CopySource(header: string): (r: Option<(string, string)>)
    ensures r.Some? ==> IsBucketName(r.value.0) && r.value.1 != ""
  {
    var path := if header != "" && header[0] == '/' then header[1..] else header;
    var src := match Find(path, "?") case None => path case Some(i) => path[..i];
    match Find(src, "/")
    case None => None
    case Some(i) =>
      FindCharSplits(src, '/');
      if src[..i] == "" || src[i + 1..] == "" then None else Some((src[..i], src[i + 1..]))
  }

  /** Nothing, or a question mark and anything. */
  predicate IsQueryTail(tail: string) {
    tail == "" || tail[0] == '?'
  }

  /** The header names this object: with or without a slash in front, and a query behind. */
  ghost predicate CopyNames(header: string, bucket: string, key: string) {
    && IsBucketName(bucket) && key != "" && '?' !in bucket && '?' !in key
    && exists tail :: IsQueryTail(tail)
                      && (header == bucket + "/" + key + tail || header == "/" + (bucket + "/" + key + tail))
  }

  lemma {:induction false} PathNames(path: string, bucket: string, key: string, tail: string)
    requires IsBucketName(bucket) && key != "" && '?' !in bucket && '?' !in key && IsQueryTail(tail)
    requires path == bucket + "/" + key + tail
    ensures var src := match Find(path, "?") case None => path case Some(i) => path[..i];
            src == bucket + "/" + key && Find(src, "/") == Some(|bucket|)
  {
    var src := bucket + "/" + key;
    assert '?' !in src;
    if tail == "" {
      assert path == src;
      FindCharNone(path, '?');
    } else {
      assert tail == ['?'] + tail[1..];
      assert path == src + ['?'] + tail[1..];
      FindChar(src, '?', tail[1..]);
      assert path[..|src|] == src;
    }
    FindChar(bucket, '/', key);
  }

  lemma NamedPath(path: string) returns (tail: string)
    ensures var src := match Find(path, "?") case None => path case Some(i) => path[..i];
            '?' !in src && path == src + tail && IsQueryTail(tail)
  {
    FindCharNone(path, '?');
    match Find(path, "?")
    case None =>
      tail := "";
      assert path == path + "";
    case Some(i) =>
      FindCharSplits(path, '?');
      tail := path[i..];
  }

  lemma AppendKeepsHead(a: string, b: string)
    requires a != ""
    ensures a + b != "" && (a + b)[0] == a[0]
  {
  }

  lemma FoundIsNamed(header: string, bucket: string, key: string)
    requires CopySource(header) == Some((bucket, key))
    ensures CopyNames(header, bucket, key)
  {
    var path := if header != "" && header[0] == '/' then header[1..] else header;
    var src := match Find(path, "?") case None => path case Some(i) => path[..i];
    var tail := NamedPath(path);
    hide Find;
    FindCharSplits(src, '/');
    assert src == bucket + "/" + key;
    if header != "" && header[0] == '/' {
      assert header == "/" + path;
    }
  }

  lemma NamedIsFound(header: string, bucket: string, key: string)
    requires CopyNames(header, bucket, key)
    ensures CopySource(header) == Some((bucket, key))
  {
    var path := if header != "" && header[0] == '/' then header[1..] else header;
    var src := match Find(path, "?") case None => path case Some(i) => path[..i];
    var tail :| IsQueryTail(tail)
                && (header == bucket + "/" + key + tail || header == "/" + (bucket + "/" + key + tail));
    var named := bucket + "/" + key + tail;
    assert named[0] == bucket[0] && bucket[0] in bucket;
    assert path == named;
    hide Find;
    PathNames(path, bucket, key, tail);
    assert src[..|bucket|] == bucket && src[|bucket| + 1..] == key;
  }

  /** Which object a copy source names, exactly. */
  lemma CopySourceExactlyIf(header: string, bucket: string, key: string)
    ensures CopySource(header) == Some((bucket, key)) <==> CopyNames(header, bucket, key)
  {
    hide CopySource, CopyNames;
    if CopySource(header) == Some((bucket, key)) {
      FoundIsNamed(header, bucket, key);
    }
    if CopyNames(header, bucket, key) {
      NamedIsFound(header, bucket, key);
    }
  }

  /** A copy source is refused exactly if it names no object. */
  lemma CopySourceIsNoneExactlyIf(header: string)
    ensures CopySource(header).None? <==> forall bucket, key :: !CopyNames(header, bucket, key)
  {
    if CopySource(header).Some? {
      var (bucket, key) := CopySource(header).value;
      CopySourceExactlyIf(header, bucket, key);
    }
    forall bucket, key | CopyNames(header, bucket, key) ensures CopySource(header).Some? {
      CopySourceExactlyIf(header, bucket, key);
    }
  }

  /** Which page limits the list handler accepts. */
  lemma MaxKeysAre(param: string)
    ensures param == "" ==> MaxKeys(param) == Success(1000)
    ensures param != "" ==> forall n :: MaxKeys(param) == Success(n) <==> n >= 0 && ParseInt(param, 10) == Some(n)
    ensures MaxKeys(param).Failure? ==> MaxKeys(param) == Failure(ErrorResponse(400, "InvalidArgument"))
  {
  }

  // ---------------------------------------------------------------- what clients see

  /** The headers of an object: its tag in quotes, its time, its content type or the default one. */
  predicate CarriesHeaders(meta: ObjectMeta, key: string, o: Object) {
    && meta.key == key && meta.etag == "\"" + o.etag + "\"" && meta.lastModified == o.modified
    && meta.contentType == (if o.contentType == "" then "binary/octet-stream" else o.contentType)
  }

  /** A part of an object: Content-Range, length and bytes agree. */
  ghost predicate IsPart(o: Object, r: Response) {
    && r.ObjectBody? && r.status == 206
    && exists first: nat, last: nat ::
         && first <= last < |o.data| && SaysRange(r.contentRange, first, last, |o.data|)
         && r.body == o.data[first..last + 1] && r.meta.size == last - first + 1
  }

  lemma SliceIsPart(o: Object, r: Response, b: ByteRange)
    requires Inside(b, |o.data|) && |o.data| <= MAX_INT64 && r.ObjectBody? && r.status == 206
    requires r.contentRange == ContentRange(b.start, b.length, |o.data|)
    requires r.body == o.data[b.start..b.start + b.length] && r.meta.size == b.length
    ensures IsPart(o, r)
  {
    ContentRangeSays(b.start, b.length, |o.data|);
    var first, last := b.start, b.start + b.length - 1;
    hide ContentRange, SaysRange;
    assert first <= last < |o.data| && SaysRange(r.contentRange, first, last, |o.data|)
           && r.body == o.data[first..last + 1] && r.meta.size == last - first + 1;
  }

  /** Every answer to a GET, by the object and by what its Range header asks for. */
  lemma GetAnswers(m: map<string, Object>, key: string, range: string)
    requires key in m ==> |m[key].data| <= MAX_INT64
    ensures var r := GetOf(m, key, range);
            if key !in m then r == ErrorResponse(404, "NoSuchKey")
            else
              var o := m[key];
              var asked: Resolution := if range == "" then Success(None) else ParseByteRange(range, |o.data|);
              match asked
              case Failure(_) => r == ErrorResponse(416, "InvalidRange")
              case Success(None) =>
                && r.ObjectBody? && r.status == 200 && r.contentRange == ""
                && r.body == o.data && r.meta.size == |o.data| && CarriesHeaders(r.meta, key, o)
              case Success(Some(b)) =>
                && IsPart(o, r) && CarriesHeaders(r.meta, key, o)
                && r.body == o.data[b.start..b.start + b.length]
  {
    hide ParseByteRange, ContentRange, IsPart;
    if key in m && range != "" {
      match ParseByteRange(range, |m[key].data|)
      case Success(Some(b)) => SliceIsPart(m[key], GetOf(m, key, range), b);
      case _ =>
    }
  }

  /** A GET of the bytes from a first to a last position: those of them that exist, or none and an error. */
  lemma {:induction false} RangedGetAnswers(m: map<string, Object>, key: string, a: nat, b: nat)
    requires key in m && |m[key].data| <= MAX_INT64 && a <= MAX_INT64 && b <= MAX_INT64
    ensures var o, r := m[key], GetOf(m, key, "bytes=" + (Format(a, 10) + "-" + Format(b, 10)));
            if a < |o.data| && a <= b then
              var last := if b < |o.data| then b else |o.data| - 1;
              && r.ObjectBody? && r.status == 206 && r.body == o.data[a..last + 1] && r.meta.size == last - a + 1
              && SaysRange(r.contentRange, a, last, |o.data|)
            else r == ErrorResponse(416, "InvalidRange")
  {
    hide *;
    PrintedRange(a, b, |m[key].data|);
    RangeAnswers(m, key, "bytes=" + (Format(a, 10) + "-" + Format(b, 10)), a, b);
  }

  lemma RangeAnswers(m: map<string, Object>, key: string, range: string, a: nat, b: nat)
    requires key in m && |m[key].data| <= MAX_INT64 && range != ""
    requires ParseByteRange(range, |m[key].data|)
          == if a >= |m[key].data| || b < a then Failure(Unsatisfiable)
             else Success(Some(ByteRange(a, (if b < |m[key].data| then b + 1 else |m[key].data|) - a)))
    ensures var o, r := m[key], GetOf(m, key, range);
            if a < |o.data| && a <= b then
              var last := if b < |o.data| then b else |o.data| - 1;
              && r.ObjectBody? && r.status == 206 && r.body == o.data[a..last + 1] && r.meta.size == last - a + 1
              && SaysRange(r.contentRange, a, last, |o.data|)
            else r == ErrorResponse(416, "InvalidRange")
  {
    hide *;
    var size := |m[key].data|;
    if a < size && a <= b {
      var last := if b < size then b else size - 1;
      PartOf(m, key, range, ByteRange(a, last - a + 1));
      ContentRangeSays(a, last - a + 1, size);
    } else {
      NoPartOf(m, key, range);
    }
  }

  lemma PartOf(m: map<string, Object>, key: string, range: string, b: ByteRange)
    requires key in m && range != "" && ParseByteRange(range, |m[key].data|) == Success(Some(b))
    ensures var r := GetOf(m, key, range);
            && Inside(b, |m[key].data|) && r.ObjectBody? && r.status == 206 && r.meta.size == b.length
            && r.contentRange == ContentRange(b.start, b.length, |m[key].data|)
            && r.body == m[key].data[b.start..b.start + b.length]
  {
    hide ParseByteRange, ContentRange;
  }

  lemma NoPartOf(m: map<string, Object>, key: string, range: string)
    requires key in m && range != "" && ParseByteRange(range, |m[key].data|).Failure?
    ensures GetOf(m, key, range) == ErrorResponse(416, "InvalidRange")
  {
    hide ParseByteRange;
  }

  /** Every answer to a HEAD. */
  lemma HeadAnswers(m: map<string, Object>, key: string)
    ensures var r := HeadOf(m, key);
            if key !in m then r == ErrorResponse(404, "NoSuchKey")
            else
              && r.ObjectHeaders? && r.status == 200
              && r.meta.size == |m[key].data| && CarriesHeaders(r.meta, key, m[key])
  {
  }

  /**
   Every answer to a PUT: what it stores, and that If-None-Match with the wildcard never replaces
   an object and If-Match with a tag replaces only the object of that tag.
   */
  lemma PutAnswersAre(before: map<string, Object>, after: map<string, Object>, key: string,
                      ifNoneMatch: string, ifMatch: string, contentType: string,
                      body: Result<string, ReadError>, r: Response, modified: int, tag: string)
    requires PutAnswers(before, after, key, ifNoneMatch, ifMatch, contentType, body, r, modified)
    requires '"' !in tag
    ensures r.Written? || r.BackendFailure? || r == ErrorResponse(412, "PreconditionFailed")
    ensures r.Written? ==>
              && body.Success?
              && var stored := if contentType == "" then "binary/octet-stream" else contentType;
                 after == before[key := Object(body.value, r.etag, modified, stored)]
    ensures !r.Written? ==> after == before
    ensures r.Written? && ifNoneMatch == "*" ==> key !in before
    ensures r.Written? && ifMatch == "\"" + tag + "\"" ==> key in before && before[key].etag == tag
    ensures r.ErrorResponse? && ifMatch == "" ==> ifNoneMatch == "*" && key in before
    ensures r.ErrorResponse? && ifNoneMatch != "*" && ifMatch == "\"" + tag + "\"" ==>
              key !in before || before[key].etag != tag
  {
    TrimQuoted(tag);
    hide TrimQuotes;
  }

  /** Every answer to a copy from an object that the header names. */
  lemma CopyAnswersAre(source: map<string, Object>, srcKey: string, before: map<string, Object>,
                       after: map<string, Object>, key: string, r: Response, modified: int)
    requires CopyAnswers(source, srcKey, before, after, key, r, modified)
    ensures r.Written? || r.BackendFailure? || r == ErrorResponse(404, "NoSuchKey")
    ensures r.Written? ==>
              && srcKey in source
              && var o := source[srcKey];
                 var stored := if o.contentType == "" then "binary/octet-stream" else o.contentType;
                 after == before[key := Object(o.data, r.etag, modified, stored)]
    ensures !r.Written? ==> after == before
    ensures r.ErrorResponse? ==> srcKey !in source
  {
  }

  // ---------------------------------------------------------------- preconditions and RFC 9110

  /** A list of entity tags as section 8.8.3 of RFC 9110 writes them. */
  function TagList(tags: seq<string>): string
    requires tags != []
  {
    if |tags| == 1 then Quoted(tags[0]) else Quoted(tags[0]) + ", " + TagList(tags[1..])
  }

  /** Section 13.1.1: the object exists and its tag is in the list. */
  predicate MatchesAny(m: map<string, Object>, key: string, tags: seq<string>) {
    key in m && m[key].etag in tags
  }

  lemma {:induction false} TrimLeftKeeps(s: string, c: char)
    requires c != '"' && c in s
    ensures c in TrimLeft(s)
  {
    if s[0] == '"' {
      assert s == [s[0]] + s[1..];
      TrimLeftKeeps(s[1..], c);
    }
  }

  lemma {:induction false} TrimRightKeeps(s: string, c: char)
    requires c != '"' && c in s
    ensures c in TrimRight(s)
  {
    if s[|s| - 1] == '"' {
      assert s == s[..|s| - 1] + [s[|s| - 1]];
      TrimRightKeeps(s[..|s| - 1], c);
    }
  }

  /** A list of several tags never equals a tag without commas. */
  lemma {:induction false} ListIsNoTag(tags: seq<string>)
    requires |tags| > 1
    ensures ',' in TrimQuotes(TagList(tags))
  {
    var s := TagList(tags);
    assert s[|Quoted(tags[0])|] == ',';
    TrimLeftKeeps(s, ',');
    TrimRightKeeps(TrimLeft(s), ',');
  }

  /**
   A PUT with a list of tags in If-Match is decided as section 13.1.1 of RFC 9110 asks for if and
   only if the list has one tag, or none of its tags is the object's: of several tags the gateway
   matches none.
   */
  lemma {:induction false} IfMatchIsHonouredExactlyIf(m: map<string, Object>, key: string, tags: seq<string>)
    requires tags != [] && (forall t :: t in tags ==> '"' !in t) && (key in m ==> ',' !in m[key].etag)
    ensures (MayPut(m, key, "", TagList(tags)) <==> MatchesAny(m, key, tags))
            <==> |tags| == 1 || !MatchesAny(m, key, tags)
  {
    if |tags| == 1 {
      TrimQuoted(tags[0]);
      assert tags == [tags[0]];
    } else {
      ListIsNoTag(tags);
    }
    assert TagList(tags) != "";
  }

  /** The wildcard, which asks for any object, is honoured if and only if there is none, or its tag is an asterisk. */
  lemma IfMatchWildcardIsHonouredExactlyIf(m: map<string, Object>, key: string)
    ensures (MayPut(m, key, "", "*") <==> key in m) <==> key !in m || m[key].etag == "*"
  {
    assert TrimLeft("*") == "*" && TrimRight("*") == "*";
  }

  /** Tags in If-None-Match (section 13.1.2) are ignored: honoured if and only if none of them is the object's. */
  lemma {:induction false} IfNoneMatchIsHonouredExactlyIf(m: map<string, Object>, key: string, tags: seq<string>)
    requires tags != []
    ensures (MayPut(m, key, TagList(tags), "") <==> !MatchesAny(m, key, tags)) <==> !MatchesAny(m, key, tags)
  {
    assert TagList(tags)[0] == '"';
  }

  /** A write that both headers allow, and that the gateway refuses. */
  lemma WildcardIsRefused(o: Object)
    requires o.etag == "d41d8cd98f00b204e9800998ecf8427e"
    ensures var m := map["k" := o];
            && "k" in m && !MayPut(m, "k", "", "*")
            && !MayPut(m, "k", "", TagList([o.etag, "x"])) && MatchesAny(m, "k", [o.etag, "x"])
  {
    var m := map["k" := o];
    IfMatchWildcardIsHonouredExactlyIf(m, "k");
    assert o.etag[0] == 'd' && "*"[0] == '*';
    assert forall c :: c in o.etag ==> c != ',';
    ListIsNoTag([o.etag, "x"]);
    assert o.etag in [o.etag, "x"];
    assert TagList([o.etag, "x"])[0] == '"';
  }

  /** A body that was read to its end and fits into an object. */
  predicate IsStorable(body: Result<string, ReadError>) {
    body.Success? && |body.value| <= MAX_INT64
  }

  /** A write that happens: the new contents of the bucket. */
  ghost predicate Wrote(before: map<string, Object>, after: map<string, Object>, key: string,
                        data: string, contentType: string, etag: string, modified: int)
  {
    after == before[key := Object(data, etag, modified, contentType)]
  }

  /** PUT on a plain map. */
  ghost predicate PutAnswers(before: map<string, Object>, after: map<string, Object>, key: string,
                             ifNoneMatch: string, ifMatch: string, contentType: string,
                             body: Result<string, ReadError>, r: Response, modified: int)
  {
    if r.Written? then
      && MayPut(before, key, ifNoneMatch, ifMatch) && body.Success?
      && Wrote(before, after, key, body.value, ContentTypeOrDefault(contentType), r.etag, modified)
    else
      && after == before
      && (r.BackendFailure? || (r == PRECONDITION_FAILED && !MayPut(before, key, ifNoneMatch, ifMatch)))
  }

  /** Copying on plain maps, from the contents of the source's bucket. */
  ghost predicate CopyAnswers(source: map<string, Object>, srcKey: string, before: map<string, Object>,
                              after: map<string, Object>, key: string, r: Response, modified: int)
  {
    if r.Written? then
      && srcKey in source
      && Wrote(before, after, key, source[srcKey].data, ContentTypeOrDefault(source[srcKey].contentType),
               r.etag, modified)
    else
      after == before && (r.BackendFailure? || (r == NO_SUCH_KEY && srcKey !in source))
  }

  // ---------------------------------------------------------------- the handlers

  class Server {
    const store: OverlayStore

    constructor (store: OverlayStore)
      ensures this.store == store
    {
      this.store := store;
    }

    /** Two backends, the overlay's mapped into one existing bucket, and object sizes of 64 bits. */
    predicate Valid()
      reads store.overlay.client`buckets, store.baseline.client`buckets
    {
      && store.overlay.client != store.baseline.client
      && store.overlay.mapping.bucket != ""
      && store.overlay.mapping.bucket in store.overlay.client.buckets
      && store.overlay.client.Sized() && store.baseline.client.Sized()
    }

    /** Whether both backends answer every request they can answer. */
    predicate Reliable() {
      store.Reliable()
    }

    function View(bucket: string): map<string, Object>
      reads store.overlay.client`buckets, store.baseline.client`buckets
    {
      store.View(bucket)
    }

    lemma ViewIsSized(bucket: string, key: string)
      requires Valid() && key in View(bucket)
      ensures |View(bucket)[key].data| <= MAX_INT64
    {
      if key in store.overlay.Objects(bucket) {
        var o := store.overlay;
        assert ListPrefix(o.mapping, bucket) + key in o.client.Contents(o.Physical(bucket));
      } else {
        var b := store.baseline;
        assert ListPrefix(b.mapping, bucket) + key in b.client.Contents(b.Physical(bucket));
      }
    }

    /**
     A GET answers as one map would: the status, the declared length, the Content-Range and
     the bytes written agree, whichever backend holds the object and whether or not it honours
     ranges. A body that breaks off while it is passed on counts as a failure.
     */
    method GetObject(bucket: string, key: string, range: string) returns (r: Response)
      requires Valid() && IsBucketName(bucket) && key != ""
      ensures r.BackendFailure? || r == GetOf(View(bucket), key, range)
      ensures r.ObjectBody? && r.status == 206 ==> key in View(bucket) && IsPart(View(bucket)[key], r)
      ensures Reliable() ==> !r.BackendFailure?
    {
      hide OverlayStore.View, Service.Sized, ParseByteRange, ContentRange, IsPart;
      var rng: Option<ByteRange> := None;
      var total := 0;
      if range != "" {
        var head := store.Head(bucket, key);
        if head == Failure(ErrNotFound) {
          return NO_SUCH_KEY;
        }
        if head.Failure? {
          return BackendFailure(head.error);
        }
        total := head.value.size;
        var parsed := ParseByteRange(range, total);
        if parsed.Failure? {
          return INVALID_RANGE;
        }
        rng := parsed.value;
        ViewIsSized(bucket, key);
      }
      var got := store.Get(bucket, key, rng);
      if got == Failure(ErrNotFound) {
        return NO_SUCH_KEY;
      }
      if got.Failure? {
        return BackendFailure(got.error);
      }
      var lost: bool := *;
      if lost && !Reliable() {
        return BackendFailure(ErrBody(ConnectionLost));
      }
      ViewIsSized(bucket, key);
      var (body, meta) := got.value;
      match rng
      case None =>
        r := ObjectBody(200, Headers(meta), "", Limit(body, meta.size));
      case Some(b) =>
        if meta.size > b.length {
          meta := meta.(size := b.length);
        }
        r := ObjectBody(206, Headers(meta), ContentRange(b.start, meta.size, total), Limit(body, meta.size));
        SliceIsPart(View(bucket)[key], r, b);
    }

    method HeadObject(bucket: string, key: string) returns (r: Response)
      requires IsBucketName(bucket) && key != ""
      ensures r.BackendFailure? || r == HeadOf(View(bucket), key)
      ensures Reliable() ==> !r.BackendFailure?
    {
      var head := store.Head(bucket, key);
      if head == Failure(ErrNotFound) {
        return NO_SUCH_KEY;
      }
      if head.Failure? {
        return BackendFailure(head.error);
      }
      r := ObjectHeaders(200, Headers(head.value), "");
    }

    /**
     A PUT stores exactly the bytes of its body under its key if its preconditions hold, and
     otherwise, or if the body cannot be read or a backend fails, changes nothing.
     */
    method PutObject(bucket: string, key: string, ifNoneMatch: string, ifMatch: string,
                     contentType: string, body: Result<string, ReadError>, now: int)
        returns (r: Response, ghost modified: int)
      requires Valid() && IsBucketName(bucket) && key != ""
      modifies store.overlay.client`buckets
      ensures Valid() && store.baseline.client.buckets == old(store.baseline.client.buckets)
      ensures !r.Written? ==> store.overlay.client.buckets == old(store.overlay.client.buckets)
      ensures PutAnswers(old(View(bucket)), View(bucket), key, ifNoneMatch, ifMatch, contentType, body, r, modified)
      ensures Reliable() && IsStorable(body) ==> !r.BackendFailure?
      ensures r.Written? && ifNoneMatch == "*" ==> key !in old(View(bucket))
      ensures r.ErrorResponse? && ifMatch == "" ==> ifNoneMatch == "*" && key in old(View(bucket))
      ensures forall b :: IsBucketName(b) && b != bucket ==> View(b) == old(View(b))
      ensures forall b :: IsBucketName(b) && b != bucket ==> store.overlay.Objects(b) == old(store.overlay.Objects(b))
      ensures store.overlay.Objects(bucket).Keys >= old(store.overlay.Objects(bucket).Keys)
    {
      hide OverlayStore.View, Service.Sized, MayPut, S3Store.Store.Objects;
      var checked := Preconditions(bucket, key, ifNoneMatch, ifMatch);
      if checked != Done {
        return checked, 0;
      }
      r, modified := Store(bucket, key, body, ContentTypeOrDefault(contentType), now);
    }

    method Preconditions(bucket: string, key: string, ifNoneMatch: string, ifMatch: string) returns (r: Response)
      requires IsBucketName(bucket) && key != ""
      ensures r == Done || r == PRECONDITION_FAILED || r.BackendFailure?
      ensures Reliable() ==> !r.BackendFailure?
      ensures r == Done ==> MayPut(View(bucket), key, ifNoneMatch, ifMatch)
      ensures r == PRECONDITION_FAILED ==> !MayPut(View(bucket), key, ifNoneMatch, ifMatch)
      ensures r == Done && ifNoneMatch == "*" ==> key !in View(bucket)
      ensures r == PRECONDITION_FAILED && ifMatch == "" ==> ifNoneMatch == "*" && key in View(bucket)
    {
      hide OverlayStore.View;
      if ifNoneMatch == "*" {
        var head := store.Head(bucket, key);
        if head.Success? {
          return PRECONDITION_FAILED;
        }
        if head.error != ErrNotFound {
          return BackendFailure(head.error);
        }
      }
      if ifMatch != "" {
        var existing := store.Head(bucket, key);
        if existing.Failure? && existing.error != ErrNotFound {
          return BackendFailure(existing.error);
        }
        if existing.Failure? || existing.value.etag != TrimQuotes(ifMatch) {
          return PRECONDITION_FAILED;
        }
      }
      r := Done;
    }

    /** The write at the end of a PUT or a copy. */
    method Store(bucket: string, key: string, body: Result<string, ReadError>, contentType: string, now: int)
        returns (r: Response, ghost modified: int)
      requires Valid() && IsBucketName(bucket) && key != ""
      modifies store.overlay.client`buckets
      ensures Valid() && store.baseline.client.buckets == old(store.baseline.client.buckets)
      ensures r.Written? || r.BackendFailure?
      ensures Reliable() && IsStorable(body) ==> r.Written?
      ensures !r.Written? ==> store.overlay.client.buckets == old(store.overlay.client.buckets)
      ensures r.Written? ==>
                && body.Success?
                && Wrote(old(View(bucket)), View(bucket), key, body.value, contentType, r.etag, modified)
      ensures forall b :: IsBucketName(b) && b != bucket ==> View(b) == old(View(b))
      ensures forall b :: IsBucketName(b) && b != bucket ==> store.overlay.Objects(b) == old(store.overlay.Objects(b))
      ensures store.overlay.Objects(bucket).Keys >= old(store.overlay.Objects(bucket).Keys)
    {
      hide OverlayStore.View, Service.Sized, S3Store.Store.Objects;
      var put, at := store.Put(bucket, key, body, contentType, now);
      if put.Failure? {
        return BackendFailure(put.error), 0;
      }
      r, modified := Written(put.value.etag), at;
    }

    /**
     A copy is a write of the source's bytes and content type. The source's body may break off
     while it is read; then nothing is written.
     */
    method CopyObject(bucket: string, key: string, source: string, now: int)
        returns (r: Response, ghost modified: int)
      requires Valid() && IsBucketName(bucket) && key != ""
      modifies store.overlay.client`buckets
      ensures Valid() && store.baseline.client.buckets == old(store.baseline.client.buckets)
      ensures !r.Written? ==> store.overlay.client.buckets == old(store.overlay.client.buckets)
      ensures match CopySource(source)
              case None => r == INVALID_COPY_SOURCE
              case Some((srcBucket, srcKey)) =>
                CopyAnswers(old(View(srcBucket)), srcKey, old(View(bucket)), View(bucket), key, r, modified)
      ensures Reliable() ==> !r.BackendFailure?
      ensures forall b :: IsBucketName(b) && b != bucket ==> View(b) == old(View(b))
      ensures forall b :: IsBucketName(b) && b != bucket ==> store.overlay.Objects(b) == old(store.overlay.Objects(b))
      ensures store.overlay.Objects(bucket).Keys >= old(store.overlay.Objects(bucket).Keys)
    {
      hide OverlayStore.View, Service.Sized, CopySource, S3Store.Store.Objects;
      match CopySource(source)
      case None => return INVALID_COPY_SOURCE, 0;
      case Some((srcBucket, srcKey)) =>
        var got := store.Get(srcBucket, srcKey, None);
        if got == Failure(ErrNotFound) {
          return NO_SUCH_KEY, 0;
        }
        if got.Failure? {
          return BackendFailure(got.error), 0;
        }
        ViewIsSized(srcBucket, srcKey);
        var lost: bool := *;
        var body := if lost && !Reliable() then Failure(ConnectionLost) else Success(got.value.0);
        r, modified := Store(bucket, key, body, ContentTypeOrDefault(got.value.1.contentType), now);
    }

    /** Creating a bucket changes no key of any bucket. */
    method CreateBucket(bucket: string) returns (r: Response)
      requires Valid() && IsBucketName(bucket)
      modifies store.overlay.client`buckets
      ensures r == Done || r.BackendFailure?
      ensures Reliable() ==> r == Done
      ensures Valid() && store.baseline.client.buckets == old(store.baseline.client.buckets)
      ensures forall b :: IsBucketName(b) ==> View(b) == old(View(b))
      ensures forall b :: IsBucketName(b) ==> store.overlay.Objects(b) == old(store.overlay.Objects(b))
    {
      hide OverlayStore.View, Service.Sized, S3Store.Store.Objects;
      var created := store.CreateBucket(bucket);
      r := if created.Success? then Done else BackendFailure(created.error);
    }
  }
}
