/**
 The gateway as one map. Its state is the physical contents of the overlay bucket and the
 contents of the baseline buckets; what it represents is a single map from client buckets and
 keys to objects.
 */
module Refinement {
  import opened Results
  import opened Listing
  import opened KeyMapping
  import opened Gateway
  import opened Ranges
  import opened BodyErrors

  type Merged = map<(string, string), Object>

  function BaselineObjects(base: map<string, map<string, Object>>, bucket: string): map<string, Object> {
    ClientObjects(IDENTITY, if bucket in base then base[bucket] else map[], bucket)
  }

  /** The merged view of one bucket. */
  function ViewOf(m: Mapping, stored: map<string, Object>, base: map<string, map<string, Object>>, bucket: string)
    : map<string, Object>
  {
    BaselineObjects(base, bucket) + ClientObjects(m, stored, bucket)
  }

  /** The client keys that a physical state holds objects for. */
  function Addresses(m: Mapping, stored: map<string, Object>, base: map<string, map<string, Object>>)
    : (s: set<(string, string)>)
    requires m.bucket != ""
    ensures forall b, k :: (b, k) in s <==> IsBucketName(b) && k != "" && k in ViewOf(m, stored, base, b)
  {
    var low := set b, k | b in base && k in base[b] && IsBucketName(b) && k != "" :: (b, k);
    var high := set p | p in stored && UnmapKey(m, p).Some? && UnmapKey(m, p).value.1 != "" :: UnmapKey(m, p).value;
    assert forall b, k :: (b, k) in low <==> IsBucketName(b) && k != "" && k in BaselineObjects(base, b) by {
      forall b, k ensures (b, k) in low <==> IsBucketName(b) && k != "" && k in BaselineObjects(base, b) {
        assert "" + k == k;
      }
    }
    assert forall b, k :: (b, k) in high <==> IsBucketName(b) && k != "" && k in ClientObjects(m, stored, b) by {
      forall b, k ensures (b, k) in high <==> IsBucketName(b) && k != "" && k in ClientObjects(m, stored, b) {
        StoredAddress(m, stored, b, k);
      }
    }
    low + high
  }

  lemma StoredAddress(m: Mapping, stored: map<string, Object>, b: string, k: string)
    requires m.bucket != ""
    ensures (exists p :: p in stored && UnmapKey(m, p) == Some((b, k)) && k != "")
            <==> IsBucketName(b) && k != "" && ListPrefix(m, b) + k in stored
  {
    if exists p :: p in stored && UnmapKey(m, p) == Some((b, k)) && k != "" {
      var p :| p in stored && UnmapKey(m, p) == Some((b, k)) && k != "";
      UnmapKeyShape(m, p);
      UnmapInverts(m, b, p, k);
    }
    if IsBucketName(b) && k != "" && ListPrefix(m, b) + k in stored {
      UnmapInverts(m, b, ListPrefix(m, b) + k, k);
      assert UnmapKey(m, ListPrefix(m, b) + k) == Some((b, k));
    }
  }

  /** The single map a state represents. */
  function Abstraction(m: Mapping, stored: map<string, Object>, base: map<string, map<string, Object>>): (a: Merged)
    requires m.bucket != ""
    ensures forall b, k :: (b, k) in a <==> IsBucketName(b) && k != "" && k in ViewOf(m, stored, base, b)
    ensures forall b, k :: (b, k) in a ==> a[(b, k)] == ViewOf(m, stored, base, b)[k]
  {
    map a | a in Addresses(m, stored, base) :: ViewOf(m, stored, base, a.0)[a.1]
  }

  /** The physical writes of the gateway: objects, and the markers of created buckets. */
  datatype Write = PutObject(bucket: string, key: string, o: Object) | PutMarker(bucket: string, o: Object)

  predicate IsWrite(w: Write) {
    IsBucketName(w.bucket) && (w.PutObject? ==> w.key != "")
  }

  function Store(m: Mapping, stored: map<string, Object>, w: Write): map<string, Object> {
    match w
    case PutObject(bucket, key, o) => stored[MapKey(m, bucket, key).1 := o]
    case PutMarker(bucket, o) => stored[ListPrefix(m, bucket) := o]
  }

  function StoreAll(m: Mapping, stored: map<string, Object>, ws: seq<Write>): map<string, Object> {
    if ws == [] then stored else Store(m, StoreAll(m, stored, ws[..|ws| - 1]), ws[|ws| - 1])
  }

  function Apply(a: Merged, w: Write): Merged {
    match w
    case PutObject(bucket, key, o) => a[(bucket, key) := o]
    case PutMarker(_, _) => a
  }

  function ApplyAll(a: Merged, ws: seq<Write>): Merged {
    if ws == [] then a else Apply(ApplyAll(a, ws[..|ws| - 1]), ws[|ws| - 1])
  }

  lemma WriteView(m: Mapping, stored: map<string, Object>, base: map<string, map<string, Object>>, w: Write, b: string)
    requires m.bucket != "" && IsWrite(w) && IsBucketName(b)
    ensures ViewOf(m, Store(m, stored, w), base, b)
         == if w.PutObject? && b == w.bucket then ViewOf(m, stored, base, b)[w.key := w.o]
             else ViewOf(m, stored, base, b)
  {
    hide ClientObjects, MapKey, ListPrefix;
    var low, high := BaselineObjects(base, b), ClientObjects(m, stored, b);
    match w
    case PutObject(bucket, key, o) =>
      WriteIsLocal(m, stored, bucket, key, o, b);
      assert low + high[key := o] == (low + high)[key := o];
    case PutMarker(bucket, o) =>
      MarkerWriteIsHidden(m, stored, bucket, o, b);
  }

  /** One physical write is one update of the single map, or none. */
  lemma WriteRefines(m: Mapping, stored: map<string, Object>, base: map<string, map<string, Object>>, w: Write)
    requires m.bucket != "" && IsWrite(w)
    ensures Abstraction(m, Store(m, stored, w), base) == Apply(Abstraction(m, stored, base), w)
  {
    hide ViewOf, Addresses, Abstraction, Store;
    var a, c := Abstraction(m, stored, base), Abstraction(m, Store(m, stored, w), base);
    forall p: (string, string)
      ensures p in c <==> p in Apply(a, w)
      ensures p in c ==> c[p] == Apply(a, w)[p]
    {
      var (b, k) := p;
      assert p == (b, k);
      if IsBucketName(b) {
        WriteView(m, stored, base, w, b);
      }
    }
    assert c.Keys == Apply(a, w).Keys;
  }

  /**
   The gateway refines one map: after any sequence of writes the physical state, whatever else
   it holds, represents the single map after the same sequence of updates.
   */
  lemma {:induction false} GatewayRefinesOneMap(m: Mapping, stored: map<string, Object>,
                                                base: map<string, map<string, Object>>, ws: seq<Write>)
    requires m.bucket != "" && forall i :: 0 <= i < |ws| ==> IsWrite(ws[i])
    ensures Abstraction(m, StoreAll(m, stored, ws), base) == ApplyAll(Abstraction(m, stored, base), ws)
  {
    if ws != [] {
      var front := ws[..|ws| - 1];
      GatewayRefinesOneMap(m, stored, base, front);
      WriteRefines(m, StoreAll(m, stored, front), base, ws[|ws| - 1]);
    }
  }

  // ---------------------------------------------------------------- runs of the server

  datatype Operation =
    | Get(bucket: string, key: string, range: string)
    | Head(bucket: string, key: string)
    | Put(bucket: string, key: string, ifNoneMatch: string, ifMatch: string, contentType: string,
          body: Result<string, ReadError>)
    | Copy(bucket: string, key: string, source: string)
    | Create(bucket: string)

  /** What routing guarantees of an operation. */
  predicate IsOperation(op: Operation) {
    IsBucketName(op.bucket) && (op.Create? || op.key != "")
  }

  /** One bucket of the single map. */
  function Slice(a: Merged, bucket: string): map<string, Object> {
    map p | p in a && p.0 == bucket :: p.1 := a[p]
  }

  /** Nothing outside one bucket changes. */
  predicate Outside(a: Merged, bucket: string, after: Merged) {
    && (forall p :: p in a && p.0 != bucket ==> p in after && after[p] == a[p])
    && (forall p :: p in after && p.0 != bucket ==> p in a)
  }

  /** What one plain map does for an operation that it answers with r; any operation may fail and then does nothing. */
  ghost predicate MapStep(a: Merged, op: Operation, r: Response, modified: int, after: Merged) {
    match op
    case Get(bucket, key, range) => after == a && (r.BackendFailure? || r == GetOf(Slice(a, bucket), key, range))
    case Head(bucket, key) => after == a && (r.BackendFailure? || r == HeadOf(Slice(a, bucket), key))
    case Put(bucket, key, ifNoneMatch, ifMatch, contentType, body) =>
      && Outside(a, bucket, after)
      && PutAnswers(Slice(a, bucket), Slice(after, bucket), key, ifNoneMatch, ifMatch, contentType, body, r, modified)
    case Copy(bucket, key, source) =>
      && Outside(a, bucket, after)
      && (match CopySource(source)
          case None => after == a && r == INVALID_COPY_SOURCE
          case Some((srcBucket, srcKey)) =>
            CopyAnswers(Slice(a, srcBucket), srcKey, Slice(a, bucket), Slice(after, bucket), key, r, modified))
    case Create(_) => after == a && (r.BackendFailure? || r == Done)
  }

  /** The overlay is mapped into one bucket and the baseline is addressed one-to-one. */
  predicate Configured(s: Server)
    reads s.store.overlay.client`buckets, s.store.baseline.client`buckets
  {
    s.Valid() && s.store.baseline.mapping == IDENTITY
  }

  /** The single map that the server's two backends represent. */
  function Represented(s: Server): (a: Merged)
    requires Configured(s)
    reads s.store.overlay.client`buckets, s.store.baseline.client`buckets
    ensures forall b, k :: (b, k) in a <==> IsBucketName(b) && k in s.View(b)
    ensures forall b, k :: (b, k) in a ==> a[(b, k)] == s.View(b)[k]
  {
    var o := s.store.overlay;
    var stored := o.client.Contents(o.mapping.bucket);
    assert forall b :: s.View(b) == ViewOf(o.mapping, stored, s.store.baseline.client.buckets, b);
    Abstraction(o.mapping, o.client.Contents(o.mapping.bucket), s.store.baseline.client.buckets)
  }

  lemma SliceIsView(a: Merged, bucket: string, view: map<string, Object>)
    requires forall k :: (bucket, k) in a <==> k in view
    requires forall k :: (bucket, k) in a ==> a[(bucket, k)] == view[k]
    ensures Slice(a, bucket) == view
  {
    forall k | k in view ensures k in Slice(a, bucket) && Slice(a, bucket)[k] == view[k] {
      assert (bucket, k) in a && (bucket, k).0 == bucket;
    }
  }

  lemma ViewsAreSlices(s: Server)
    requires Configured(s)
    ensures WellFormed(Represented(s))
    ensures forall b :: IsBucketName(b) ==> Slice(Represented(s), b) == s.View(b)
  {
    hide Represented, Slice, Server.View;
    forall b | IsBucketName(b) ensures Slice(Represented(s), b) == s.View(b) {
      SliceIsView(Represented(s), b, s.View(b));
    }
    forall p | p in Represented(s) ensures IsBucketName(p.0) {
      var (b, k) := p;
      assert p == (b, k);
    }
  }

  predicate WellFormed(a: Merged) {
    forall p :: p in a ==> IsBucketName(p.0)
  }

  /** A map is determined by its buckets. */
  lemma SlicesDetermine(a: Merged, bucket: string, after: Merged)
    requires WellFormed(a) && WellFormed(after)
    requires forall b :: IsBucketName(b) && b != bucket ==> Slice(a, b) == Slice(after, b)
    ensures Outside(a, bucket, after)
    ensures Slice(a, bucket) == Slice(after, bucket) ==> after == a
  {
    forall p | p in a || p in after
      ensures p.0 != bucket || Slice(a, bucket) == Slice(after, bucket) ==>
                p in a && p in after && after[p] == a[p]
    {
      assert IsBucketName(p.0);
      assert p in a <==> p.1 in Slice(a, p.0) by { SliceAt(a, p); }
      SliceAt(a, p);
      SliceAt(after, p);
    }
  }

  lemma SliceAt(a: Merged, p: (string, string))
    ensures p in a <==> p.1 in Slice(a, p.0)
    ensures p in a ==> Slice(a, p.0)[p.1] == a[p]
  {
    if p.1 in Slice(a, p.0) {
      var q :| q in a && q.0 == p.0 && q.1 == p.1;
      assert q == p;
    }
  }

  /** Every operation is one step of the single map. */
  method Serve(s: Server, op: Operation, now: int) returns (r: Response, ghost modified: int)
    requires Configured(s) && IsOperation(op)
    modifies s.store.overlay.client`buckets
    ensures Configured(s)
    ensures MapStep(old(Represented(s)), op, r, modified, Represented(s))
    ensures s.Reliable() && (op.Put? ==> IsStorable(op.body)) ==> !r.BackendFailure?
    ensures s.store.baseline.client.buckets == old(s.store.baseline.client.buckets)
    ensures forall b :: IsBucketName(b) && (b != op.bucket || !r.Written?) ==>
              s.store.overlay.Objects(b) == old(s.store.overlay.Objects(b))
    ensures s.store.overlay.Objects(op.bucket).Keys >= old(s.store.overlay.Objects(op.bucket).Keys)
  {
    hide Represented, Slice, Server.View, Outside, WellFormed, CopySource, PutAnswers, CopyAnswers, Server.Valid;
    hide S3Store.Store.Objects;
    ViewsAreSlices(s);
    ghost var a := Represented(s);
    modified := 0;
    match op
    case Get(bucket, key, range) => r := s.GetObject(bucket, key, range);
    case Head(bucket, key) => r := s.HeadObject(bucket, key);
    case Put(bucket, key, ifNoneMatch, ifMatch, contentType, body) =>
      r, modified := s.PutObject(bucket, key, ifNoneMatch, ifMatch, contentType, body, now);
      ViewsAreSlices(s);
      SlicesDetermine(a, bucket, Represented(s));
    case Copy(bucket, key, source) =>
      r, modified := s.CopyObject(bucket, key, source, now);
      ViewsAreSlices(s);
      SlicesDetermine(a, bucket, Represented(s));
    case Create(bucket) =>
      r := s.CreateBucket(bucket);
      ViewsAreSlices(s);
      SlicesDetermine(a, bucket, Represented(s));
  }

  /** A run of the single map: its states, and what it answered to each operation. */
  datatype MapRun = MapRun(states: seq<Merged>, answers: seq<Response>, times: seq<int>)

  ghost predicate IsMapRun(ops: seq<Operation>, run: MapRun) {
    && |run.states| == |ops| + 1 && |run.answers| == |run.times| == |ops|
    && forall i :: 0 <= i < |ops| ==> MapStep(run.states[i], ops[i], run.answers[i], run.times[i], run.states[i + 1])
  }

  lemma MapRunGrows(ops: seq<Operation>, op: Operation, run: MapRun, r: Response, modified: int, a: Merged)
    requires IsMapRun(ops, run) && MapStep(run.states[|ops|], op, r, modified, a)
    ensures IsMapRun(ops + [op], MapRun(run.states + [a], run.answers + [r], run.times + [modified]))
  {
    hide MapStep;
  }

  /**
   The gateway refines one map: whatever operations are served one after another, the answers
   and the states represented are a run of the single map. Operations fail only if a backend
   does, or if a body cannot be stored.
   */
  method ServeAll(s: Server, ops: seq<Operation>, nows: seq<int>) returns (answers: seq<Response>, ghost run: MapRun)
    requires Configured(s) && |nows| == |ops| && forall op :: op in ops ==> IsOperation(op)
    modifies s.store.overlay.client`buckets
    ensures Configured(s)
    ensures IsMapRun(ops, run) && run.answers == answers
    ensures s.Reliable() ==>
              forall i :: 0 <= i < |ops| && (ops[i].Put? ==> IsStorable(ops[i].body)) ==> !answers[i].BackendFailure?
    ensures run.states[0] == old(Represented(s)) && run.states[|ops|] == Represented(s)
  {
    hide Represented, MapStep, Configured, S3Store.Store.Objects;
    answers := [];
    run := MapRun([Represented(s)], [], []);
    for i := 0 to |ops|
      invariant Configured(s)
      invariant IsMapRun(ops[..i], run) && run.answers == answers
      invariant s.Reliable() ==>
                  forall j :: 0 <= j < i && (ops[j].Put? ==> IsStorable(ops[j].body)) ==> !answers[j].BackendFailure?
      invariant run.states[0] == old(Represented(s)) && run.states[i] == Represented(s)
    {
      var r, modified := Serve(s, ops[i], nows[i]);
      MapRunGrows(ops[..i], ops[i], run, r, modified, Represented(s));
      assert ops[..i + 1] == ops[..i] + [ops[i]];
      answers := answers + [r];
      run := MapRun(run.states + [Represented(s)], run.answers + [r], run.times + [modified]);
    }
    assert ops[..|ops|] == ops;
  }

  /**
   A PUT with the wildcard in If-None-Match, over every step of the single map: it writes only
   where nothing was, and with no other precondition it is refused only where something was.
   */
  lemma WildcardPutCreates(a: Merged, op: Operation, r: Response, modified: int, after: Merged)
    requires MapStep(a, op, r, modified, after) && op.Put? && op.ifNoneMatch == "*"
    ensures r.Written? ==> (op.bucket, op.key) !in a
    ensures r == ErrorResponse(412, "PreconditionFailed") && op.ifMatch == "" ==> (op.bucket, op.key) in a
    ensures forall p :: p in a ==> p in after && after[p] == a[p]
  {
    SliceAt(a, (op.bucket, op.key));
    assert '"' !in "";
    PutAnswersAre(Slice(a, op.bucket), Slice(after, op.bucket), op.key, op.ifNoneMatch, op.ifMatch,
                  op.contentType, op.body, r, modified, "");
    hide PutAnswers, Slice;
    forall p | p in a ensures p in after && after[p] == a[p] {
      SliceAt(a, p);
      SliceAt(after, p);
    }
  }

  /** So over every run such a PUT never replaces an object. */
  lemma WildcardPutNeverReplaces(ops: seq<Operation>, run: MapRun, i: nat)
    requires IsMapRun(ops, run) && i < |ops| && ops[i].Put? && ops[i].ifNoneMatch == "*"
    ensures forall p :: p in run.states[i] ==> p in run.states[i + 1] && run.states[i + 1][p] == run.states[i][p]
  {
    WildcardPutCreates(run.states[i], ops[i], run.answers[i], run.times[i], run.states[i + 1]);
  }

  /** A copy writes what the named object holds, and is refused only if there is none or none is named. */
  lemma CopyWritesSource(a: Merged, op: Operation, r: Response, modified: int, after: Merged,
                         srcBucket: string, srcKey: string)
    requires MapStep(a, op, r, modified, after) && op.Copy? && CopyNames(op.source, srcBucket, srcKey)
    ensures r.Written? ==>
              && (srcBucket, srcKey) in a && (op.bucket, op.key) in after
              && var from, to := a[(srcBucket, srcKey)], after[(op.bucket, op.key)];
                 && to.data == from.data && to.etag == r.etag
                 && to.contentType == (if from.contentType == "" then "binary/octet-stream" else from.contentType)
    ensures r == ErrorResponse(404, "NoSuchKey") ==> (srcBucket, srcKey) !in a
    ensures r.Written? || r.BackendFailure? || r == ErrorResponse(404, "NoSuchKey")
  {
    hide *;
    CopySourceExactlyIf(op.source, srcBucket, srcKey);
    CopyStep(a, op, r, modified, after, srcBucket, srcKey);
    SliceAt(a, (srcBucket, srcKey));
    SliceAt(after, (op.bucket, op.key));
    CopyAnswersAre(Slice(a, srcBucket), srcKey, Slice(a, op.bucket), Slice(after, op.bucket), op.key, r, modified);
  }

  lemma CopyStep(a: Merged, op: Operation, r: Response, modified: int, after: Merged, srcBucket: string, srcKey: string)
    requires MapStep(a, op, r, modified, after) && op.Copy? && CopySource(op.source) == Some((srcBucket, srcKey))
    ensures CopyAnswers(Slice(a, srcBucket), srcKey, Slice(a, op.bucket), Slice(after, op.bucket), op.key, r, modified)
  {
    hide CopySource, CopyAnswers, Slice;
  }

  /** A copy from nothing is refused as such. */
  lemma CopyFromNothing(a: Merged, op: Operation, r: Response, modified: int, after: Merged)
    requires MapStep(a, op, r, modified, after) && op.Copy?
    requires forall bucket, key :: !CopyNames(op.source, bucket, key)
    ensures after == a && r == ErrorResponse(400, "InvalidArgument")
  {
    CopySourceIsNoneExactlyIf(op.source);
    hide CopySource, CopyNames, Slice;
  }

  /** Whether an operation that was answered with r wrote this key. */
  predicate WroteKey(op: Operation, r: Response, bucket: string, key: string) {
    (op.Put? || op.Copy?) && r.Written? && op.bucket == bucket && op.key == key
  }

  /** What a step leaves at a key: what was there, unless it wrote the key. */
  lemma StepLeaves(a: Merged, op: Operation, r: Response, modified: int, after: Merged, bucket: string, key: string)
    requires MapStep(a, op, r, modified, after)
    ensures key in Slice(a, bucket) ==> key in Slice(after, bucket)
    ensures !WroteKey(op, r, bucket, key) ==> (key in Slice(after, bucket) <==> key in Slice(a, bucket))
    ensures !WroteKey(op, r, bucket, key) && key in Slice(a, bucket) ==>
              Slice(after, bucket)[key] == Slice(a, bucket)[key]
  {
    SliceAt(a, (bucket, key));
    SliceAt(after, (bucket, key));
    hide Slice;
  }

  /**
   Over every run, nothing but a successful write of a key changes what the key holds, and no
   object ever disappears: what an operation left at a key is what any later one finds there,
   until the key is written again.
   */
  lemma {:induction false} OnlyWritesChangeKeys(ops: seq<Operation>, run: MapRun, i: nat, j: nat, bucket: string,
                                                key: string)
    requires IsMapRun(ops, run) && i <= j <= |ops|
    ensures key in Slice(run.states[i], bucket) ==> key in Slice(run.states[j], bucket)
    ensures (forall k :: i <= k < j ==> !WroteKey(ops[k], run.answers[k], bucket, key)) ==>
              && (key in Slice(run.states[j], bucket) <==> key in Slice(run.states[i], bucket))
              && (key in Slice(run.states[i], bucket) ==>
                    Slice(run.states[j], bucket)[key] == Slice(run.states[i], bucket)[key])
  {
    if i < j {
      OnlyWritesChangeKeys(ops, run, i, j - 1, bucket, key);
      StepLeaves(run.states[j - 1], ops[j - 1], run.answers[j - 1], run.times[j - 1], run.states[j], bucket, key);
      hide MapStep, Slice, WroteKey;
    }
  }

  lemma PutLeaves(a: Merged, op: Operation, r: Response, modified: int, after: Merged)
    requires MapStep(a, op, r, modified, after) && op.Put? && r.Written?
    ensures op.body.Success? && op.key in Slice(after, op.bucket)
    ensures Slice(after, op.bucket)[op.key]
            == Object(op.body.value, r.etag, modified, ContentTypeOrDefault(op.contentType))
  {
    hide Slice, Outside, MayPut, ContentTypeOrDefault;
  }

  /**
   Reads see the last write: a GET after a successful PUT of the same key, with no successful
   write of the key in between, answers with the bytes and the content type that were put.
   */
  lemma ReadsSeeLastWrite(ops: seq<Operation>, run: MapRun, i: nat, j: nat)
    requires IsMapRun(ops, run) && i < j < |ops|
    requires ops[i].Put? && run.answers[i].Written?
    requires ops[j].Get? && ops[j].bucket == ops[i].bucket && ops[j].key == ops[i].key
             && !run.answers[j].BackendFailure?
    requires forall k :: i < k < j ==> !WroteKey(ops[k], run.answers[k], ops[i].bucket, ops[i].key)
    ensures ops[i].body.Success?
    ensures var o := Object(ops[i].body.value, run.answers[i].etag, run.times[i],
                            ContentTypeOrDefault(ops[i].contentType));
            run.answers[j] == GetOf(map[ops[i].key := o], ops[i].key, ops[j].range)
  {
    PutLeaves(run.states[i], ops[i], run.answers[i], run.times[i], run.states[i + 1]);
    OnlyWritesChangeKeys(ops, run, i + 1, j, ops[i].bucket, ops[i].key);
    assert MapStep(run.states[j], ops[j], run.answers[j], run.times[j], run.states[j + 1]);
    hide Slice, ParseByteRange, ContentRange, Headers, ContentTypeOrDefault, WroteKey;
  }
}
