/**
 Uploads from the wire to the map: the body readers in front of the write handler, and reads of
 what was written.
 */
module Uploads {
  import opened Results
  import opened BodyErrors
  import opened Numbers
  import opened KeyMapping
  import opened Ranges
  import opened Chunked
  import S3Store
  import opened Gateway

  /** A framed body as a sequence of bytes that arrived, of a whole one that was sent. */
  datatype Sent = Sent(cs: seq<Chunk>, final: Chunk, trailer: string, cut: nat)

  predicate IsSent(sent: Sent) {
    && (forall i :: 0 <= i < |sent.cs| ==> IsChunk(sent.cs[i]))
    && IsHeader(sent.final.size, sent.final.extension, 0)
    && sent.cut <= |Encode(sent.cs, sent.final, sent.trailer)|
  }

  function Arrived(sent: Sent): string
    requires IsSent(sent)
  {
    Encode(sent.cs, sent.final, sent.trailer)[..sent.cut]
  }

  /** Whether the body that arrived ends regularly for every reader. */
  predicate IsUnnoticed(sent: Sent, end: ReadError)
    requires IsSent(sent)
  {
    BodyEnd(sent.cs, sent.final) <= sent.cut || (end == EOF && !CutsAtChunkEnd(sent.cs, sent.cut))
  }

  /**
   A PUT of a framed body, and a GET of what it wrote. Whatever part of the body arrived, the
   object holds a beginning of the payload, and all of it if and only if no payload byte was cut
   off; the GET returns exactly that. A body cut short is stored whenever its source ends regularly.
   */
  method UploadAndGet(s: Server, bucket: string, key: string, contentType: string,
                      br: ByteSource, ghost sent: Sent, now: int)
      returns (put: Response, got: Response)
    requires s.Valid() && IsBucketName(bucket) && key != ""
    requires IsSent(sent) && br.input == Arrived(sent)
    modifies br, s.store.overlay.client`buckets
    ensures s.Valid()
    ensures !put.Written? ==> s.View(bucket) == old(s.View(bucket))
    ensures put.Written? && got.ObjectBody? ==>
              && got.body <= Payload(sent.cs)
              && (got.body == Payload(sent.cs) <==> DataEnd(sent.cs) <= sent.cut)
    ensures put.Written? ==> got.BackendFailure? || (got.ObjectBody? && got.status == 200)
    ensures put.Written? ==> br.end == EOF || BodyEnd(sent.cs, sent.final) <= sent.cut
    ensures s.Reliable() && |Payload(sent.cs)| <= MAX_INT64 && IsUnnoticed(sent, br.end) ==>
              put.Written? && got.ObjectBody?
  {
    hide Server.Valid, Server.View, Decode, CutsAtChunkEnd, BodyEnd, Payload, DataEnd, ParseByteRange, Headers;
    hide S3Store.Store.Objects;
    TruncatedBodyYieldsPrefix(sent.cs, sent.final, sent.trailer, sent.cut, br.end);
    TruncationLosesDataExactlyIf(sent.cs, sent.final, sent.trailer, sent.cut, br.end);
    TruncationIsNoticedExactlyIf(sent.cs, sent.final, sent.trailer, sent.cut, br.end);
    var r := new AwsChunkedReader(br);
    var payload, end := ReadAll(r);
    var body: Result<string, ReadError> := if end == EOF then Success(payload) else Failure(end);
    ghost var modified;
    put, modified := s.PutObject(bucket, key, "", "", contentType, body, now);
    got := s.GetObject(bucket, key, "");
  }
}
