/**
 Streaming request bodies: the decoder of the aws-chunked framing and the reader that checks a
 payload hash, both fed by a source that returns as few bytes per read as it likes.
 */
module Chunked {
  import opened Results
  import opened Text
  import opened Numbers
  import opened BodyErrors

  // ---------------------------------------------------------------- the decoder as a function

  /** What a body decodes to, and the errors that may end it; EOF is its regular end. */
  datatype Decoded = Decoded(data: string, ends: set<ReadError>)

  function Prepend(data: string, d: Decoded): Decoded {
    d.(data := data + d.data)
  }

  function TrimCR(line: string): string {
    if line != "" && line[|line| - 1] == '\r' then line[..|line| - 1] else line
  }

  /** The size that a header line announces: hexadecimal, up to the first semicolon. */
  function ChunkSize(line: string): Option<int> {
    var header := TrimCR(line);
    ParseInt(match Find(header, ";") case None => header case Some(i) => header[..i], 16)
  }

  /** The input ends in what its source reports then: EOF, or what broke the connection. */
  function Decode(s: string, end: ReadError): Decoded
    decreases |s|, 1
  {
    match Find(s, "\n")
    case None => Decoded("", {end})
    case Some(i) =>
      match ChunkSize(s[..i])
      case None => Decoded("", {InvalidChunkSize})
      case Some(size) =>
        if size == 0 then Decoded("", {EOF})
        else if size < 0 then Decoded("", {SliceOutOfRange})
        else DecodeChunk(s[i + 1..], size, end)
  }

  /** The rest of a body of which n more bytes belong to the current chunk. */
  function DecodeChunk(s: string, n: nat, end: ReadError): Decoded
    requires n > 0
    decreases |s|, 0
  {
    if |s| < n then Decoded(s, {end})
    else if |s| == n then Decoded(s, {end, EndOfChunk(end)})
    else if |s| == n + 1 then Decoded(s[..n], {end})
    else Prepend(s[..n], Decode(s[n + 2..], end))
  }

  /** What is reported when the input ends with the last byte of a chunk and the end comes along with it. */
  function EndOfChunk(end: ReadError): ReadError {
    if end == EOF then UnexpectedEOF else end
  }

  // ---------------------------------------------------------------- the decoder as a reader

  /** The buffered request body. */
  class ByteSource {
    var input: string
    /** How often the source will still return neither a byte nor an error. */
    var stalls: nat
    /** What it reports when it has nothing left. */
    const end: ReadError

    constructor (input: string, stalls: nat, end: ReadError)
      ensures this.input == input && this.stalls == stalls && this.end == end
    {
      this.end := end;
      this.input := input;
      this.stalls := stalls;
    }

    function Fuel(): nat
      reads this
    {
      |input| + stalls
    }

    /** A line with its terminator taken off, or everything that is left if there is none. */
    method ReadLine() returns (line: string, found: bool)
      modifies this`input
      ensures match Find(old(input), "\n")
              case None => !found && line == old(input) && input == ""
              case Some(i) => found && line == old(input)[..i] && input == old(input)[i + 1..]
    {
      match Find(input, "\n")
      case None =>
        line, found := input, false;
        input := "";
      case Some(i) =>
        line, found := input[..i], true;
        input := input[i + 1..];
    }

    /** Some of the wanted bytes; the end of the input may be reported with the last of them. */
    method Read(want: nat) returns (data: string, err: Option<ReadError>)
      modifies this
      ensures |data| <= want && old(input) == data + input
      ensures err.Some? ==> input == "" && err.value == end
      ensures Fuel() <= old(Fuel())
      ensures want > 0 && err.None? ==> Fuel() < old(Fuel())
    {
      var n: int := *;
      var early: bool := *;
      var most := if want <= |input| then want else |input|;
      if n <= 0 && want > 0 && stalls > 0 {
        stalls := stalls - 1;
        return "", None;
      }
      if n <= 0 || n > most {
        n := most;
      }
      data := input[..n];
      assert input == data + input[n..];
      input := input[n..];
      err := if input == "" && (early || n == 0) then Some(end) else None;
    }

    method Discard(n: nat) returns (ok: bool)
      modifies this`input
      ensures ok == (n <= |old(input)|)
      ensures input == if ok then old(input)[n..] else ""
    {
      ok := n <= |input|;
      input := if ok then input[n..] else "";
    }
  }

  /** What is still to come from a reader in the middle of a body. */
  function Pending(input: string, end: ReadError, remaining: int, done: bool): Decoded {
    if done then Decoded("", {EOF})
    else if remaining == 0 then Decode(input, end)
    else if remaining < 0 then Decoded("", {SliceOutOfRange})
    else DecodeChunk(input, remaining, end)
  }

  class AwsChunkedReader {
    const br: ByteSource
    var remaining: int
    var done: bool

    constructor (br: ByteSource)
      ensures this.br == br && Rest() == Decode(br.input, br.end)
    {
      this.br := br;
      remaining := 0;
      done := false;
    }

    function Rest(): Decoded
      reads this, br
    {
      Pending(br.input, br.end, remaining, done)
    }

    /**
     Reads up to `size` bytes of payload. What is returned is exactly what is taken off the
     rest; an error comes only when nothing is left, and only one the body calls for.
     */
    method Read(size: nat) returns (data: string, err: Option<ReadError>)
      modifies this, br
      ensures |data| <= size
      ensures err.None? ==> old(Rest()) == Prepend(data, Rest())
      ensures err.Some? ==> old(Rest()).data == data && err.value in old(Rest()).ends
      ensures br.Fuel() <= old(br.Fuel())
      ensures err.None? && size > 0 ==> br.Fuel() < old(br.Fuel())
    {
      while !done && remaining == 0
        invariant Rest() == old(Rest())
        invariant br.Fuel() <= old(br.Fuel())
        decreases |br.input|
      {
        var line, found := br.ReadLine();
        if !found {
          return "", Some(br.end);
        }
        match ChunkSize(line)
        case None => return "", Some(InvalidChunkSize);
        case Some(n) =>
          if n == 0 {
            done := true;
            return "", Some(EOF);
          }
          remaining := n;
      }
      if done {
        return "", Some(EOF);
      }
      var want := if remaining < size then remaining else size;
      if want < 0 {
        return "", Some(SliceOutOfRange);
      }
      data, err := ReadChunk(want);
    }

    /** Reads inside a chunk, and past the line end behind it once the chunk is read. */
    method ReadChunk(want: nat) returns (data: string, err: Option<ReadError>)
      requires !done && 0 < remaining && want <= remaining
      modifies this, br
      ensures |data| <= want
      ensures err.None? ==> old(Rest()) == Prepend(data, Rest())
      ensures err.Some? ==> old(Rest()).data == data && err.value in old(Rest()).ends
      ensures br.Fuel() <= old(br.Fuel())
      ensures err.None? && want > 0 ==> br.Fuel() < old(br.Fuel())
    {
      hide Decode;
      data, err := br.Read(want);
      if |data| < remaining {
        ChunkPart(data, br.input, remaining, br.end);
      } else {
        ChunkEnd(data, br.input, br.end);
      }
      remaining := remaining - |data|;
      if err.Some? {
        if err.value == EOF && remaining == 0 {
          return data, Some(UnexpectedEOF);
        }
        return data, err;
      }
      if remaining == 0 {
        var ok := br.Discard(2);
        if !ok {
          return data, Some(br.end);
        }
      }
    }
  }

  /** Decoding inside a chunk after some of its bytes were taken off. */
  lemma {:induction false} ChunkPart(data: string, rest: string, n: nat, end: ReadError)
    requires |data| < n
    ensures DecodeChunk(data + rest, n, end) == Prepend(data, DecodeChunk(rest, n - |data|, end))
  {
    var k := n - |data|;
    if |rest| >= k {
      TakeBehind(data, rest, k);
      if |rest| >= k + 2 {
        TakeBehind(data, rest, k + 2);
        hide Decode;
        TakeBehind(data, rest[..k] + Decode(rest[k + 2..], end).data, k);
      } else if |rest| == k {
        TakeBehind(data, rest, k);
      }
    }
  }

  /** Slices of a concatenation whose cut lies in its second part. */
  lemma TakeBehind(a: string, b: string, k: nat)
    requires k <= |b|
    ensures (a + b)[..|a| + k] == a + b[..k] && (a + b)[|a| + k..] == b[k..]
    ensures k == |b| ==> b[..k] == b
    ensures a + b == (a + b[..k]) + b[k..]
  {
  }

  /** Decoding at the end of a chunk, where a line end should follow. */
  lemma {:induction false} ChunkEnd(data: string, rest: string, end: ReadError)
    requires data != ""
    ensures rest == "" ==> DecodeChunk(data + rest, |data|, end) == Decoded(data, {end, EndOfChunk(end)})
    ensures |rest| == 1 ==> DecodeChunk(data + rest, |data|, end) == Decoded(data, {end})
    ensures |rest| > 1 ==> DecodeChunk(data + rest, |data|, end) == Prepend(data, Decode(rest[2..], end))
  {
    var s := data + rest;
    assert s[..|data|] == data;
    assert |rest| > 1 ==> s[|data| + 2..] == rest[2..];
  }

  /**
   io.ReadAll on the decoder, with any buffer sizes: the payload is what the body decodes to,
   whatever the sizes of the reads on either side.
   */
  method ReadAll(r: AwsChunkedReader) returns (payload: string, end: ReadError)
    modifies r, r.br
    ensures payload == old(r.Rest()).data && end in old(r.Rest()).ends
  {
    payload := "";
    while true
      invariant old(r.Rest()) == Prepend(payload, r.Rest())
      decreases r.br.Fuel()
    {
      var size: int := *;
      if size <= 0 {
        size := 512;
      }
      var data, err := r.Read(size);
      payload := payload + data;
      if err.Some? {
        return payload, err.value;
      }
    }
  }

  // ---------------------------------------------------------------- framed bodies

  /** One chunk: the size as written, an extension that is empty or starts with a semicolon, the data. */
  datatype Chunk = Chunk(size: string, extension: string, data: string)

  predicate IsHeader(size: string, extension: string, n: int) {
    && ParseInt(size, 16) == Some(n)
    && '\n' !in extension
    && (extension != "" ==> extension[0] == ';')
  }

  /** The size that a chunk announces; zero if it announces none. */
  function Size(c: Chunk): int {
    match ParseInt(c.size, 16)
    case None => 0
    case Some(n) => n
  }

  /** A chunk whose data is as long as announced, where that is possible: a size may be negative. */
  predicate IsFramed(c: Chunk) {
    && IsHeader(c.size, c.extension, Size(c)) && Size(c) != 0
    && (Size(c) > 0 ==> |c.data| == Size(c))
  }

  predicate IsChunk(c: Chunk) {
    IsFramed(c) && Size(c) > 0
  }

  const CRLF := "\r\n"

  function HeaderLine(size: string, extension: string): string {
    size + extension + CRLF
  }

  /** A body: the chunks, the header of the final empty chunk, and anything behind it. */
  function Encode(cs: seq<Chunk>, final: Chunk, trailer: string): string {
    if cs == [] then HeaderLine(final.size, final.extension) + trailer
    else HeaderLine(cs[0].size, cs[0].extension) + (cs[0].data + (CRLF + Encode(cs[1..], final, trailer)))
  }

  function Payload(cs: seq<Chunk>): string {
    if cs == [] then "" else cs[0].data + Payload(cs[1..])
  }

  /** Clients that print sizes in hexadecimal produce valid headers. */
  lemma {:induction false} PrintedSizeIsHeader(n: nat, extension: string)
    requires n <= MAX_INT64 && '\n' !in extension && (extension != "" ==> extension[0] == ';')
    ensures IsHeader(Format(n, 16), extension, n)
  {
    ParseIntFormat(n, 16);
  }

  lemma {:induction false} DecodeHeader(size: string, extension: string, n: int, rest: string, end: ReadError)
    requires IsHeader(size, extension, n)
    ensures Decode(HeaderLine(size, extension) + rest, end)
         == if n == 0 then Decoded("", {EOF}) else if n < 0 then Decoded("", {SliceOutOfRange})
            else DecodeChunk(rest, n, end)
  {
    var line := size + extension + "\r";
    var s := HeaderLine(size, extension) + rest;
    SizeOfHeader(size, extension, n);
    assert s == line + "\n" + rest;
    FindChar(line, '\n', rest);
    assert s[..|line|] == line && s[|line| + 1..] == rest;
  }

  /** A header may end in a newline alone. */
  lemma {:induction false} BareNewlineIsAccepted(size: string, extension: string, n: int, rest: string, end: ReadError)
    requires IsHeader(size, extension, n) && (extension != "" ==> extension[|extension| - 1] != '\r')
    ensures Decode(size + extension + "\n" + rest, end) == Decode(HeaderLine(size, extension) + rest, end)
  {
    var line := size + extension;
    var s := line + "\n" + rest;
    SizeOfHeader(size, extension, n);
    assert TrimCR(line + "\r") == line;
    ParseIntCharacters(size, 16);
    assert Digit('\r').None?;
    if extension == "" {
      assert line == size;
      assert line[|line| - 1] in size;
    } else {
      assert line[|line| - 1] == extension[|extension| - 1];
    }
    assert TrimCR(line) == line;
    forall c | c in line ensures c in line + "\r" {
    }
    FindChar(line, '\n', rest);
    assert s[..|line|] == line && s[|line| + 1..] == rest;
    DecodeHeader(size, extension, n, rest, end);
  }

  /** A header whose size is no hexadecimal number of 64 bits is an error. */
  lemma {:induction false} InvalidSizeIsReported(size: string, extension: string, rest: string, end: ReadError)
    requires ParseInt(size, 16).None? && '\n' !in size && ';' !in size
    requires '\n' !in extension && (extension != "" ==> extension[0] == ';')
    ensures Decode(HeaderLine(size, extension) + rest, end) == Decoded("", {InvalidChunkSize})
  {
    var line, header := size + extension + "\r", size + extension;
    var s := HeaderLine(size, extension) + rest;
    assert TrimCR(line) == header;
    if extension == "" {
      FindCharNone(size, ';');
      assert header == size;
    } else {
      assert extension == ";" + extension[1..];
      assert header == size + ";" + extension[1..];
      FindChar(size, ';', extension[1..]);
      assert header[..|size|] == size;
    }
    assert s == line + "\n" + rest;
    FindChar(line, '\n', rest);
    assert s[..|line|] == line && s[|line| + 1..] == rest;
  }

  lemma SizeOfHeader(size: string, extension: string, n: int)
    requires IsHeader(size, extension, n)
    ensures '\n' !in size + extension + "\r" && ChunkSize(size + extension + "\r") == Some(n)
  {
    ParseIntCharacters(size, 16);
    assert Digit('\n').None? && Digit(';').None?;
    var header := size + extension;
    assert TrimCR(header + "\r") == header;
    if extension == "" {
      FindCharNone(size, ';');
      assert header == size;
    } else {
      assert extension == ";" + extension[1..];
      assert header == size + ";" + extension[1..];
      FindChar(size, ';', extension[1..]);
      assert header[..|size|] == size;
    }
  }

  /** How many chunks stand in front of the first one that announces a negative size. */
  function Sound(cs: seq<Chunk>): (k: nat)
    ensures k <= |cs| && (forall i :: 0 <= i < k ==> Size(cs[i]) >= 0) && (k < |cs| ==> Size(cs[k]) < 0)
  {
    if cs == [] || Size(cs[0]) < 0 then 0 else 1 + Sound(cs[1..])
  }

  /**
   Decoding inverts the framing as far as the sizes are sound: however a payload is cut into
   chunks, whatever extensions they carry, the body decodes to the payload in front of the first
   negative size. There the reader slices its buffer out of range, and otherwise it ends regularly.
   */
  lemma {:induction false} DecodeFramed(cs: seq<Chunk>, final: Chunk, trailer: string, end: ReadError)
    requires forall i :: 0 <= i < |cs| ==> IsFramed(cs[i])
    requires IsHeader(final.size, final.extension, 0)
    ensures var k := Sound(cs);
            Decode(Encode(cs, final, trailer), end)
                == Decoded(Payload(cs[..k]), {if k == |cs| then EOF else SliceOutOfRange})
  {
    hide Decode, DecodeChunk, IsHeader, HeaderLine;
    if cs == [] {
      DecodeHeader(final.size, final.extension, 0, trailer, end);
    } else {
      var c, tail := cs[0], Encode(cs[1..], final, trailer);
      assert IsFramed(c);
      DecodeFramed(cs[1..], final, trailer, end);
      DecodeHeader(c.size, c.extension, Size(c), c.data + (CRLF + tail), end);
      if Size(c) > 0 {
        ChunkEnd(c.data, CRLF + tail, end);
        assert (CRLF + tail)[2..] == tail;
        PayloadStep(cs, 1 + Sound(cs[1..]));
      } else {
        assert Payload(cs[..0]) == "";
      }
    }
  }

  lemma PayloadStep(cs: seq<Chunk>, k: nat)
    requires 0 < k <= |cs|
    ensures Payload(cs[..k]) == cs[0].data + Payload(cs[1..][..k - 1])
  {
    assert cs[..k][0] == cs[0] && cs[..k][1..] == cs[1..][..k - 1];
  }

  /** Exactly when a body makes the reader slice its buffer out of range: when it announces a negative size. */
  lemma {:induction false} SliceOutOfRangeExactlyIf(cs: seq<Chunk>, final: Chunk, trailer: string, end: ReadError)
    requires forall i :: 0 <= i < |cs| ==> IsFramed(cs[i])
    requires IsHeader(final.size, final.extension, 0)
    ensures SliceOutOfRange in Decode(Encode(cs, final, trailer), end).ends
            <==> exists i :: 0 <= i < |cs| && Size(cs[i]) < 0
  {
    DecodeFramed(cs, final, trailer, end);
  }

  /** The shortest such body. */
  lemma {:induction false} NegativeSizeIsAccepted(end: ReadError)
    ensures Decode("-1\n", end) == Decoded("", {SliceOutOfRange})
  {
    var s := "-1\n";
    FindChar("-1", '\n', "");
    assert s == "-1" + ['\n'] + "" && s[..2] == "-1";
    FindCharNone("-1", ';');
    assert DigitsValue("1"[..0], 16) == Some(0) && DigitsValue("1", 16) == Some(1);
    assert "-1"[1..] == "1" && ParseInt("-1", 16) == Some(-1);
  }

  /** In particular a body of positive sizes decodes to its payload and ends regularly. */
  lemma {:induction false} DecodeEncode(cs: seq<Chunk>, final: Chunk, trailer: string, end: ReadError)
    requires forall i :: 0 <= i < |cs| ==> IsChunk(cs[i])
    requires IsHeader(final.size, final.extension, 0)
    ensures Decode(Encode(cs, final, trailer), end) == Decoded(Payload(cs), {EOF})
  {
    DecodeFramed(cs, final, trailer, end);
    assert cs[..|cs|] == cs;
  }

  // ---------------------------------------------------------------- truncated bodies

  /** A body cut off anywhere decodes to a beginning of what the whole body decodes to. */
  lemma {:induction false} DecodeTruncated(t: string, s: string, end: ReadError)
    requires t <= s
    ensures Decode(t, end).data <= Decode(s, end).data
    decreases |t|, 1
  {
    if Find(t, "\n").Some? {
      var i := Find(t, "\n").value;
      FindCharSplits(t, '\n');
      assert s == t[..i] + "\n" + s[i + 1..];
      FindChar(t[..i], '\n', s[i + 1..]);
      assert s[..i] == t[..i];
      if ChunkSize(t[..i]).Some? && ChunkSize(t[..i]).value > 0 {
        DecodeChunkTruncated(t[i + 1..], s[i + 1..], ChunkSize(t[..i]).value, end);
      }
    }
  }

  lemma {:induction false} DecodeChunkTruncated(t: string, s: string, n: nat, end: ReadError)
    requires t <= s && n > 0
    ensures DecodeChunk(t, n, end).data <= DecodeChunk(s, n, end).data
    decreases |t|, 0
  {
    if |t| >= n {
      assert t[..n] == s[..n];
    }
    if |t| >= n + 2 {
      DecodeTruncated(t[n + 2..], s[n + 2..], end);
    }
  }

  /**
   Prefix safety: from any truncation of a body, at any byte, a reader never hands out anything
   but a beginning of the original payload.
   */
  lemma {:induction false} TruncatedBodyYieldsPrefix(cs: seq<Chunk>, final: Chunk, trailer: string, cut: nat,
                                                     end: ReadError)
    requires forall i :: 0 <= i < |cs| ==> IsChunk(cs[i])
    requires IsHeader(final.size, final.extension, 0)
    requires cut <= |Encode(cs, final, trailer)|
    ensures Decode(Encode(cs, final, trailer)[..cut], end).data <= Payload(cs)
  {
    DecodeEncode(cs, final, trailer, end);
    DecodeTruncated(Encode(cs, final, trailer)[..cut], Encode(cs, final, trailer), end);
  }

  /** How many bytes of a body reach to the end of its last chunk's data. */
  function DataEnd(cs: seq<Chunk>): nat {
    if cs == [] then 0
    else |HeaderLine(cs[0].size, cs[0].extension)| + |cs[0].data| + if |cs| == 1 then 0 else 2 + DataEnd(cs[1..])
  }

  /** How many bytes of a body reach to the end of the final header. */
  function BodyEnd(cs: seq<Chunk>, final: Chunk): nat {
    |Encode(cs, final, "")|
  }

  /** Whether a cut falls exactly behind the last byte of some chunk. */
  predicate CutsAtChunkEnd(cs: seq<Chunk>, cut: nat) {
    cs != []
    && var behind := |HeaderLine(cs[0].size, cs[0].extension)| + |cs[0].data|;
       cut == behind || (behind + 2 <= cut && CutsAtChunkEnd(cs[1..], cut - behind - 2))
  }

  /** That is, behind the data of the first k chunks for some k. */
  lemma {:induction false} ChunkEnds(cs: seq<Chunk>, cut: nat)
    ensures CutsAtChunkEnd(cs, cut) <==> exists k :: 0 < k <= |cs| && cut == DataEnd(cs[..k])
  {
    if cs != [] {
      var behind := |HeaderLine(cs[0].size, cs[0].extension)| + |cs[0].data|;
      forall k | 0 < k <= |cs|
        ensures DataEnd(cs[..k]) == if k == 1 then behind else behind + 2 + DataEnd(cs[1..][..k - 1])
      {
        assert cs[..k][0] == cs[0] && cs[..k][1..] == cs[1..][..k - 1];
      }
      if behind + 2 <= cut {
        ChunkEnds(cs[1..], cut - behind - 2);
        if CutsAtChunkEnd(cs[1..], cut - behind - 2) {
          var k :| 0 < k <= |cs[1..]| && cut - behind - 2 == DataEnd(cs[1..][..k]);
          assert cut == DataEnd(cs[..k + 1]);
        }
      }
      if cut == behind {
        assert cut == DataEnd(cs[..1]);
      }
      hide HeaderLine;
    }
  }

  /** A body cut inside its first header delivers nothing. */
  lemma {:induction false} CutHeader(size: string, extension: string, n: int, rest: string, cut: nat, end: ReadError)
    requires IsHeader(size, extension, n) && cut < |HeaderLine(size, extension)|
    ensures Decode((HeaderLine(size, extension) + rest)[..cut], end) == Decoded("", {end})
  {
    var line := size + extension + "\r";
    SizeOfHeader(size, extension, n);
    assert (HeaderLine(size, extension) + rest)[..cut] == line[..cut];
    FindCharNone(line[..cut], '\n');
  }

  /** A body cut inside or behind its first chunk. */
  lemma {:induction false} CutChunk(data: string, tail: string, k: nat, end: ReadError)
    requires data != "" && k <= |data + (CRLF + tail)|
    ensures var s := (data + (CRLF + tail))[..k];
            DecodeChunk(s, |data|, end)
              == if k < |data| then Decoded(data[..k], {end})
                 else if k == |data| then Decoded(data, {end, EndOfChunk(end)})
                 else if k == |data| + 1 then Decoded(data, {end})
                 else Prepend(data, Decode(tail[..k - |data| - 2], end))
  {
    var s := (data + (CRLF + tail))[..k];
    if k < |data| {
      assert s == data[..k];
    } else {
      TakeBehind(data, CRLF + tail, k - |data|);
      ChunkEnd(data, (CRLF + tail)[..k - |data|], end);
      if |data| + 2 <= k {
        assert (CRLF + tail)[..k - |data|][2..] == tail[..k - |data| - 2];
      }
    }
  }

  /** What a body decodes to that is cut off anywhere, in terms of its first chunk and the rest. */
  lemma {:induction false} CutBody(c: Chunk, tail: string, cut: nat, end: ReadError)
    requires IsChunk(c)
    requires cut <= |HeaderLine(c.size, c.extension)| + |c.data| + 2 + |tail|
    ensures var h, n := |HeaderLine(c.size, c.extension)|, |c.data|;
            Decode((HeaderLine(c.size, c.extension) + (c.data + (CRLF + tail)))[..cut], end)
              == if cut < h then Decoded("", {end})
                 else if cut < h + n then Decoded(c.data[..cut - h], {end})
                 else if cut == h + n then Decoded(c.data, {end, EndOfChunk(end)})
                 else if cut == h + n + 1 then Decoded(c.data, {end})
                 else Prepend(c.data, Decode(tail[..cut - h - n - 2], end))
  {
    hide Decode, DecodeChunk, HeaderLine, IsHeader;
    var header, rest := HeaderLine(c.size, c.extension), c.data + (CRLF + tail);
    if cut < |header| {
      CutHeader(c.size, c.extension, Size(c), rest, cut, end);
    } else {
      TakeBehind(header, rest, cut - |header|);
      DecodeHeader(c.size, c.extension, |c.data|, rest[..cut - |header|], end);
      CutChunk(c.data, tail, cut - |header|, end);
    }
  }

  lemma SameTail(a: string, b: string, c: string)
    ensures a + b == a + c <==> b == c
  {
    assert (a + b)[|a|..] == b && (a + c)[|a|..] == c;
  }

  /** A truncated body still delivers its payload if and only if no payload byte was cut off. */
  lemma {:induction false} TruncationLosesDataExactlyIf(cs: seq<Chunk>, final: Chunk, trailer: string, cut: nat,
                                                        end: ReadError)
    requires forall i :: 0 <= i < |cs| ==> IsChunk(cs[i])
    requires IsHeader(final.size, final.extension, 0)
    requires cut <= |Encode(cs, final, trailer)|
    ensures Decode(Encode(cs, final, trailer)[..cut], end).data == Payload(cs) <==> DataEnd(cs) <= cut
  {
    hide Decode, HeaderLine, IsHeader;
    if cs == [] {
      TruncatedBodyYieldsPrefix(cs, final, trailer, cut, end);
    } else {
      var tail, behind := Encode(cs[1..], final, trailer), |HeaderLine(cs[0].size, cs[0].extension)| + |cs[0].data| + 2;
      CutBody(cs[0], tail, cut, end);
      if behind <= cut {
        TruncationLosesDataExactlyIf(cs[1..], final, trailer, cut - behind, end);
      }
      assert IsChunk(cs[0]);
      if |cs| == 1 {
        assert cs[1..] == [];
      } else {
        assert IsChunk(cs[1]) && Payload(cs[1..]) != "";
        if behind <= cut {
          SameTail(cs[0].data, Decode(tail[..cut - behind], end).data, Payload(cs[1..]));
        }
      }
    }
  }

  /** A body of one chunk that is cut behind its first byte: it ends regularly, and the second byte is lost. */
  lemma CutBodyIsAccepted()
    ensures var cs, final := [Chunk("2", "", "ab")], Chunk("0", "", "");
            && IsChunk(cs[0]) && IsHeader(final.size, final.extension, 0) && Payload(cs) == "ab"
            && 4 <= |Encode(cs, final, "")|
            && Decode(Encode(cs, final, "")[..4], EOF) == Decoded("a", {EOF})
  {
    var c, final := Chunk("2", "", "ab"), Chunk("0", "", "");
    OneDigit('2', 2);
    OneDigit('0', 0);
    var tail := Encode([], final, "");
    assert [c][1..] == [] && Payload([c]) == "ab" + Payload([]);
    assert |HeaderLine("2", "")| == 3;
    CutBody(c, tail, 4, EOF);
    assert "ab"[..1] == "a";
  }

  lemma OneDigit(c: char, d: nat)
    requires '0' <= c <= '9' && d == c as int - '0' as int
    ensures ParseInt([c], 16) == Some(d as int)
  {
    assert [c][..0] == "" && DigitsValue("", 16) == Some(0);
    assert DigitsValue([c], 16) == Some(d);
  }

  /**
   How a truncated body ends, exactly: as its source ends, so with a regular EOF wherever the
   source just stops. Only if it stops behind the last byte of a chunk, and reports its end
   together with that byte, is the truncation noticed. A body whose final header is complete ends
   regularly whatever was cut off behind it.
   */
  lemma {:induction false} TruncationIsNoticedExactlyIf(cs: seq<Chunk>, final: Chunk, trailer: string, cut: nat,
                                                        end: ReadError)
    requires forall i :: 0 <= i < |cs| ==> IsChunk(cs[i])
    requires IsHeader(final.size, final.extension, 0)
    requires cut <= |Encode(cs, final, trailer)|
    ensures Decode(Encode(cs, final, trailer)[..cut], end).ends
         == if BodyEnd(cs, final) <= cut then {EOF}
            else if CutsAtChunkEnd(cs, cut) then {end, if end == EOF then UnexpectedEOF else end}
            else {end}
  {
    hide Decode, HeaderLine, IsHeader;
    if cs == [] {
      CutFinal(final, trailer, cut, end);
    } else {
      var tail, behind := Encode(cs[1..], final, trailer), |HeaderLine(cs[0].size, cs[0].extension)| + |cs[0].data| + 2;
      assert IsChunk(cs[0]);
      CutBody(cs[0], tail, cut, end);
      if behind <= cut {
        TruncationIsNoticedExactlyIf(cs[1..], final, trailer, cut - behind, end);
      }
    }
  }

  lemma {:induction false} CutFinal(final: Chunk, trailer: string, cut: nat, end: ReadError)
    requires IsHeader(final.size, final.extension, 0)
    requires cut <= |HeaderLine(final.size, final.extension) + trailer|
    ensures Decode((HeaderLine(final.size, final.extension) + trailer)[..cut], end).ends
         == if |HeaderLine(final.size, final.extension)| <= cut then {EOF} else {end}
  {
    var header := HeaderLine(final.size, final.extension);
    hide Decode, HeaderLine, IsHeader;
    if cut < |header| {
      CutHeader(final.size, final.extension, 0, trailer, cut, end);
    } else {
      TakeBehind(header, trailer, cut - |header|);
      DecodeHeader(final.size, final.extension, 0, trailer[..cut - |header|], end);
    }
  }

  // ---------------------------------------------------------------- payload hashes

  /** Hashes what passes through; the digest is any function of bytes. */
  class HashVerifyingReader {
    const r: ByteSource
    const digest: string -> string
    const expected: string
    var seen: string

    constructor (r: ByteSource, digest: string -> string, expected: string)
      ensures this.r == r && this.digest == digest && this.expected == expected && seen == ""
    {
      this.r := r;
      this.digest := digest;
      this.expected := expected;
      seen := "";
    }

    /** A clean end is reported only if everything read has the expected digest; other errors pass. */
    method Read(size: nat) returns (data: string, err: Option<ReadError>)
      modifies this, r
      ensures |data| <= size && seen == old(seen) + data && old(r.input) == data + r.input
      ensures err.Some? ==>
                && r.input == ""
                && err.value == (if r.end == EOF && digest(seen) != expected then PayloadHashMismatch else r.end)
      ensures r.Fuel() <= old(r.Fuel())
      ensures err.None? && size > 0 ==> r.Fuel() < old(r.Fuel())
    {
      data, err := r.Read(size);
      if |data| > 0 {
        seen := seen + data;
      }
      if err == Some(EOF) && digest(seen) != expected {
        return data, Some(PayloadHashMismatch);
      }
    }
  }

  /**
   Buffering a verified body before a write: it succeeds, with exactly the body's bytes, if and
   only if the body came to its end and their digest is the signed one; otherwise nothing is
   handed to the backend.
   */
  method PutBody(v: HashVerifyingReader) returns (data: Result<string, ReadError>)
    requires v.seen == ""
    modifies v, v.r
    ensures data == if v.r.end != EOF then Failure(v.r.end)
                    else if v.digest(old(v.r.input)) == v.expected then Success(old(v.r.input))
                    else Failure(PayloadHashMismatch)
  {
    var all := "";
    while true
      invariant all == v.seen && all + v.r.input == old(v.r.input)
      decreases v.r.Fuel()
    {
      var size: int := *;
      if size <= 0 {
        size := 512;
      }
      var more, err := v.Read(size);
      all := all + more;
      if err.Some? {
        assert all + v.r.input == all == old(v.r.input);
        return if err.value == EOF then Success(all) else Failure(err.value);
      }
    }
  }
}
