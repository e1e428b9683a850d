/**
 * Chunked framing of the request body (doubao_api.cpp:47-60), following the
 * chunked transfer coding of section 7.1 of RFC 9112: the payload is cut into
 * pieces of at most 4096 bytes (a `char` stands for a byte), each written as
 * `<hex size> CRLF <data> CRLF`, and the body ends with the last chunk
 * `0 CRLF` followed by an empty trailer section and CRLF.
 */
module Chunked {
  import opened Wrappers
  import opened Hex

  const ChunkSize: nat := 4096
  const CRLF: string := "\r\n"
  /** The zero-size last chunk and the final CRLF: "0\r\n\r\n". */
  const LastChunk: string := "0\r\n\r\n"

  function Min(a: int, b: int): int
  {
    if a <= b then a else b
  }

  /** The pieces the send loop cuts the payload into, front to back. */
  function Chunks(payload: string): seq<string>
    decreases |payload|
  {
    if |payload| == 0 then []
    else
      var m := Min(ChunkSize, |payload|);
      [payload[..m]] + Chunks(payload[m..])
  }

  function Concat(chunks: seq<string>): string
  {
    if chunks == [] then [] else chunks[0] + Concat(chunks[1..])
  }

  function SumOfLengths(chunks: seq<string>): nat
  {
    if chunks == [] then 0 else |chunks[0]| + SumOfLengths(chunks[1..])
  }

  /** One chunk on the wire: hex size, CRLF, data, CRLF. */
  function EncodeChunk(chunk: string): string
  {
    ToHex(|chunk|) + CRLF + chunk + CRLF
  }

  function EncodeChunks(chunks: seq<string>): string
  {
    if chunks == [] then [] else EncodeChunk(chunks[0]) + EncodeChunks(chunks[1..])
  }

  /** The whole request body the sender writes for `payload`. */
  function ChunkedBody(payload: string): string
  {
    EncodeChunks(Chunks(payload)) + LastChunk
  }

  /** The number of leading hexadecimal digits of `s`. */
  function HexRun(s: string): (n: nat)
    ensures n <= |s| && AllHexDigits(s[..n])
    ensures n < |s| ==> !IsHexDigit(s[n])
    decreases |s|
  {
    if s == [] || !IsHexDigit(s[0]) then 0
    else
      var k := HexRun(s[1..]);
      assert s[..1 + k] == [s[0]] + s[1..][..k];
      1 + k
  }

  /**
   * A decoder for chunked bodies without chunk extensions and without
   * trailer fields: it returns the concatenated chunk data, or None when
   * `s` is not such a body.
   */
  function Dechunk(s: string): Option<string>
    decreases |s|, 1
  {
    var d := HexRun(s);
    if d == 0 || |s| < d + 2 || s[d..d + 2] != CRLF then None
    else DechunkData(HexValue(s[..d]), s[d + 2..])
  }

  /** The rest of a chunked body after a size line announcing `size` bytes. */
  function DechunkData(size: nat, rest: string): Option<string>
    decreases |rest|, 0
  {
    if size == 0 then
      (if rest == CRLF then Some([]) else None)
    else if |rest| < size + 2 || rest[size..size + 2] != CRLF then None
    else
      match Dechunk(rest[size + 2..])
      case None => None
      case Some(tail) => Some(rest[..size] + tail)
  }

  /** Chunk `i` is the slice of the payload at `4096 * i`, of size min(4096, remaining). */
  lemma {:induction false} ChunkAt(payload: string, i: nat)
    requires i < |Chunks(payload)|
    ensures ChunkSize * i < |payload|
    ensures |Chunks(payload)[i]| == Min(ChunkSize, |payload| - ChunkSize * i)
    ensures Chunks(payload)[i] == payload[ChunkSize * i..ChunkSize * i + |Chunks(payload)[i]|]
    decreases |payload|
  {
    var m := Min(ChunkSize, |payload|);
    var rest := payload[m..];
    assert Chunks(payload) == [payload[..m]] + Chunks(rest);
    if i > 0 {
      assert Chunks(payload)[i] == Chunks(rest)[i - 1];
      ChunkAt(rest, i - 1);
      assert m == ChunkSize;
      var k := ChunkSize * (i - 1);
      assert ChunkSize * i == m + k;
      var n := |Chunks(rest)[i - 1]|;
      SliceOfSuffix(payload, m, k, k + n);
    }
  }

  lemma SliceOfSuffix(s: string, a: nat, b: nat, c: nat)
    requires a <= |s| && b <= c <= |s| - a
    ensures s[a..][b..c] == s[a + b..a + c]
  {
  }

  /** Every chunk is non-empty and every chunk but the last has exactly 4096 bytes. */
  lemma ChunkSizes(payload: string, i: nat)
    requires i < |Chunks(payload)|
    ensures 0 < |Chunks(payload)[i]| <= ChunkSize
    ensures i < |Chunks(payload)| - 1 ==> |Chunks(payload)[i]| == ChunkSize
  {
    ChunkAt(payload, i);
    if i < |Chunks(payload)| - 1 {
      ChunkAt(payload, i + 1);
    }
  }

  /** There are ceil(|payload| / 4096) chunks; none for an empty payload. */
  lemma {:induction false} ChunkCount(payload: string)
    ensures |Chunks(payload)| == (|payload| + ChunkSize - 1) / ChunkSize
    decreases |payload|
  {
    if |payload| > 0 {
      var m := Min(ChunkSize, |payload|);
      ChunkCount(payload[m..]);
    }
  }

  /** The chunks joined in order give back the payload: no truncation, no duplication. */
  lemma {:induction false} ConcatChunks(payload: string)
    ensures Concat(Chunks(payload)) == payload
    decreases |payload|
  {
    if |payload| > 0 {
      var m := Min(ChunkSize, |payload|);
      ConcatChunks(payload[m..]);
      assert Chunks(payload)[1..] == Chunks(payload[m..]);
    }
  }

  lemma {:induction false} LengthOfConcat(chunks: seq<string>)
    ensures |Concat(chunks)| == SumOfLengths(chunks)
  {
    if chunks != [] {
      LengthOfConcat(chunks[1..]);
    }
  }

  /** The chunk sizes add up to the payload length. */
  lemma ChunkLengthsSum(payload: string)
    ensures SumOfLengths(Chunks(payload)) == |payload|
  {
    ConcatChunks(payload);
    LengthOfConcat(Chunks(payload));
  }

  /** An empty payload is framed as the last chunk alone. */
  lemma EmptyPayloadBody()
    ensures ChunkedBody([]) == "0\r\n\r\n"
  {
  }

  lemma {:induction false} EncodeChunksSnoc(chunks: seq<string>, c: string)
    ensures EncodeChunks(chunks + [c]) == EncodeChunks(chunks) + EncodeChunk(c)
  {
    if chunks != [] {
      assert (chunks + [c])[1..] == chunks[1..] + [c];
      EncodeChunksSnoc(chunks[1..], c);
    }
  }

  lemma {:induction false} HexRunOfNumeral(h: string, u: string)
    requires AllHexDigits(h)
    requires u != [] && !IsHexDigit(u[0])
    ensures HexRun(h + u) == |h|
    decreases |h|
  {
    var s := h + u;
    if h == [] {
      assert s == u;
    } else {
      assert s[0] == h[0] && IsHexDigit(h[0]);
      assert s[1..] == h[1..] + u;
      HexRunOfNumeral(h[1..], u);
      assert HexRun(s) == 1 + HexRun(s[1..]);
    }
  }

  /** Decoding one non-empty chunk followed by `tail` yields its data followed by the decoding of `tail`. */
  lemma DechunkOneChunk(c: string, tail: string)
    requires c != []
    ensures Dechunk(EncodeChunk(c) + tail) ==
      match Dechunk(tail) case None => None case Some(t) => Some(c + t)
  {
    var h := ToHex(|c|);
    var d := |h|;
    var s := EncodeChunk(c) + tail;
    assert s == h + (CRLF + c + CRLF + tail);
    assert HexRun(s) == d by {
      HexRunOfNumeral(h, CRLF + c + CRLF + tail);
    }
    assert s[..d] == h && s[d..d + 2] == CRLF;
    assert HexValue(s[..d]) == |c| by {
      HexValueOfToHex(|c|);
    }
    var rest := s[d + 2..];
    assert Dechunk(s) == DechunkData(|c|, rest);
    assert rest == c + CRLF + tail;
    assert rest[|c|..|c| + 2] == CRLF && rest[|c| + 2..] == tail && rest[..|c|] == c;
  }

  lemma {:induction false} DechunkEncoded(chunks: seq<string>)
    requires forall i :: 0 <= i < |chunks| ==> chunks[i] != []
    ensures Dechunk(EncodeChunks(chunks) + LastChunk) == Some(Concat(chunks))
  {
    if chunks == [] {
      var s := EncodeChunks(chunks) + LastChunk;
      assert s == "0" + "\r\n\r\n";
      HexRunOfNumeral("0", "\r\n\r\n");
      assert s[..1] == "0" && HexValue("0") == 0;
      assert s[1..3] == CRLF;
      assert s[3..] == CRLF;
    } else {
      assert EncodeChunks(chunks) + LastChunk ==
        EncodeChunk(chunks[0]) + (EncodeChunks(chunks[1..]) + LastChunk);
      DechunkOneChunk(chunks[0], EncodeChunks(chunks[1..]) + LastChunk);
      DechunkEncoded(chunks[1..]);
    }
  }

  /** The framed body is a well-formed chunked body whose decoding is the payload. */
  lemma DechunkChunkedBody(payload: string)
    ensures Dechunk(ChunkedBody(payload)) == Some(payload)
  {
    forall i | 0 <= i < |Chunks(payload)|
      ensures Chunks(payload)[i] != []
    {
      ChunkSizes(payload, i);
    }
    DechunkEncoded(Chunks(payload));
    ConcatChunks(payload);
  }

  /** The chunks of the unsent rest: the next piece, then the chunks of what follows it. */
  lemma ChunksFrom(payload: string, sent: nat)
    requires sent < |payload|
    ensures var m := Min(ChunkSize, |payload| - sent);
      Chunks(payload[sent..]) == [payload[sent..sent + m]] + Chunks(payload[sent + m..])
  {
    var m := Min(ChunkSize, |payload| - sent);
    var rest := payload[sent..];
    assert rest[..m] == payload[sent..sent + m];
    assert rest[m..] == payload[sent + m..];
  }

  lemma AppendOne(a: seq<string>, x: string, b: seq<string>)
    ensures a + [x] + b == a + ([x] + b)
  {
  }

  /** One round of the send loop keeps `chunks` a prefix of the payload's chunks, one piece further on. */
  lemma ChunksStep(payload: string, sent: nat, chunks: seq<string>)
    requires sent < |payload|
    requires chunks + Chunks(payload[sent..]) == Chunks(payload)
    ensures var m := Min(ChunkSize, |payload| - sent);
      chunks + [payload[sent..sent + m]] + Chunks(payload[sent + m..]) == Chunks(payload)
  {
    var m := Min(ChunkSize, |payload| - sent);
    ChunksFrom(payload, sent);
    AppendOne(chunks, payload[sent..sent + m], Chunks(payload[sent + m..]));
  }

  /** Writing size line, piece and CRLF after the encoded chunks encodes one more chunk. */
  lemma WireStep(chunks: seq<string>, chunk: string)
    ensures EncodeChunks(chunks) + ToHex(|chunk|) + CRLF + chunk + CRLF == EncodeChunks(chunks + [chunk])
  {
    EncodeChunksSnoc(chunks, chunk);
  }

  /**
   * The send loop of `sendHttpRequest`: `sent` walks through the payload,
   * each round cuts a piece of `min(4096, totalLength - sent)` bytes and
   * writes its hex size, CRLF, the piece and CRLF; the last chunk follows.
   * `wire` is everything written, `chunks` the pieces in order.
   */
  method SendChunkedBody(payload: string) returns (wire: string, chunks: seq<string>)
    ensures chunks == Chunks(payload)
    ensures wire == ChunkedBody(payload)
  {
    var totalLength := |payload|;
    var sent := 0;
    wire, chunks := [], [];
    while sent < totalLength
      invariant 0 <= sent <= totalLength
      invariant chunks + Chunks(payload[sent..]) == Chunks(payload)
      invariant wire == EncodeChunks(chunks)
      decreases totalLength - sent
    {
      var currentChunkSize := Min(ChunkSize, totalLength - sent);
      var chunk := payload[sent..sent + currentChunkSize];
      wire := wire + ToHex(currentChunkSize) + CRLF;
      wire := wire + chunk;
      wire := wire + CRLF;
      WireStep(chunks, chunk);
      ChunksStep(payload, sent, chunks);
      chunks := chunks + [chunk];
      sent := sent + currentChunkSize;
    }
    assert payload[sent..] == [];
    wire := wire + LastChunk;
  }
}
