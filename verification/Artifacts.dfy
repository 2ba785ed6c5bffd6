/** Uploading a document in chunks (src/app/api/owner/artifacts/upload/route.ts) and streaming it
    back (src/lib/artifact-stream.ts). The request body arrives in arbitrary network segments;
    the engine is a function from a chunk number to its reply. */
module Artifacts {
  import opened Options

  type Bytes = seq<bv8>

  const GATEWAY_MAX_BYTES := 26_214_400
  const CHUNK_BYTES := 262_144

  function Concat(parts: seq<Bytes>): Bytes {
    if parts == [] then [] else Concat(parts[..|parts| - 1]) + parts[|parts| - 1]
  }

  lemma ConcatAppend(parts: seq<Bytes>, b: Bytes)
    ensures Concat(parts + [b]) == Concat(parts) + b
  {
    assert (parts + [b])[..|parts|] == parts;
  }

  // ----- The chunks of a body -----

  function ChunkCount(length: nat): nat { (length + CHUNK_BYTES - 1) / CHUNK_BYTES }

  function ChunkEnd(length: nat, i: nat): nat {
    if (i + 1) * CHUNK_BYTES <= length then (i + 1) * CHUNK_BYTES else length
  }

  /** Chunk `i` is bytes `i * CHUNK_BYTES` up to the next multiple or the end. */
  function Chunks(body: Bytes): (cs: seq<Bytes>)
    ensures |cs| == ChunkCount(|body|)
  {
    seq(ChunkCount(|body|), i requires 0 <= i < ChunkCount(|body|) => body[i * CHUNK_BYTES..ChunkEnd(|body|, i)])
  }

  lemma {:induction false} ChunksPrefixConcat(body: Bytes, k: nat)
    requires k <= ChunkCount(|body|)
    ensures Concat(Chunks(body)[..k]) == body[..if k * CHUNK_BYTES <= |body| then k * CHUNK_BYTES else |body|]
  {
    if k > 0 {
      ChunksPrefixConcat(body, k - 1);
      var cs := Chunks(body);
      assert cs[..k] == cs[..k - 1] + [cs[k - 1]];
      ConcatAppend(cs[..k - 1], cs[k - 1]);
    }
  }

  /** Every chunk but the last is full, the last is not empty, together they are the body, and a
      document within the gateway's limit has at most a hundred. */
  lemma ChunksPartitionBody(body: Bytes)
    ensures Concat(Chunks(body)) == body
    ensures forall i | 0 <= i < |Chunks(body)| - 1 :: |Chunks(body)[i]| == 262_144
    ensures forall i | 0 <= i < |Chunks(body)| :: 1 <= |Chunks(body)[i]| <= 262_144
    ensures |body| <= 26_214_400 ==> |Chunks(body)| <= 100
  {
    var n := ChunkCount(|body|);
    ChunksPrefixConcat(body, n);
    assert Chunks(body)[..n] == Chunks(body);
  }

  // ----- The upload -----

  /** Refused before an artifact exists, finalized, or aborted. */
  datatype Upload = Refused | Finalizing | Aborting(status: int)

  /** The engine's status for each chunk; no status when the request itself fails. */
  type Acks = nat -> Option<int>

  /** The status reported for a chunk that was not acknowledged. */
  function FailureStatus(ack: Option<int>): int { if ack.Some? then ack.value else 502 }

  /** The last chunk sent was refused and everything before it acknowledged. */
  predicate StoppedAt(acks: Acks, sent: seq<Bytes>, status: int) {
    && sent != [] && AllAcked(acks, |sent| - 1)
    && acks(|sent| - 1) != Some(200) && status == FailureStatus(acks(|sent| - 1))
  }

  predicate AllAcked(acks: Acks, n: nat) { forall i | 0 <= i < n :: acks(i) == Some(200) }

  /** What has been sent so far: the full chunks of the bytes received, and `pending` the rest. */
  ghost predicate Progress(sent: seq<Bytes>, pending: Bytes, received: Bytes) {
    && (forall i | 0 <= i < |sent| :: |sent[i]| == CHUNK_BYTES)
    && Concat(sent) + pending == received
  }

  lemma {:induction false} FullChunks(sent: seq<Bytes>, rest: Bytes, body: Bytes)
    requires forall i | 0 <= i < |sent| :: |sent[i]| == CHUNK_BYTES
    requires Concat(sent) + rest == body
    ensures |Concat(sent)| == |sent| * CHUNK_BYTES && |sent| <= |Chunks(body)|
    ensures sent == Chunks(body)[..|sent|]
    decreases |sent|
  {
    if sent != [] {
      var n := |sent| - 1;
      var front, last := sent[..n], sent[n];
      assert Concat(sent) == Concat(front) + last;
      assert Concat(front) + (last + rest) == body;
      FullChunks(front, last + rest, body);
      assert body[n * CHUNK_BYTES..(n + 1) * CHUNK_BYTES] == last;
      assert Chunks(body)[n] == last;
      assert sent == front + [last];
    }
  }

  /** One chunk more, and at the end of the body the short one. */
  lemma SendChunk(sent: seq<Bytes>, pending: Bytes, received: Bytes, length: nat)
    requires Progress(sent, pending, received) && 1 <= length <= |pending|
    requires length == CHUNK_BYTES || length == |pending| < CHUNK_BYTES
    ensures sent + [pending[..length]] <= Chunks(received)
    ensures length == CHUNK_BYTES ==> Progress(sent + [pending[..length]], pending[length..], received)
    ensures length < CHUNK_BYTES ==> sent + [pending[..length]] == Chunks(received)
  {
    FullChunks(sent, pending, received);
    ConcatAppend(sent, pending[..length]);
    assert pending[..length] + pending[length..] == pending;
    assert Concat(sent) + pending[..length] + pending[length..] == received;
    var n := |sent|;
    assert Chunks(received)[n] == pending[..length];
    assert sent + [pending[..length]] == Chunks(received)[..n + 1];
  }

  /** Chunks already sent stay chunks when more bytes arrive. */
  lemma MoreBytes(sent: seq<Bytes>, pending: Bytes, received: Bytes, value: Bytes)
    requires Progress(sent, pending, received)
    ensures Progress(sent, pending + value, received + value)
  {
    assert Concat(sent) + (pending + value) == Concat(sent) + pending + value;
  }

  /** The inner loop: send while a full chunk is pending, or anything at all once the body is
      complete. */
  method SendPending(sent0: seq<Bytes>, pending0: Bytes, ghost received: Bytes, done: bool, acks: Acks)
    returns (sent: seq<Bytes>, pending: Bytes, failure: Option<int>)
    requires Progress(sent0, pending0, received) && AllAcked(acks, |sent0|)
    ensures sent0 <= sent <= Chunks(received)
    ensures failure.None? ==>
              && AllAcked(acks, |sent|)
              && (!done ==> Progress(sent, pending, received) && |pending| < CHUNK_BYTES)
              && (done ==> pending == [] && sent == Chunks(received))
    ensures failure.Some? ==> StoppedAt(acks, sent, failure.value)
    ensures !done ==> forall i | 0 <= i < |sent| :: |sent[i]| == CHUNK_BYTES
  {
    sent, pending := sent0, pending0;
    FullChunks(sent, pending, received);
    while |pending| >= CHUNK_BYTES || (done && |pending| > 0)
      invariant sent0 <= sent <= Chunks(received) && AllAcked(acks, |sent|)
      invariant Progress(sent, pending, received) || (done && pending == [] && sent == Chunks(received))
      decreases |pending|
    {
      var length := if |pending| >= CHUNK_BYTES then CHUNK_BYTES else |pending|;
      var bytes := pending[..length];
      SendChunk(sent, pending, received, length);
      var status := acks(|sent|);
      sent := sent + [bytes];
      pending := pending[length..];
      if status != Some(200) {
        return sent, pending, Some(FailureStatus(status));
      }
    }
    if done && Progress(sent, pending, received) {
      FullChunks(sent, [], received);
    }
    failure := None;
  }

  /** An upload that stopped before the end of its body: for a refused chunk, as too long, or
      because reading the request failed. */
  ghost predicate Stopped(acks: Acks, sent: seq<Bytes>, body: Bytes, expected: nat, readFails: bool, status: int) {
    && sent <= Chunks(body) && |sent| <= 100
    && (|| StoppedAt(acks, sent, status)
        || (AllAcked(acks, |sent|) && |body| > expected && status == 413)
        || (AllAcked(acks, |sent|) && |body| <= expected && readFails && status == 502))
  }

  /** A refused chunk is one of the body's, so not all of those are acknowledged. */
  lemma StoppedNotAllAcked(acks: Acks, sent: seq<Bytes>, body: Bytes, status: int)
    requires sent <= Chunks(body) && StoppedAt(acks, sent, status)
    ensures !AllAcked(acks, ChunkCount(|body|))
  {}

  lemma AtMostAHundred(sent: seq<Bytes>, body: Bytes, expected: nat)
    requires sent <= Chunks(body) && |body| <= expected <= GATEWAY_MAX_BYTES
    ensures |sent| <= 100
  {}

  /** The loop over the segments that arrive; then the body ends, or reading it fails. */
  method ReceiveSegments(segments: seq<Bytes>, expected: nat, readFails: bool, acks: Acks)
    returns (sent: seq<Bytes>, pending: Bytes, received: nat, failure: Option<int>)
    requires expected <= GATEWAY_MAX_BYTES
    ensures failure.Some? ==> Stopped(acks, sent, Concat(segments), expected, readFails, failure.value)
    ensures failure.None? ==>
              && !readFails && Progress(sent, pending, Concat(segments)) && AllAcked(acks, |sent|)
              && received == |Concat(segments)| <= expected
  {
    sent, pending, received := [], [], 0;
    ghost var body := Concat(segments);
    for k := 0 to |segments|
      invariant received == |Concat(segments[..k])| <= expected
      invariant Progress(sent, pending, Concat(segments[..k])) && AllAcked(acks, |sent|)
    {
      var value := segments[k];
      ghost var before, now := Concat(segments[..k]), Concat(segments[..k + 1]);
      OneSegmentMore(segments, k);
      received := received + |value|;
      if received > expected {
        SentSoFar(sent, pending, before, body, expected);
        return sent, pending, received, Some(413);
      }
      MoreBytes(sent, pending, before, value);
      pending := pending + value;
      sent, pending, failure := SendPending(sent, pending, now, false, acks);
      if failure.Some? {
        FullChunksOfPrefix(sent, now, body);
        AtMostAHundred(sent, now, expected);
        return;
      }
    }
    assert segments[..|segments|] == segments;
    if readFails {
      SentSoFar(sent, pending, body, body, expected);
      return sent, pending, received, Some(502);
    }
    failure := None;
  }

  lemma OneSegmentMore(segments: seq<Bytes>, k: nat)
    requires k < |segments|
    ensures Concat(segments[..k + 1]) == Concat(segments[..k]) + segments[k]
    ensures Concat(segments[..k]) <= Concat(segments) && Concat(segments[..k + 1]) <= Concat(segments)
  {
    ConcatOneMore(segments, k);
    ConcatOfPrefix(segments, k);
    ConcatOfPrefix(segments, k + 1);
  }

  lemma ConcatOneMore(segments: seq<Bytes>, k: nat)
    requires k < |segments|
    ensures Concat(segments[..k + 1]) == Concat(segments[..k]) + segments[k]
  {
    assert segments[..k + 1][..k] == segments[..k];
  }

  /** The upload. Whatever the segmentation, the chunks sent are those of the body in order;
      finalization is attempted exactly when the length is as declared and every chunk of the
      body was acknowledged, and then all of them were sent; an upload is aborted for its first
      refused chunk, for a request that fails while it is read, or as too long or too short, and
      nothing follows. */
  method UploadBody(segments: seq<Bytes>, expected: int, readFails: bool, acks: Acks) returns (sent: seq<Bytes>, outcome: Upload)
    ensures sent <= Chunks(Concat(segments)) && |sent| <= 100
    ensures outcome == Finalizing <==>
              && 1 <= expected <= 26_214_400 && !readFails && |Concat(segments)| == expected
              && AllAcked(acks, ChunkCount(|Concat(segments)|))
    ensures outcome == Finalizing ==> sent == Chunks(Concat(segments))
    ensures outcome == Refused <==> !(1 <= expected <= 26_214_400)
    ensures outcome.Aborting? && |Concat(segments)| == expected && !readFails ==>
              && sent != [] && acks(|sent| - 1) != Some(200)
              && outcome.status == (match acks(|sent| - 1) case Some(status) => status case None => 502)
    ensures outcome.Aborting? && (forall i | 0 <= i < |sent| :: acks(i) == Some(200)) ==>
              outcome.status == if |Concat(segments)| > expected then 413 else if readFails then 502 else 422
    ensures outcome.Aborting? ==>
              || Stopped(acks, sent, Concat(segments), expected, readFails, outcome.status)
              || (!readFails && sent == Chunks(Concat(segments)) && AllAcked(acks, |sent|)
                  && |Concat(segments)| < expected && outcome.status == 422)
  {
    if expected < 1 || expected > GATEWAY_MAX_BYTES { return [], Refused; }
    ghost var body := Concat(segments);
    var pending, received, failure;
    sent, pending, received, failure := ReceiveSegments(segments, expected, readFails, acks);
    if failure.None? {
      sent, pending, failure := SendPending(sent, pending, body, true, acks);
      AtMostAHundred(sent, body, expected);
    }
    if failure.Some? {
      if StoppedAt(acks, sent, failure.value) { StoppedNotAllAcked(acks, sent, body, failure.value); }
      return sent, Aborting(failure.value);
    }
    if received != expected { return sent, Aborting(422); }
    outcome := Finalizing;
  }

  lemma {:induction false} ConcatOfPrefix(segments: seq<Bytes>, k: nat)
    requires k <= |segments|
    ensures Concat(segments[..k]) <= Concat(segments)
    decreases |segments| - k
  {
    if k < |segments| {
      ConcatOfPrefix(segments, k + 1);
      assert segments[..k + 1][..k] == segments[..k];
    } else {
      assert segments[..k] == segments;
    }
  }

  /** Full chunks of a prefix are chunks of the whole. */
  lemma SentSoFar(sent: seq<Bytes>, pending: Bytes, before: Bytes, body: Bytes, expected: nat)
    requires Progress(sent, pending, before) && before <= body && |before| <= expected <= GATEWAY_MAX_BYTES
    ensures sent <= Chunks(body) && |sent| <= 100
  {
    FullChunks(sent, pending, before);
    assert Concat(sent) + (pending + body[|before|..]) == body;
    FullChunks(sent, pending + body[|before|..], body);
  }

  lemma FullChunksOfPrefix(sent: seq<Bytes>, now: Bytes, body: Bytes)
    requires sent <= Chunks(now) && now <= body
    requires forall i | 0 <= i < |sent| :: |sent[i]| == CHUNK_BYTES
    ensures sent <= Chunks(body)
  {
    forall i | 0 <= i < |sent| ensures i < |Chunks(body)| && sent[i] == Chunks(body)[i] {
      assert sent[i] == Chunks(now)[i];
      assert (i + 1) * CHUNK_BYTES <= |now| <= |body|;
      assert now[i * CHUNK_BYTES..(i + 1) * CHUNK_BYTES] == body[i * CHUNK_BYTES..(i + 1) * CHUNK_BYTES];
    }
  }

  // ----- The download -----

  /** The engine's reply to a chunk request; absent when the request fails or is not 200. */
  datatype ChunkReply = ChunkReply(sequence: int, data: Bytes, byteLength: int, sha256: string)
  type Engine = nat -> Option<ChunkReply>

  datatype Pulled = Close | Enqueue(bytes: Bytes) | Error

  predicate Intact(sha256: Bytes -> string, reply: Option<ChunkReply>, sequence: nat) {
    && reply.Some? && reply.value.sequence == sequence
    && |reply.value.data| == reply.value.byteLength && sha256(reply.value.data) == reply.value.sha256
  }

  /** The captured `sequence` that each call of `pull` advances. */
  class ArtifactStream {
    const chunkCount: nat
    var sequence: nat

    constructor (chunkCount: nat)
      ensures this.chunkCount == chunkCount && sequence == 0
    {
      this.chunkCount := chunkCount;
      sequence := 0;
    }

    method Pull(sha256: Bytes -> string, engine: Engine) returns (r: Pulled)
      modifies this
      ensures r == Close <==> old(sequence) >= chunkCount
      ensures r.Enqueue? <==> old(sequence) < chunkCount && Intact(sha256, engine(old(sequence)), old(sequence))
      ensures r.Enqueue? ==> r.bytes == engine(old(sequence)).value.data && sequence == old(sequence) + 1
      ensures !r.Enqueue? ==> sequence == old(sequence)
    {
      if sequence >= chunkCount { return Close; }
      var reply := engine(sequence);
      if reply.None? || reply.value.sequence != sequence { return Error; }
      var bytes := reply.value.data;
      var digest := sha256(bytes);
      if |bytes| != reply.value.byteLength || digest != reply.value.sha256 { return Error; }
      sequence := sequence + 1;
      r := Enqueue(bytes);
    }
  }

  /** The data of the first `n` replies. */
  function Data(engine: Engine, n: nat): (ds: seq<Bytes>)
    requires forall i | 0 <= i < n :: engine(i).Some?
    ensures |ds| == n
  {
    seq(n, i requires 0 <= i < n => engine(i).value.data)
  }

  lemma DataGrows(engine: Engine, n: nat)
    requires forall i | 0 <= i < n + 1 :: engine(i).Some?
    ensures Concat(Data(engine, n + 1)) == Concat(Data(engine, n)) + engine(n).value.data
  {
    assert Data(engine, n + 1) == Data(engine, n) + [engine(n).value.data];
    ConcatAppend(Data(engine, n), engine(n).value.data);
  }

  predicate IntactUpTo(sha256: Bytes -> string, engine: Engine, n: nat) {
    forall i | 0 <= i < n :: Intact(sha256, engine(i), i)
  }

  /** The consumer pulls until the stream closes or errors. It closes exactly when every reply is
      intact and in sequence, and what was read is always the data of the replies so far. */
  method Download(sha256: Bytes -> string, chunkCount: nat, engine: Engine) returns (output: Bytes, complete: bool)
    ensures complete <==> IntactUpTo(sha256, engine, chunkCount)
    ensures complete ==> output == Concat(Data(engine, chunkCount))
  {
    var stream := new ArtifactStream(chunkCount);
    output := [];
    while true
      invariant stream.chunkCount == chunkCount && stream.sequence <= chunkCount
      invariant IntactUpTo(sha256, engine, stream.sequence)
      invariant output == Concat(Data(engine, stream.sequence))
      decreases chunkCount - stream.sequence
    {
      ghost var n := stream.sequence;
      var r := stream.Pull(sha256, engine);
      if r.Close? { return output, true; }
      if r.Error? {
        assert !Intact(sha256, engine(n), n);
        return output, false;
      }
      assert IntactUpTo(sha256, engine, n + 1);
      DataGrows(engine, n);
      output := output + r.bytes;
    }
  }

  /** The engine answers with the stored chunks. */
  predicate Serves(sha256: Bytes -> string, engine: Engine, chunks: seq<Bytes>) {
    forall i | 0 <= i < |chunks| :: engine(i) == Some(ChunkReply(i, chunks[i], |chunks[i]|, sha256(chunks[i])))
  }

  /** A document uploaded in any segmentation and streamed back is the document. */
  method UploadThenDownload(sha256: Bytes -> string, segments: seq<Bytes>, acks: Acks, engine: Engine)
    returns (output: Bytes, complete: bool)
    requires 1 <= |Concat(segments)| <= GATEWAY_MAX_BYTES && AllAcked(acks, ChunkCount(|Concat(segments)|))
    requires Serves(sha256, engine, Chunks(Concat(segments)))
    ensures complete && output == Concat(segments)
  {
    var sent, outcome := UploadBody(segments, |Concat(segments)|, false, acks);
    output, complete := Download(sha256, |sent|, engine);
    assert Data(engine, |sent|) == sent;
    ChunksPartitionBody(Concat(segments));
  }

  /** Integrity: if the digests in the replies are those of the stored chunks and the stream
      completes, then the output is the document or two distinct chunks share a digest. */
  lemma {:induction false} CompleteStreamIsIntact(sha256: Bytes -> string, engine: Engine, chunks: seq<Bytes>, n: nat)
    returns (x: Bytes, y: Bytes)
    requires n <= |chunks|
    requires forall i | 0 <= i < n ::
               engine(i).Some? && Intact(sha256, engine(i), i) && engine(i).value.sha256 == sha256(chunks[i])
    ensures Concat(Data(engine, n)) == Concat(chunks[..n]) || (x != y && sha256(x) == sha256(y))
  {
    x, y := [], [];
    if n > 0 {
      x, y := engine(n - 1).value.data, chunks[n - 1];
      if x == y {
        x, y := CompleteStreamIsIntact(sha256, engine, chunks, n - 1);
        assert Data(engine, n)[..n - 1] == Data(engine, n - 1);
        assert chunks[..n][..n - 1] == chunks[..n - 1];
      }
    }
  }
}
