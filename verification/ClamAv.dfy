/**
  The stream to the malware scanner and its reply (backend/src/files/malware/clamav-malware-scanner.ts).
  The receiving side of the INSTREAM format is written down independently, as the daemon reads it.
*/
module ClamAv {
  import opened Common

  const CHUNK_SIZE: nat := 64 * 1024
  const MAX_RESPONSE: nat := 16 * 1024

  type Byte = b: int | 0 <= b < 256

  type Bytes = seq<Byte>

  /** `zINSTREAM` and its zero byte. */
  const COMMAND: Bytes := [0x7A, 0x49, 0x4E, 0x53, 0x54, 0x52, 0x45, 0x41, 0x4D, 0x00]

  function Concat(parts: seq<Bytes>): Bytes
    decreases |parts|
  {
    if parts == [] then [] else parts[0] + Concat(parts[1..])
  }

  lemma {:induction false} ConcatSnoc(parts: seq<Bytes>, last: Bytes)
    ensures Concat(parts + [last]) == Concat(parts) + last
    decreases |parts|
  {
    if parts == [] {
      assert ([last])[1..] == [];
    } else {
      assert (parts + [last])[1..] == parts[1..] + [last];
      ConcatSnoc(parts[1..], last);
    }
  }

  // ---------------------------------------------------------------- the request

  /** Four bytes, most significant first. */
  function BigEndian(n: nat): (r: Bytes)
    requires n < 0x1_0000_0000
    ensures |r| == 4
  {
    [n / 0x100_0000, n / 0x1_0000 % 0x100, n / 0x100 % 0x100, n % 0x100]
  }

  function Length(s: Bytes): nat
    requires |s| >= 4
  {
    s[0] as int * 0x100_0000 + s[1] as int * 0x1_0000 + s[2] as int * 0x100 + s[3] as int
  }

  /** The body cut into pieces of the chunk size, the last one possibly shorter. */
  function Chunks(body: Bytes): seq<Bytes>
    decreases |body|
  {
    if body == [] then []
    else [body[..Min(|body|, CHUNK_SIZE)]] + Chunks(body[Min(|body|, CHUNK_SIZE)..])
  }

  function Frame(chunk: Bytes): Bytes
    requires |chunk| <= CHUNK_SIZE
  {
    BigEndian(|chunk|) + chunk
  }

  const TERMINATOR: Bytes := [0, 0, 0, 0]

  // ---------------------------------------------------------------- what the daemon reads

  datatype Decoded = Decoded(chunks: seq<Bytes>, rest: Bytes)

  /** Chunks up to a zero length, and what follows it; nothing if the stream stops before. */
  function DecodeChunks(s: Bytes): Option<Decoded>
    decreases |s|
  {
    if |s| < 4 then None
    else if Length(s) == 0 then Some(Decoded([], s[4..]))
    else if |s| < 4 + Length(s) then None
    else
      var d := DecodeChunks(s[4 + Length(s)..]);
      if d.None? then None else Some(Decoded([s[4..4 + Length(s)]] + d.value.chunks, d.value.rest))
  }

  function Decode(s: Bytes): Option<Decoded> {
    if |COMMAND| <= |s| && s[..|COMMAND|] == COMMAND then DecodeChunks(s[|COMMAND|..]) else None
  }

  // ---------------------------------------------------------------- the writer

  /** The bytes of the frames, given the chunks. */
  function Frames(chunks: seq<Bytes>): Bytes
    requires forall c :: c in chunks ==> |c| <= CHUNK_SIZE
    decreases |chunks|
  {
    if chunks == [] then [] else Frame(chunks[0]) + Frames(chunks[1..])
  }

  lemma {:induction false} ChunksPartition(body: Bytes)
    ensures Concat(Chunks(body)) == body
    ensures forall c :: c in Chunks(body) ==> 1 <= |c| <= 65536
    ensures forall i :: 0 <= i < |Chunks(body)| - 1 ==> |Chunks(body)[i]| == 65536
    decreases |body|
  {
    if body != [] {
      var n := Min(|body|, CHUNK_SIZE);
      var first, rest := body[..n], Chunks(body[n..]);
      ChunksPartition(body[n..]);
      var all := Chunks(body);
      assert all == [first] + rest && all[1..] == rest && body == first + body[n..];
      forall i | 0 <= i < |all| - 1 ensures |all[i]| == CHUNK_SIZE {
        if i > 0 { assert all[i] == rest[i - 1]; }
      }
    }
  }

  function Request(body: Bytes): Bytes {
    ChunksPartition(body);
    COMMAND + Frames(Chunks(body)) + TERMINATOR
  }

  /** The frames of what lies from `offset` on. */
  function FramesFrom(body: Bytes, offset: nat): Bytes
    requires offset <= |body|
  {
    ChunksPartition(body[offset..]);
    Frames(Chunks(body[offset..]))
  }

  lemma NextFrame(body: Bytes, offset: nat, next: nat)
    requires offset < |body| && next == Min(|body|, offset + CHUNK_SIZE)
    ensures FramesFrom(body, offset) == Frame(body[offset..next]) + FramesFrom(body, next)
  {
  }

  lemma Associate(a: Bytes, b: Bytes, c: Bytes)
    ensures a + (b + c) == (a + b) + c
  {
  }

  /** `writeRequest`: the buffers written to the socket, in order. */
  method WriteRequest(body: Bytes) returns (writes: seq<Bytes>)
    ensures Concat(writes) == Request(body)
  {
    writes := [COMMAND];
    var offset := 0;
    assert body[0..] == body && writes[1..] == [];
    ghost var whole := COMMAND + FramesFrom(body, 0);
    while offset < |body|
      invariant 0 <= offset <= |body|
      invariant Concat(writes) + FramesFrom(body, offset) == whole
      decreases |body| - offset
    {
      var next := Min(|body|, offset + CHUNK_SIZE);
      var frame := Frame(body[offset..next]);
      NextFrame(body, offset, next);
      ConcatSnoc(writes, frame);
      Associate(Concat(writes), frame, FramesFrom(body, next));
      writes := writes + [frame];
      offset := next;
    }
    assert FramesFrom(body, |body|) == [];
    ConcatSnoc(writes, TERMINATOR);
    writes := writes + [TERMINATOR];
  }

  // ---------------------------------------------------------------- round trip

  lemma DecodeOneFrame(chunk: Bytes, tail: Bytes)
    requires 1 <= |chunk| <= CHUNK_SIZE
    ensures var s := Frame(chunk) + tail;
            |s| >= 4 + |chunk| && Length(s) == |chunk| && s[4..4 + |chunk|] == chunk && s[4 + |chunk|..] == tail
  {
  }

  lemma {:induction false} DecodeFrames(chunks: seq<Bytes>, tail: Bytes)
    requires forall c :: c in chunks ==> 1 <= |c| <= CHUNK_SIZE
    ensures DecodeChunks(Frames(chunks) + TERMINATOR + tail) == Some(Decoded(chunks, tail))
    decreases |chunks|
  {
    if chunks == [] {
      var s := TERMINATOR + tail;
      assert Frames(chunks) + TERMINATOR + tail == s;
      assert Length(s) == 0 && s[4..] == tail;
    } else {
      var after := Frames(chunks[1..]) + TERMINATOR + tail;
      var s := Frame(chunks[0]) + after;
      assert Frames(chunks) + TERMINATOR + tail == s;
      assert chunks[0] in chunks;
      DecodeOneFrame(chunks[0], after);
      DecodeFrames(chunks[1..], tail);
      assert [chunks[0]] + chunks[1..] == chunks;
    }
  }

  /**
    The daemon reads back exactly the body, in non-empty chunks of at most 64 KiB, and the zero
    length stands only at the end of the request: whatever follows the request is left over.
  */
  lemma RequestRoundTrip(body: Bytes, tail: Bytes)
    ensures var d := Decode(Request(body) + tail);
            && d.Some? && Concat(d.value.chunks) == body && d.value.rest == tail
            && (forall c :: c in d.value.chunks ==> 1 <= |c| <= CHUNK_SIZE)
  {
    ChunksPartition(body);
    var payload := Frames(Chunks(body)) + TERMINATOR + tail;
    var s := Request(body) + tail;
    assert s == COMMAND + payload;
    assert s[..|COMMAND|] == COMMAND && s[|COMMAND|..] == payload;
    DecodeFrames(Chunks(body), tail);
  }

  /** No request is the beginning of another's. */
  lemma RequestsArePrefixFree(a: Bytes, b: Bytes)
    requires Request(a) <= Request(b)
    ensures a == b
  {
    var tail := Request(b)[|Request(a)|..];
    assert Request(b) == Request(a) + tail && Request(b) == Request(b) + [];
    RequestRoundTrip(a, tail);
    RequestRoundTrip(b, []);
  }
}
