/** Snapshot transfer: run-length compressed chunks, served by offset and reassembled. */
module Snapshot {
  import opened Paqus

  newtype byte = x: int | 0 <= x < 256

  const SNAPSHOT_CHUNK_SIZE: nat := 4 * 1024 * 1024
  const MAX_FAST_SYNC_BUNDLE_SIZE: nat := 300 * 1024 * 1024

  datatype Compression = Plain | Rle

  // ---- Compression ----

  /** Length of the leading run of `value`, counted up to `cap`. */
  function Run(bytes: seq<byte>, value: byte, cap: nat): (n: nat)
    ensures n <= cap && n <= |bytes|
    ensures forall i :: 0 <= i < n ==> bytes[i] == value
  {
    if bytes == [] || cap == 0 || bytes[0] != value then 0
    else 1 + Run(bytes[1..], value, cap - 1)
  }

  /** The count and value pairs of the run-length encoding. */
  function Encode(bytes: seq<byte>): (pairs: seq<byte>)
    ensures |pairs| % 2 == 0
    decreases |bytes|
  {
    if bytes == [] then [] else
    var n := 1 + Run(bytes[1..], bytes[0], 254);
    [n as byte, bytes[0]] + Encode(bytes[n..])
  }

  function Repeat(value: byte, n: nat): (s: seq<byte>)
    ensures |s| == n
  {
    seq(n, _ => value)
  }

  /** What a sequence of pairs expands to. */
  function Expand(pairs: seq<byte>): seq<byte>
    requires |pairs| % 2 == 0
    decreases |pairs|
  {
    if pairs == [] then [] else Repeat(pairs[1], pairs[0] as nat) + Expand(pairs[2..])
  }

  ghost predicate CountsPositive(pairs: seq<byte>) {
    forall i :: 0 <= i < |pairs| && i % 2 == 0 ==> pairs[i] > 0
  }

  function Compress(bytes: seq<byte>): (Compression, seq<byte>) {
    if |Encode(bytes)| < |bytes| then (Rle, Encode(bytes)) else (Plain, bytes)
  }

  method CompressChunk(bytes: seq<byte>) returns (compression: Compression, out: seq<byte>)
    ensures (compression, out) == Compress(bytes)
    ensures |out| <= |bytes|
  {
    hide Encode, Run;
    var encoded: seq<byte> := [];
    var index := 0;
    assert bytes[0..] == bytes;
    while index < |bytes|
      invariant 0 <= index <= |bytes|
      invariant encoded + Encode(bytes[index..]) == Encode(bytes)
    {
      var count := RunLength(bytes, index);
      EncodeUnfolds(bytes, index, count);
      encoded := encoded + [count as byte, bytes[index]];
      index := index + count;
    }
    EncodeEnds(bytes);
    assert encoded + [] == encoded;
    if |encoded| < |bytes| {
      return Rle, encoded;
    }
    compression, out := Plain, bytes;
  }

  lemma EncodeUnfolds(bytes: seq<byte>, index: nat, count: nat)
    requires index < |bytes| && count == 1 + Run(bytes[index + 1..], bytes[index], 254)
    ensures count <= 255 && index + count <= |bytes|
    ensures Encode(bytes[index..]) == [count as byte, bytes[index]] + Encode(bytes[index + count..])
  {
    assert bytes[index..][1..] == bytes[index + 1..];
    assert bytes[index..][count..] == bytes[index + count..];
  }

  lemma EncodeEnds(bytes: seq<byte>)
    ensures Encode(bytes[|bytes|..]) == []
  {
  }

  method RunLength(bytes: seq<byte>, index: nat) returns (count: nat)
    requires index < |bytes|
    ensures count == 1 + Run(bytes[index + 1..], bytes[index], 254)
  {
    var value := bytes[index];
    count := 1;
    while index + count < |bytes| && bytes[index + count] == value && count < 255
      invariant 1 <= count <= 255 && index + count <= |bytes|
      invariant count - 1 + Run(bytes[index + count..], value, 255 - count) == Run(bytes[index + 1..], value, 254)
    {
      assert bytes[index + count..][1..] == bytes[index + count + 1..];
      count := count + 1;
    }
  }

  // ---- Decompression ----

  /** Exactly the payloads a decoder accepts for a stated length. */
  ghost predicate Accepted(compression: Compression, bytes: seq<byte>, expected: nat) {
    && expected <= SNAPSHOT_CHUNK_SIZE
    && match compression
       case Plain => |bytes| == expected
       case Rle => |bytes| % 2 == 0 && CountsPositive(bytes) && |Expand(bytes)| == expected
  }

  function Payload(compression: Compression, bytes: seq<byte>): seq<byte> {
    if compression == Plain || |bytes| % 2 != 0 then bytes else Expand(bytes)
  }

  method DecompressChunk(compression: Compression, bytes: seq<byte>, expected: nat)
    returns (decoded: Option<seq<byte>>)
    ensures decoded.Some? <==> Accepted(compression, bytes, expected)
    ensures decoded.Some? ==> decoded.value == Payload(compression, bytes) && |decoded.value| == expected
  {
    if expected > SNAPSHOT_CHUNK_SIZE {
      return None;
    }
    if compression == Plain {
      if |bytes| != expected {
        return None;
      }
      return Some(bytes);
    }
    if |bytes| % 2 != 0 {
      return None;
    }
    var out := [];
    var i := 0;
    while i < |bytes|
      invariant 0 <= i <= |bytes| && i % 2 == 0
      invariant out + Expand(bytes[i..]) == Expand(bytes)
      invariant |out| <= expected
      invariant forall k :: 0 <= k < i && k % 2 == 0 ==> bytes[k] > 0
    {
      var count := bytes[i] as nat;
      assert bytes[i..][2..] == bytes[i + 2..];
      assert bytes[i..][0] == bytes[i] && bytes[i..][1] == bytes[i + 1];
      if count == 0 || |out| + count > expected {
        return None;
      }
      out := out + Repeat(bytes[i + 1], count);
      i := i + 2;
    }
    if |out| != expected {
      return None;
    }
    decoded := Some(out);
  }

  lemma {:induction false} EncodeExpands(bytes: seq<byte>)
    ensures Expand(Encode(bytes)) == bytes && CountsPositive(Encode(bytes))
    decreases |bytes|
  {
    hide Run, CountsPositive;
    if bytes == [] {
      NothingPositive();
    } else {
      var n := 1 + Run(bytes[1..], bytes[0], 254);
      EncodeExpands(bytes[n..]);
      var pairs, tail := Encode(bytes), Encode(bytes[n..]);
      assert pairs == [n as byte, bytes[0]] + tail;
      assert pairs[2..] == tail;
      PositiveAfter(pairs);
      RunRepeats(bytes, n);
    }
  }

  lemma NothingPositive()
    ensures CountsPositive([])
  {
  }

  lemma RunRepeats(bytes: seq<byte>, n: nat)
    requires 0 < n <= |bytes| && forall i :: 0 <= i < n - 1 ==> bytes[1..][i] == bytes[0]
    ensures Repeat(bytes[0], n) == bytes[..n]
  {
    forall i | 0 <= i < n ensures bytes[i] == bytes[0] {
      if i > 0 { assert bytes[i] == bytes[1..][i - 1]; }
    }
  }

  lemma PositiveAfter(pairs: seq<byte>)
    requires |pairs| >= 2 && pairs[0] > 0 && CountsPositive(pairs[2..])
    ensures CountsPositive(pairs)
  {
    forall i | 0 <= i < |pairs| && i % 2 == 0 ensures pairs[i] > 0 {
      if i >= 2 { assert pairs[i] == pairs[2..][i - 2] && (i - 2) % 2 == 0; }
    }
  }

  // ---- No encoding is shorter ----

  /** The run is as long as it can be. */
  lemma {:induction false} RunIsLongest(bytes: seq<byte>, value: byte, cap: nat)
    ensures
      var n := Run(bytes, value, cap);
      n == cap || n == |bytes| || bytes[n] != value
  {
    if bytes != [] && cap > 0 && bytes[0] == value {
      RunIsLongest(bytes[1..], value, cap - 1);
    }
  }

  /** The leading run of nonempty `bytes`, as the encoder takes it. */
  function Lead(bytes: seq<byte>): (n: nat)
    requires bytes != []
    ensures 1 <= n <= 255 && n <= |bytes|
    ensures forall i :: 0 <= i < n ==> bytes[i] == bytes[0]
  {
    var n := 1 + Run(bytes[1..], bytes[0], 254);
    assert forall i :: 1 <= i < n ==> bytes[i] == bytes[1..][i - 1];
    n
  }

  lemma LeadIsLongest(bytes: seq<byte>, k: nat)
    requires bytes != [] && k <= 255 && k <= |bytes| && forall i :: 0 <= i < k ==> bytes[i] == bytes[0]
    ensures k <= Lead(bytes)
  {
    RunIsLongest(bytes[1..], bytes[0], 254);
    assert forall i :: 1 <= i < |bytes| ==> bytes[i] == bytes[1..][i - 1];
  }

  lemma EncodesLead(bytes: seq<byte>)
    requires bytes != []
    ensures |Encode(bytes)| == 2 + |Encode(bytes[Lead(bytes)..])|
  {
  }

  /** Dropping the first byte never makes the encoding longer. */
  lemma {:induction false} DropFirst(bytes: seq<byte>)
    requires bytes != []
    ensures |Encode(bytes[1..])| <= |Encode(bytes)|
    decreases |bytes|
  {
    hide Encode, Lead;
    var rest, n := bytes[1..], Lead(bytes);
    EncodesLead(bytes);
    if n == 1 {
      assert bytes[n..] == rest;
    } else {
      var m := Lead(rest);
      EncodesLead(rest);
      LeadIsLongest(rest, n - 1);
      assert rest[m..] == bytes[m + 1..];
      DropMore(bytes, n, m + 1);
    }
  }

  lemma {:induction false} DropMore(bytes: seq<byte>, a: nat, b: nat)
    requires 0 < a <= b <= |bytes|
    ensures |Encode(bytes[b..])| <= |Encode(bytes[a..])|
    decreases |bytes|, b
  {
    hide Encode;
    if a < b {
      DropMore(bytes, a, b - 1);
      DropFirst(bytes[b - 1..]);
      assert bytes[b - 1..][1..] == bytes[b..];
    }
  }

  /** No pairs that expand to the bytes are fewer than the encoder's. */
  lemma {:induction false} EncodeIsShortest(bytes: seq<byte>, pairs: seq<byte>)
    requires |pairs| % 2 == 0 && Expand(pairs) == bytes
    ensures |Encode(bytes)| <= |pairs|
    decreases |pairs|
  {
    hide Encode, Lead;
    if bytes == [] {
      assert Encode([]) == [] by { EncodeNothing(); }
    } else {
      var k, rest := pairs[0] as nat, pairs[2..];
      assert Expand(pairs) == Repeat(pairs[1], k) + Expand(rest);
      assert bytes[k..] == Expand(rest);
      EncodeIsShortest(bytes[k..], rest);
      if k == 0 {
        assert bytes[k..] == bytes;
      } else {
        assert forall i :: 0 <= i < k ==> bytes[i] == Repeat(pairs[1], k)[i] == pairs[1];
        LeadIsLongest(bytes, k);
        EncodesLead(bytes);
        DropMore(bytes, k, Lead(bytes));
      }
    }
  }

  lemma EncodeNothing()
    ensures Encode([]) == []
  {
  }

  /** A chunk goes out compressed exactly when some run-length encoding of it is shorter than the chunk. */
  lemma CompressedIff(bytes: seq<byte>)
    ensures Compress(bytes).0 == Rle <==>
      exists pairs: seq<byte> :: |pairs| % 2 == 0 && |pairs| < |bytes| && Expand(pairs) == bytes
  {
    hide Encode, Expand;
    EncodeExpands(bytes);
    forall pairs: seq<byte> | |pairs| % 2 == 0 && |pairs| < |bytes| && Expand(pairs) == bytes
      ensures |Encode(bytes)| < |bytes|
    {
      EncodeIsShortest(bytes, pairs);
    }
  }

  /** Decompression undoes compression for every chunk within the limit, and compression never
      makes a chunk longer. */
  lemma CompressionRoundTrips(bytes: seq<byte>)
    requires |bytes| <= SNAPSHOT_CHUNK_SIZE
    ensures
      var (compression, out) := Compress(bytes);
      && Accepted(compression, out, |bytes|) && Payload(compression, out) == bytes
      && |out| <= |bytes| && (bytes != [] ==> out != [])
  {
    EncodeExpands(bytes);
  }

  // ---- Serving ----

  datatype Tip = Tip(height: nat, hash: Hash)

  datatype Reply =
    | Reject
    | Chunk(tip: Tip, offset: nat, compression: Compression, uncompressedLength: nat, bytes: seq<byte>)

  /** The serving side of a chunk request, for a node at `current` holding `snapshot`. */
  function ServeChunk(current: Tip, snapshot: seq<byte>, asked: Tip, offset: nat, length: nat): Reply {
    if length == 0 || length > SNAPSHOT_CHUNK_SIZE || current != asked then Reject
    else if offset >= |snapshot| then Reject
    else
      var chunk := snapshot[offset..Min(offset + length, |snapshot|)];
      var (compression, bytes) := Compress(chunk);
      Chunk(asked, offset, compression, |chunk|, bytes)
  }

  /** A chunk request is answered exactly when it asks for the current tip, for a length within bounds and
      from an offset inside the snapshot; the answer then carries the bytes from there, as many as asked
      or as there are. */
  lemma ServesExactly(current: Tip, snapshot: seq<byte>, asked: Tip, offset: nat, length: nat)
    ensures
      var reply := ServeChunk(current, snapshot, asked, offset, length);
      && (reply.Chunk? <==> 0 < length <= 4 * 1024 * 1024 && current == asked && offset < |snapshot|)
      && (reply.Chunk? ==>
           && reply.tip == asked && reply.offset == offset
           && reply.uncompressedLength == Min(length, |snapshot| - offset)
           && Accepted(reply.compression, reply.bytes, reply.uncompressedLength)
           && Payload(reply.compression, reply.bytes) == snapshot[offset..offset + reply.uncompressedLength])
  {
    hide Compress, Accepted, Payload;
    if ServeChunk(current, snapshot, asked, offset, length).Chunk? {
      CompressionRoundTrips(snapshot[offset..Min(offset + length, |snapshot|)]);
    }
  }

  // ---- Downloading ----

  datatype Manifest = Manifest(tip: Tip, size: nat, contentHash: Hash, chunkSize: nat)

  datatype DownloadError = InvalidManifest | InvalidChunk | HashMismatch

  predicate ManifestOk(m: Manifest, wanted: Tip) {
    && m.tip == wanted
    && 0 < m.size <= MAX_FAST_SYNC_BUNDLE_SIZE
    && 0 < m.chunkSize <= SNAPSHOT_CHUNK_SIZE
  }

  /** `peer` answers as a server does whose tip did not change. */
  ghost predicate ServedBy(peer: (nat, nat) -> Reply, tip: Tip, snapshot: seq<byte>) {
    forall offset: nat, length: nat :: peer(offset, length) == ServeChunk(tip, snapshot, tip, offset, length)
  }

  /** The peer's answer at `offset` passes: the right tip and place, as many bytes as asked for, in a form
      that expands to them. */
  ghost predicate GoodChunk(m: Manifest, wanted: Tip, peer: (nat, nat) -> Reply, offset: nat)
    requires offset < m.size
  {
    var length: nat := Min(m.size - offset, m.chunkSize);
    var reply := peer(offset, length);
    && reply.Chunk? && reply.tip == wanted && reply.offset == offset && reply.bytes != []
    && reply.uncompressedLength == length && |reply.bytes| <= length
    && Accepted(reply.compression, reply.bytes, length)
  }

  /** The client loop. Whatever the peer answers, an accepted snapshot has the promised size and
      content hash; against an unchanged server the result is its snapshot. */
  method DownloadSnapshot(m: Manifest, wanted: Tip, peer: (nat, nat) -> Reply, digest: seq<byte> -> Hash,
      ghost served: seq<byte>)
    returns (result: Result<seq<byte>, DownloadError>)
    ensures result == Err(InvalidManifest) <==>
      !(m.tip == wanted && 0 < m.size <= 300 * 1024 * 1024 && 0 < m.chunkSize <= 4 * 1024 * 1024)
    ensures result.Ok? ==> ManifestOk(m, wanted) && |result.value| == m.size && digest(result.value) == m.contentHash
    ensures result == Err(InvalidChunk) ==> exists offset: nat :: offset < m.size && !GoodChunk(m, wanted, peer, offset)
    ensures result == Err(HashMismatch) ==> exists data: seq<byte> :: |data| == m.size && digest(data) != m.contentHash
    ensures ManifestOk(m, wanted) && m.size == |served| && m.contentHash == digest(served) ==>
      (ServedBy(peer, wanted, served) ==> result == Ok(served))
  {
    if !ManifestOk(m, wanted) {
      return Err(InvalidManifest);
    }
    ghost var faithful := m.size == |served| && ServedBy(peer, wanted, served);
    var snapshot: seq<byte> := [];
    while |snapshot| < m.size
      invariant |snapshot| <= m.size
      invariant faithful ==> snapshot == served[..|snapshot|]
      decreases m.size - |snapshot|
    {
      var offset := |snapshot|;
      var length: nat := Min(m.size - offset, m.chunkSize);
      var reply := peer(offset, length);
      if faithful {
        ServedChunkAccepted(wanted, served, offset, length);
      }
      if !(reply.Chunk? && reply.tip == wanted && reply.offset == offset && reply.bytes != []
           && reply.uncompressedLength == length && |reply.bytes| <= length) {
        assert !GoodChunk(m, wanted, peer, offset);
        return Err(InvalidChunk);
      }
      var decoded := DecompressChunk(reply.compression, reply.bytes, length);
      if decoded.None? {
        assert !GoodChunk(m, wanted, peer, offset);
        return Err(InvalidChunk);
      }
      snapshot := snapshot + decoded.value;
    }
    assert faithful ==> snapshot == served;
    if |snapshot| != m.size || digest(snapshot) != m.contentHash {
      return Err(HashMismatch);
    }
    result := Ok(snapshot);
  }

  /** A served chunk passes every check of the client and carries the bytes at its offset. */
  lemma ServedChunkAccepted(tip: Tip, served: seq<byte>, offset: nat, length: nat)
    requires 0 < length <= SNAPSHOT_CHUNK_SIZE && offset + length <= |served|
    ensures
      var reply := ServeChunk(tip, served, tip, offset, length);
      && reply.Chunk? && reply.tip == tip && reply.offset == offset && reply.bytes != []
      && reply.uncompressedLength == length && |reply.bytes| <= length
      && Accepted(reply.compression, reply.bytes, length)
      && served[..offset] + Payload(reply.compression, reply.bytes) == served[..offset + length]
  {
    hide Compress, Accepted, Payload;
    var chunk := served[offset..offset + length];
    CompressionRoundTrips(chunk);
    assert served[..offset] + chunk == served[..offset + length];
  }
}
