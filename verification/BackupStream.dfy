/** The encrypting and decrypting loops of the envelope (backup/envelope.go). */
module BackupStream {

  import opened Wrappers
  import opened BackupBytes
  import opened BackupEnvelope

  /** deriveBackupChunkNonce: the index is folded into the last eight bytes. */
  method DeriveChunkNonce(base: Bytes, index: nat) returns (nonce: array<Byte>)
    requires |base| == NONCE && index < UINT64
    ensures fresh(nonce) && nonce[..] == ChunkNonce(base, index)
  {
    nonce := new Byte[NONCE](i requires 0 <= i < NONCE => base[i]);
    var indexBytes := BigEndian(index, 8);
    for i := 0 to 8
      invariant forall k :: 0 <= k < 4 + i ==> nonce[k] == ChunkNonce(base, index)[k]
      invariant forall k :: 4 + i <= k < NONCE ==> nonce[k] == base[k]
    {
      nonce[4 + i] := XorByte(nonce[4 + i], indexBytes[i]);
    }
  }

  /** copy(dst[at:], src). */
  method CopyInto(dst: array<Byte>, at: nat, src: Bytes)
    requires at + |src| <= dst.Length
    modifies dst
    ensures dst[..] == old(dst[..at]) + src + old(dst[at + |src|..])
  {
    for i := 0 to |src|
      invariant dst[..at] == old(dst[..at]) && dst[at + i..] == old(dst[at + i..])
      invariant dst[at..at + i] == src[..i]
    {
      dst[at + i] := src[i];
    }
    assert dst[..] == dst[..at] + dst[at..at + |src|] + dst[at + |src|..];
  }

  /** The prefix buffer, field by field at its offset. */
  method BuildPrefix(keyId: Bytes, wrapNonce: Bytes, dataNonce: Bytes, size: nat) returns (prefix: array<Byte>)
    requires |keyId| == KEY_ID && |wrapNonce| == NONCE && |dataNonce| == NONCE
    ensures fresh(prefix) && prefix[..] == Prefix(keyId, wrapNonce, dataNonce, CHUNKED, size)
  {
    prefix := new Byte[PREFIX](_ => 0);
    CopyInto(prefix, 0, MAGIC);
    prefix[8], prefix[9], prefix[10], prefix[11] := VERSION, KEY_WRAP, CHUNKED, FLAGS;
    assert prefix[..12] == MAGIC + [VERSION, KEY_WRAP, CHUNKED, FLAGS];
    CopyInto(prefix, KEY_ID_OFFSET, keyId);
    assert prefix[..28] == MAGIC + [VERSION, KEY_WRAP, CHUNKED, FLAGS] + keyId;
    CopyInto(prefix, WRAP_NONCE_OFFSET, wrapNonce);
    assert prefix[..40] == MAGIC + [VERSION, KEY_WRAP, CHUNKED, FLAGS] + keyId + wrapNonce;
    CopyInto(prefix, DATA_NONCE_OFFSET, dataNonce);
    assert prefix[..52] == MAGIC + [VERSION, KEY_WRAP, CHUNKED, FLAGS] + keyId + wrapNonce + dataNonce;
    CopyInto(prefix, SIZE_OFFSET, BigEndian(size, 8));
    assert prefix[..] == prefix[..52] + BigEndian(size, 8);
  }

  /** The outcome of an encryption that is not cancelled. Bytes after an
      announced size of zero go unnoticed. */
  function Encrypted(crypto: Crypto, key: Bytes, random: Random, source: Bytes, plaintextSize: int): Result<Bytes, Error>
    requires |crypto.digest(key)| == 32 && RandomSizes(random)
  {
    if |key| != DATA_KEY then Err(BadKey)
    else if plaintextSize < 0 || plaintextSize > MAX_PLAINTEXT then Err(TooLarge)
    else if |source| < plaintextSize then Err(ShortRead)
    else if |source| > plaintextSize > 0 then Err(SizeChanged)
    else Ok(Envelope(crypto, key, random, source[..plaintextSize]))
  }

  /** The check before each chunk of a payload of this size finds nothing. */
  ghost predicate NoneCancelled(size: nat, cancelled: nat -> bool) {
    forall i: nat :: i < NumChunks(size) ==> !cancelled(i)
  }

  function ChunksLeft(remaining: nat): nat {
    if remaining == 0 then 0 else NumChunks(remaining)
  }

  /** The next chunk: everything that is left, or a whole chunk of it. */
  function Want(remaining: nat): (want: nat)
    ensures remaining > 0 ==> 0 < want <= remaining
  {
    if remaining < CHUNK then remaining else CHUNK
  }

  lemma OneChunkFewer(remaining: nat)
    requires remaining > 0
    ensures ChunksLeft(remaining) == 1 + ChunksLeft(remaining - Want(remaining))
  {}

  /** What the loop still has to write. */
  function Unsealed(crypto: Crypto, key: Bytes, base: Bytes, header: Bytes, rest: Bytes, index: nat): Bytes
    requires |base| == NONCE
  {
    if rest == [] then [] else SealAll(crypto, key, SealCalls(base, header, rest, index))
  }

  lemma SealOne(crypto: Crypto, key: Bytes, call: SealCall)
    ensures SealAll(crypto, key, [call]) == crypto.seal(key, call.nonce, call.text, call.aad)
  {
    assert [call][1..] == [];
  }

  lemma SealNext(crypto: Crypto, key: Bytes, base: Bytes, header: Bytes, rest: Bytes, index: nat)
    requires |base| == NONCE && rest != []
    ensures var want := if |rest| < CHUNK then |rest| else CHUNK;
            Unsealed(crypto, key, base, header, rest, index)
            == crypto.seal(key, ChunkNonce(base, index), rest[..want], ChunkAad(header, index, want == |rest|))
               + Unsealed(crypto, key, base, header, rest[want..], index + 1)
  {
    var calls := SealCalls(base, header, rest, index);
    var sealed := crypto.seal(key, calls[0].nonce, calls[0].text, calls[0].aad);
    if |rest| <= CHUNK {
      SealOne(crypto, key, calls[0]);
      assert rest[..|rest|] == rest && rest[|rest|..] == [];
      assert sealed + [] == sealed;
    } else {
      assert calls[1..] == SealCalls(base, header, rest[CHUNK..], index + 1);
    }
  }

  method WriteHeader(crypto: Crypto, key: Bytes, random: Random, size: nat) returns (header: Bytes)
    requires |crypto.digest(key)| == 32 && RandomSizes(random)
    ensures header == HeaderOf(crypto, key, random, CHUNKED, size)
  {
    var prefix := BuildPrefix(crypto.digest(key)[..KEY_ID], random.wrapNonce, random.dataNonce, size);
    var wrapped := crypto.seal(key, random.wrapNonce, random.dataKey, prefix[..]);
    header := prefix[..] + wrapped;
  }

  /** One chunk read and sealed; None when the source is too short. */
  method SealChunk(crypto: Crypto, random: Random, header: Bytes, source: Bytes, at: nat, remaining: nat, index: nat) returns (sealed: Option<Bytes>)
    requires RandomSizes(random) && at <= |source| && remaining > 0 && index < UINT64
    ensures sealed.None? <==> |source| - at < Want(remaining)
    ensures |source| - at >= remaining ==>
      sealed.Some? && Unsealed(crypto, random.dataKey, random.dataNonce, header, source[at..at + remaining], index)
      == sealed.value + Unsealed(crypto, random.dataKey, random.dataNonce, header,
                                 source[at + Want(remaining)..at + remaining], index + 1)
  {
    var want := Want(remaining);
    if |source| - at < want {
      return None;
    }
    var nonce := DeriveChunkNonce(random.dataNonce, index);
    sealed := Some(crypto.seal(random.dataKey, nonce[..], source[at..at + want], ChunkAad(header, index, want == remaining)));
    if |source| - at >= remaining {
      var rest := source[at..at + remaining];
      SealNext(crypto, random.dataKey, random.dataNonce, header, rest, index);
      assert rest[..want] == source[at..at + want] && rest[want..] == source[at + want..at + remaining];
    }
  }

  /** The sealing loop over a source of the announced size or not. */
  method SealLoop(crypto: Crypto, random: Random, header: Bytes, source: Bytes, plaintextSize: nat, cancelled: nat -> bool)
      returns (r: Result<Bytes, Error>)
    requires RandomSizes(random) && 0 < plaintextSize <= MAX_PLAINTEXT
    ensures r.Ok? ==> |source| >= plaintextSize
                      && r.value == Unsealed(crypto, random.dataKey, random.dataNonce, header, source[..plaintextSize], 0)
    ensures r.Ok? ==> NoneCancelled(plaintextSize, cancelled)
    ensures r.Err? ==> (|source| < plaintextSize && r.error == ShortRead)
                       || (r.error == Cancelled && !NoneCancelled(plaintextSize, cancelled))
  {
    var out: Bytes := [];
    var remaining: nat, chunkIndex: nat, at: nat := plaintextSize, 0, 0;
    ghost var enough := |source| >= plaintextSize;
    ghost var all := if enough then Unsealed(crypto, random.dataKey, random.dataNonce, header, source[0..plaintextSize], 0) else [];
    assert out + all == all;
    CiphertextSizeIsExact(plaintextSize);
    while remaining > 0
      invariant at + remaining == plaintextSize && at <= |source|
      invariant chunkIndex + ChunksLeft(remaining) == NumChunks(plaintextSize)
      invariant forall i :: 0 <= i < chunkIndex ==> !cancelled(i)
      invariant enough ==>
        all == out + Unsealed(crypto, random.dataKey, random.dataNonce, header, source[at..plaintextSize], chunkIndex)
    {
      OneChunkFewer(remaining);
      if cancelled(chunkIndex) {
        return Err(Cancelled);
      }
      var sealed := SealChunk(crypto, random, header, source, at, remaining, chunkIndex);
      if sealed.None? {
        return Err(ShortRead);
      }
      var want := Want(remaining);
      if enough {
        ConcatAssoc(out, sealed.value,
                    Unsealed(crypto, random.dataKey, random.dataNonce, header, source[at + want..plaintextSize], chunkIndex + 1));
      }
      out := out + sealed.value;
      remaining, chunkIndex, at := remaining - want, chunkIndex + 1, at + want;
    }
    assert out + [] == out;
    assert source[0..plaintextSize] == source[..plaintextSize];
    r := Ok(out);
  }

  lemma ConcatAssoc(a: Bytes, b: Bytes, c: Bytes)
    ensures a + (b + c) == (a + b) + c
  {}

  /** encryptBackupEnvelopeStream. */
  method EncryptStream(crypto: Crypto, key: Bytes, random: Random, source: Bytes, plaintextSize: int, cancelled: nat -> bool)
      returns (r: Result<Bytes, Error>)
    requires |crypto.digest(key)| == 32 && RandomSizes(random)
    ensures r == Encrypted(crypto, key, random, source, plaintextSize)
            || (r == Err(Cancelled) && 0 < plaintextSize <= MAX_PLAINTEXT && !NoneCancelled(plaintextSize, cancelled))
    ensures r.Ok? && plaintextSize > 0 ==> NoneCancelled(plaintextSize, cancelled)
    ensures r.Ok? ==> (|source| == plaintextSize <==> plaintextSize > 0 || source == [])
  {
    if |key| != DATA_KEY {
      return Err(BadKey);
    }
    if plaintextSize < 0 || plaintextSize > MAX_PLAINTEXT {
      return Err(TooLarge);
    }
    var header := WriteHeader(crypto, key, random, plaintextSize);
    if plaintextSize == 0 {
      var nonce := DeriveChunkNonce(random.dataNonce, 0);
      var sealed := crypto.seal(random.dataKey, nonce[..], [], ChunkAad(header, 0, true));
      assert source[..0] == [];
      SealOne(crypto, random.dataKey, SealCalls(random.dataNonce, header, [], 0)[0]);
      return Ok(header + sealed);
    }
    var sealed := SealLoop(crypto, random, header, source, plaintextSize, cancelled);
    if sealed.Err? {
      return sealed;
    }
    if |source| > plaintextSize {
      return Err(SizeChanged);
    }
    r := Ok(header + sealed.value);
  }

  // ---- decryption ----

  /** What the rest of the stream still opens to. */
  function Unopened(crypto: Crypto, key: Bytes, base: Bytes, header: Bytes, rest: Bytes, remaining: nat, index: nat): Option<Bytes>
    requires |base| == NONCE
  {
    if remaining == 0 then (if rest == [] then Some([]) else None)
    else OpenChunks(crypto, key, base, header, rest, remaining, index)
  }

  function After(out: Bytes, rest: Option<Bytes>): Option<Bytes> {
    if rest.None? then None else Some(out + rest.value)
  }

  lemma OpenNext(crypto: Crypto, key: Bytes, base: Bytes, header: Bytes, rest: Bytes, remaining: nat, index: nat)
    requires |base| == NONCE && remaining > 0
    ensures var want := if remaining < CHUNK then remaining else CHUNK;
            Unopened(crypto, key, base, header, rest, remaining, index)
            == if |rest| < want + TAG then None
               else
                 var text := crypto.unseal(key, ChunkNonce(base, index), rest[..want + TAG], ChunkAad(header, index, want == remaining));
                 if text.None? || |text.value| != want then None
                 else After(text.value, Unopened(crypto, key, base, header, rest[want + TAG..], remaining - want, index + 1))
  {
    var want := if remaining < CHUNK then remaining else CHUNK;
    if |rest| >= want + TAG && remaining <= CHUNK {
      var text := crypto.unseal(key, ChunkNonce(base, index), rest[..want + TAG], ChunkAad(header, index, true));
      if text.Some? {
        assert text.value + [] == text.value;
      }
    }
  }

  lemma OpenNextAt(crypto: Crypto, h: Opened, header: Bytes, body: Bytes, at: nat, remaining: nat, index: nat)
    requires |h.dataNonce| == NONCE && remaining > 0 && at <= |body|
    ensures var want := if remaining < CHUNK then remaining else CHUNK;
            Unopened(crypto, h.dataKey, h.dataNonce, header, body[at..], remaining, index)
            == if |body| - at < want + TAG then None
               else
                 var text := crypto.unseal(h.dataKey, ChunkNonce(h.dataNonce, index), body[at..at + want + TAG], ChunkAad(header, index, want == remaining));
                 if text.None? || |text.value| != want then None
                 else After(text.value, Unopened(crypto, h.dataKey, h.dataNonce, header, body[at + want + TAG..], remaining - want, index + 1))
  {
    var want := if remaining < CHUNK then remaining else CHUNK;
    OpenNext(crypto, h.dataKey, h.dataNonce, header, body[at..], remaining, index);
    if |body| - at >= want + TAG {
      assert body[at..][..want + TAG] == body[at..at + want + TAG] && body[at..][want + TAG..] == body[at + want + TAG..];
    }
  }

  /** One chunk read and opened; None on a short source or a failed check. */
  method OpenChunk(crypto: Crypto, h: Opened, header: Bytes, body: Bytes, at: nat, remaining: nat, index: nat) returns (plain: Option<Bytes>)
    requires |h.dataNonce| == NONCE && at <= |body| && remaining > 0 && index < UINT64
    ensures var whole := Unopened(crypto, h.dataKey, h.dataNonce, header, body[at..], remaining, index);
            if plain.None? then whole.None?
            else
              && |plain.value| == Want(remaining) && at + Want(remaining) + TAG <= |body|
              && whole == After(plain.value, Unopened(crypto, h.dataKey, h.dataNonce, header, body[at + Want(remaining) + TAG..],
                                                      remaining - Want(remaining), index + 1))
  {
    var want := Want(remaining);
    OpenNextAt(crypto, h, header, body, at, remaining, index);
    if |body| - at < want + TAG {
      return None;
    }
    var nonce := DeriveChunkNonce(h.dataNonce, index);
    plain := crypto.unseal(h.dataKey, nonce[..], body[at..at + want + TAG], ChunkAad(header, index, want == remaining));
    if plain.Some? && |plain.value| != want {
      plain := None;
    }
  }

  /** The opening loop, and the look for bytes after the last chunk. */
  method OpenLoop(crypto: Crypto, h: Opened, header: Bytes, body: Bytes, cancelled: nat -> bool) returns (r: Result<Bytes, Error>)
    requires |h.dataNonce| == NONCE && 0 < h.size <= MAX_PLAINTEXT
    ensures var chunks := OpenChunks(crypto, h.dataKey, h.dataNonce, header, body, h.size, 0);
            r == (if chunks.None? then Err(Authentication) else Ok(chunks.value))
            || (r == Err(Cancelled) && !NoneCancelled(h.size, cancelled))
    ensures r.Ok? ==> |r.value| == h.size && NoneCancelled(h.size, cancelled)
  {
    var out: Bytes := [];
    var remaining: nat, chunkIndex: nat, at: nat := h.size, 0, 0;
    ghost var all := OpenChunks(crypto, h.dataKey, h.dataNonce, header, body, h.size, 0);
    assert body[0..] == body;
    AfterNothing(all);
    CiphertextSizeIsExact(h.size);
    while remaining > 0
      invariant at <= |body| && |out| + remaining == h.size
      invariant chunkIndex + ChunksLeft(remaining) == NumChunks(h.size)
      invariant forall i :: 0 <= i < chunkIndex ==> !cancelled(i)
      invariant all == After(out, Unopened(crypto, h.dataKey, h.dataNonce, header, body[at..], remaining, chunkIndex))
    {
      OneChunkFewer(remaining);
      if cancelled(chunkIndex) {
        return Err(Cancelled);
      }
      var plain := OpenChunk(crypto, h, header, body, at, remaining, chunkIndex);
      if plain.None? {
        return Err(Authentication);
      }
      var want := Want(remaining);
      AfterAfter(out, plain.value, Unopened(crypto, h.dataKey, h.dataNonce, header, body[at + want + TAG..], remaining - want, chunkIndex + 1));
      out := out + plain.value;
      remaining, chunkIndex, at := remaining - want, chunkIndex + 1, at + want + TAG;
    }
    assert out + [] == out;
    if |body| > at {
      return Err(Authentication);
    }
    r := Ok(out);
  }

  lemma AfterNothing(rest: Option<Bytes>)
    ensures After([], rest) == rest
  {
    if rest.Some? {
      assert [] + rest.value == rest.value;
    }
  }

  lemma AfterAfter(a: Bytes, b: Bytes, rest: Option<Bytes>)
    ensures After(a, After(b, rest)) == After(a + b, rest)
  {
    if rest.Some? {
      assert a + (b + rest.value) == (a + b) + rest.value;
    }
  }

  /** What follows a header that opened. */
  method OpenPayload(crypto: Crypto, h: Opened, header: Bytes, body: Bytes, cancelled: nat -> bool) returns (r: Result<Bytes, Error>)
    requires |h.dataNonce| == NONCE && h.size <= MAX_PLAINTEXT && (h.algorithm == CHUNKED || h.algorithm == SINGLE_SHOT)
    ensures var payload := OpenBody(crypto, header, h, body);
            r == (if payload.None? then Err(Authentication) else Ok(payload.value))
            || (r == Err(Cancelled) && h.algorithm == CHUNKED && h.size > 0 && !NoneCancelled(h.size, cancelled))
    ensures r.Ok? ==> |r.value| == h.size
    ensures r.Ok? && h.algorithm == CHUNKED && h.size > 0 ==> NoneCancelled(h.size, cancelled)
  {
    if h.algorithm == SINGLE_SHOT {
      if |body| < h.size + TAG {
        return Err(Authentication);
      }
      var plain := crypto.unseal(h.dataKey, h.dataNonce, body[..h.size + TAG], header);
      if plain.None? || |plain.value| != h.size {
        return Err(Authentication);
      }
      return Ok(plain.value);
    }
    if h.size == 0 {
      if |body| < TAG {
        return Err(Authentication);
      }
      var nonce := DeriveChunkNonce(h.dataNonce, 0);
      var plain := crypto.unseal(h.dataKey, nonce[..], body[..TAG], ChunkAad(header, 0, true));
      if plain.None? || |plain.value| != 0 {
        return Err(Authentication);
      }
      return Ok([]);
    }
    r := OpenLoop(crypto, h, header, body, cancelled);
  }

  /** Chunk checks of a decryption that gets to its payload. */
  ghost predicate PayloadCancelled(h: Option<Opened>, cancelled: nat -> bool) {
    h.Some? && h.value.algorithm == CHUNKED && h.value.size > 0 && !NoneCancelled(h.value.size, cancelled)
  }

  /** decryptBackupEnvelopeStream. */
  method DecryptStream(crypto: Crypto, key: Bytes, source: Bytes, envelopeSize: int, cancelled: nat -> bool)
      returns (r: Result<Bytes, Error>, ghost h: Option<Opened>)
    requires |crypto.digest(key)| == 32
    ensures h == if |key| == DATA_KEY && HEADER <= envelopeSize <= MAX_ENVELOPE && |source| >= HEADER
                 then OpenHeader(crypto, key, source[..HEADER], envelopeSize) else None
    ensures r == Decrypted(crypto, key, source, envelopeSize) || (r == Err(Cancelled) && PayloadCancelled(h, cancelled))
    ensures r.Ok? ==> !PayloadCancelled(h, cancelled)
  {
    h := None;
    if |key| != DATA_KEY {
      return Err(BadKey), h;
    }
    if envelopeSize < HEADER || envelopeSize > MAX_ENVELOPE || |source| < HEADER {
      return Err(Authentication), h;
    }
    var checked := OpenHeader(crypto, key, source[..HEADER], envelopeSize);
    h := checked;
    if checked.None? {
      return Err(Authentication), h;
    }
    OpenedSizes(crypto, key, source[..HEADER], envelopeSize);
    r := OpenPayload(crypto, checked.value, source[..HEADER], source[HEADER..], cancelled);
  }

  lemma OpenedSizes(crypto: Crypto, key: Bytes, header: Bytes, envelopeSize: nat)
    requires |header| == HEADER && |crypto.digest(key)| == 32 && OpenHeader(crypto, key, header, envelopeSize).Some?
    ensures var h := OpenHeader(crypto, key, header, envelopeSize).value;
            |h.dataNonce| == NONCE && h.size <= MAX_PLAINTEXT && (h.algorithm == CHUNKED || h.algorithm == SINGLE_SHOT)
  {}

  // ---- whole runs ----

  /** An encryption succeeds exactly on a good key, an allowed size and a source
      of that size, or any source at all when the size is zero. */
  lemma SucceedsExactly(crypto: Crypto, key: Bytes, random: Random, source: Bytes, plaintextSize: int)
    requires |crypto.digest(key)| == 32 && RandomSizes(random)
    ensures Encrypted(crypto, key, random, source, plaintextSize).Ok?
       <==> |key| == DATA_KEY && 0 <= plaintextSize <= MAX_PLAINTEXT && (plaintextSize == 0 || |source| == plaintextSize)
    ensures Encrypted(crypto, key, random, source, plaintextSize).Ok?
        ==> (|source| == plaintextSize <==> plaintextSize > 0 || source == [])
  {}

  /** Success vouches for the announced size exactly when that size is not zero. */
  lemma SizeIsCheckedExactlyAboveZero(crypto: Crypto, key: Bytes, random: Random, plaintextSize: nat)
    requires |crypto.digest(key)| == 32 && RandomSizes(random) && |key| == DATA_KEY && plaintextSize <= MAX_PLAINTEXT
    ensures (forall source: Bytes :: Encrypted(crypto, key, random, source, plaintextSize).Ok? ==> |source| == plaintextSize)
       <==> plaintextSize > 0
  {
    if plaintextSize == 0 {
      EmptySizeHidesBytes(crypto, key, random);
    }
  }

  /** One byte announced as none: the envelope is that of the empty payload. */
  lemma EmptySizeHidesBytes(crypto: Crypto, key: Bytes, random: Random)
    requires |crypto.digest(key)| == 32 && RandomSizes(random) && |key| == DATA_KEY
    ensures var source: Bytes := [0];
            && Encrypted(crypto, key, random, source, 0) == Encrypted(crypto, key, random, [], 0)
            && Encrypted(crypto, key, random, source, 0).Ok? && |source| != 0
  {
    var source: Bytes := [0];
    assert source[..0] == [];
  }

  lemma WholeSource(crypto: Crypto, key: Bytes, random: Random, source: Bytes, plaintextSize: int)
    requires |crypto.digest(key)| == 32 && RandomSizes(random)
    requires Encrypted(crypto, key, random, source, plaintextSize).Ok?
    ensures 0 <= plaintextSize <= |source|
    ensures source[..plaintextSize] == source <==> plaintextSize > 0 || source == []
  {}

  /** Whatever an encryption writes without error a decryption gives back, and
      that is the whole source except behind an announced size of zero. */
  lemma StreamRoundTrip(crypto: Crypto, key: Bytes, random: Random, source: Bytes, plaintextSize: int)
    requires Lawful(crypto) && RandomSizes(random)
    requires Encrypted(crypto, key, random, source, plaintextSize).Ok?
    ensures var envelope := Encrypted(crypto, key, random, source, plaintextSize).value;
            && |envelope| == HEADER + ChunkedCiphertextSize(plaintextSize) <= MAX_ENVELOPE
            && Decrypted(crypto, key, envelope, |envelope|) == Ok(source[..plaintextSize])
            && (source[..plaintextSize] == source <==> plaintextSize > 0 || source == [])
  {
    WholeSource(crypto, key, random, source, plaintextSize);
    EnvelopeSize(crypto, key, random, source[..plaintextSize]);
    RoundTrip(crypto, key, random, source[..plaintextSize]);
  }
}
