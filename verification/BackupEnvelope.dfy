/** The encrypted backup envelope (backup/envelope.go). */
module BackupEnvelope {

  import opened Wrappers
  import opened BackupBytes

  const MAGIC: Bytes := [77, 79, 69, 66, 65, 75, 48, 49]
  const VERSION: Byte := 1
  const KEY_WRAP: Byte := 1
  const SINGLE_SHOT: Byte := 1
  const CHUNKED: Byte := 2
  const FLAGS: Byte := 0

  const CHUNK: nat := 0x10_0000
  const KEY_ID := 16
  const NONCE := 12
  const DATA_KEY := 32
  const TAG := 16

  const KEY_ID_OFFSET := 12
  const WRAP_NONCE_OFFSET := 28
  const DATA_NONCE_OFFSET := 40
  const SIZE_OFFSET := 52
  const PREFIX := 60
  const HEADER := 108

  const MAX_PLAINTEXT: nat := 0x1000_0000
  const MAX_CHUNKS: nat := (MAX_PLAINTEXT + CHUNK - 1) / CHUNK
  const MAX_ENVELOPE: nat := HEADER + MAX_PLAINTEXT + MAX_CHUNKS * TAG

  datatype Error = BadKey | TooLarge | ShortRead | SizeChanged | Cancelled | Authentication

  /** AES-256-GCM and SHA-256: seal(key, nonce, plaintext, aad) and its inverse. */
  datatype Crypto = Crypto(
    seal: (Bytes, Bytes, Bytes, Bytes) -> Bytes,
    unseal: (Bytes, Bytes, Bytes, Bytes) -> Option<Bytes>,
    digest: Bytes -> Bytes)

  /** What is assumed of the cryptography: opening inverts sealing, nothing but
      a sealed text opens, and the lengths. */
  ghost predicate Lawful(crypto: Crypto) {
    && (forall k, n, p, a :: |crypto.seal(k, n, p, a)| == |p| + TAG)
    && (forall k, n, p, a :: crypto.unseal(k, n, crypto.seal(k, n, p, a), a) == Some(p))
    && (forall k, n, c, a :: crypto.unseal(k, n, c, a).Some? ==> crypto.seal(k, n, crypto.unseal(k, n, c, a).value, a) == c)
    && (forall k :: |crypto.digest(k)| == 32)
  }

  // ---- sizes ----

  /** chunkedCiphertextSize, in 64-bit words. */
  function ChunkedCiphertextSize(plaintextSize: nat): nat
    requires plaintextSize < UINT64
  {
    if plaintextSize == 0 then TAG
    else
      var chunks := ((plaintextSize + CHUNK - 1) % UINT64) / CHUNK;
      (plaintextSize + (chunks * TAG) % UINT64) % UINT64
  }

  /** How many texts are sealed. */
  function NumChunks(plaintextSize: nat): nat {
    if plaintextSize == 0 then 1 else (plaintextSize + CHUNK - 1) / CHUNK
  }

  /** No step of the size arithmetic overflows for an allowed payload. */
  lemma CiphertextSizeIsExact(plaintextSize: nat)
    requires plaintextSize <= MAX_PLAINTEXT
    ensures ChunkedCiphertextSize(plaintextSize) == plaintextSize + TAG * NumChunks(plaintextSize)
    ensures NumChunks(plaintextSize) <= MAX_CHUNKS == 256
    ensures HEADER + ChunkedCiphertextSize(plaintextSize) <= MAX_ENVELOPE < 0x8000_0000
  {}

  // ---- chunk nonces and associated data ----

  function ChunkNonce(base: Bytes, index: nat): (r: Bytes)
    requires |base| == NONCE
    ensures |r| == NONCE
  {
    seq(NONCE, i requires 0 <= i < NONCE => if i < 4 then base[i] else XorByte(base[i], BigEndian(index, 8)[i - 4]))
  }

  function ChunkAad(header: Bytes, index: nat, final: bool): Bytes {
    header + BigEndian(index, 8) + [if final then 1 else 0]
  }

  /** Chunk nonces of one envelope never repeat, for any two 64-bit indices. */
  lemma ChunkNonceInjective(base: Bytes, i: nat, j: nat)
    requires |base| == NONCE && i < UINT64 && j < UINT64
    requires ChunkNonce(base, i) == ChunkNonce(base, j)
    ensures i == j
  {
    var a, b := BigEndian(i, 8), BigEndian(j, 8);
    forall k | 0 <= k < 8 ensures a[k] == b[k] {
      assert ChunkNonce(base, i)[k + 4] == ChunkNonce(base, j)[k + 4];
      assert Pow2(8) == 256;
      XorCancels(base[k + 4], a[k], b[k], 8);
    }
    Uint64Width();
    FromBigEndianInverts(i, 8);
    FromBigEndianInverts(j, 8);
    assert a == b;
  }

  // ---- sealing ----

  /** One call of the payload cipher. */
  datatype SealCall = SealCall(nonce: Bytes, aad: Bytes, text: Bytes, final: bool)

  /** The calls of one encryption, from chunk index on. */
  function SealCalls(base: Bytes, header: Bytes, text: Bytes, index: nat): seq<SealCall>
    requires |base| == NONCE
    decreases |text|
  {
    if |text| <= CHUNK then [SealCall(ChunkNonce(base, index), ChunkAad(header, index, true), text, true)]
    else [SealCall(ChunkNonce(base, index), ChunkAad(header, index, false), text[..CHUNK], false)]
         + SealCalls(base, header, text[CHUNK..], index + 1)
  }

  function SealAll(crypto: Crypto, key: Bytes, calls: seq<SealCall>): Bytes {
    if calls == [] then []
    else crypto.seal(key, calls[0].nonce, calls[0].text, calls[0].aad) + SealAll(crypto, key, calls[1..])
  }

  function Prefix(keyId: Bytes, wrapNonce: Bytes, dataNonce: Bytes, algorithm: Byte, size: nat): Bytes {
    MAGIC + [VERSION, KEY_WRAP, algorithm, FLAGS] + keyId + wrapNonce + dataNonce + BigEndian(size, 8)
  }

  /** The random values of one encryption. */
  datatype Random = Random(dataKey: Bytes, wrapNonce: Bytes, dataNonce: Bytes)

  predicate RandomSizes(random: Random) {
    |random.dataKey| == DATA_KEY && |random.wrapNonce| == NONCE && |random.dataNonce| == NONCE
  }

  function KeyId(crypto: Crypto, key: Bytes): Bytes
    requires |crypto.digest(key)| == 32
  {
    crypto.digest(key)[..KEY_ID]
  }

  function HeaderOf(crypto: Crypto, key: Bytes, random: Random, algorithm: Byte, size: nat): Bytes
    requires |crypto.digest(key)| == 32
  {
    var prefix := Prefix(KeyId(crypto, key), random.wrapNonce, random.dataNonce, algorithm, size);
    prefix + crypto.seal(key, random.wrapNonce, random.dataKey, prefix)
  }

  /** The envelope an encryption of this payload writes. */
  function Envelope(crypto: Crypto, key: Bytes, random: Random, payload: Bytes): Bytes
    requires |crypto.digest(key)| == 32 && RandomSizes(random)
  {
    var header := HeaderOf(crypto, key, random, CHUNKED, |payload|);
    header + SealAll(crypto, random.dataKey, SealCalls(random.dataNonce, header, payload, 0))
  }

  /** An envelope of the older single-shot kind. */
  function SingleShotEnvelope(crypto: Crypto, key: Bytes, random: Random, payload: Bytes): Bytes
    requires |crypto.digest(key)| == 32 && RandomSizes(random)
  {
    var header := HeaderOf(crypto, key, random, SINGLE_SHOT, |payload|);
    header + crypto.seal(random.dataKey, random.dataNonce, payload, header)
  }

  // ---- opening ----

  datatype Opened = Opened(dataKey: Bytes, dataNonce: Bytes, algorithm: Byte, size: nat)

  /** Every header check of a decryption, down to the data key. */
  function OpenHeader(crypto: Crypto, key: Bytes, header: Bytes, envelopeSize: nat): Option<Opened>
    requires |header| == HEADER && |crypto.digest(key)| == 32
  {
    var algorithm := header[10];
    var size := FromBigEndian(header[SIZE_OFFSET..PREFIX]);
    if header[..8] != MAGIC || header[8] != VERSION || header[9] != KEY_WRAP
       || (algorithm != SINGLE_SHOT && algorithm != CHUNKED) || header[11] != FLAGS
       || header[KEY_ID_OFFSET..WRAP_NONCE_OFFSET] != KeyId(crypto, key)
       || size > MAX_PLAINTEXT
       || envelopeSize != HEADER + (if algorithm == SINGLE_SHOT then size + TAG else ChunkedCiphertextSize(size)) then None
    else
      var dataKey := crypto.unseal(key, header[WRAP_NONCE_OFFSET..DATA_NONCE_OFFSET], header[PREFIX..], header[..PREFIX]);
      if dataKey.None? || |dataKey.value| != DATA_KEY then None
      else Some(Opened(dataKey.value, header[DATA_NONCE_OFFSET..SIZE_OFFSET], algorithm, size))
  }

  /** The chunks of a payload of the given size, and nothing after them unless
      the payload is empty. */
  function OpenChunks(crypto: Crypto, key: Bytes, base: Bytes, header: Bytes, body: Bytes, size: nat, index: nat): Option<Bytes>
    requires |base| == NONCE
    decreases size
  {
    var want := if size <= CHUNK then size else CHUNK;
    if |body| < want + TAG then None
    else
      var text := crypto.unseal(key, ChunkNonce(base, index), body[..want + TAG], ChunkAad(header, index, size <= CHUNK));
      if text.None? || |text.value| != want then None
      else if size <= CHUNK then
        if |body| > want + TAG && size > 0 then None else text
      else
        var rest := OpenChunks(crypto, key, base, header, body[want + TAG..], size - CHUNK, index + 1);
        if rest.None? then None else Some(text.value + rest.value)
  }

  function OpenBody(crypto: Crypto, header: Bytes, h: Opened, body: Bytes): Option<Bytes>
    requires |h.dataNonce| == NONCE
  {
    if h.algorithm == CHUNKED then OpenChunks(crypto, h.dataKey, h.dataNonce, header, body, h.size, 0)
    else if |body| < h.size + TAG then None
    else
      var text := crypto.unseal(h.dataKey, h.dataNonce, body[..h.size + TAG], header);
      if text.None? || |text.value| != h.size then None else text
  }

  /** decryptBackupEnvelopeStream on a stream of which envelopeSize bytes were announced. */
  function Decrypted(crypto: Crypto, key: Bytes, source: Bytes, envelopeSize: int): Result<Bytes, Error>
    requires |crypto.digest(key)| == 32
  {
    if |key| != DATA_KEY then Err(BadKey)
    else if envelopeSize < HEADER || envelopeSize > MAX_ENVELOPE || |source| < HEADER then Err(Authentication)
    else
      var h := OpenHeader(crypto, key, source[..HEADER], envelopeSize);
      if h.None? then Err(Authentication)
      else
        var payload := OpenBody(crypto, source[..HEADER], h.value, source[HEADER..]);
        if payload.None? then Err(Authentication) else Ok(payload.value)
  }

  // ---- sizes and calls of an encryption ----

  /** Call i of an encryption is chunk i, with its own nonce. */
  lemma {:induction false} SealCallAt(base: Bytes, header: Bytes, text: Bytes, index: nat, i: nat)
    requires |base| == NONCE && i < NumChunks(|text|)
    ensures var calls := SealCalls(base, header, text, index);
            && |calls| == NumChunks(|text|)
            && calls[i].nonce == ChunkNonce(base, index + i)
            && calls[i].final == (i == |calls| - 1)
            && calls[i].aad == ChunkAad(header, index + i, calls[i].final)
    decreases |text|
  {
    if |text| > CHUNK {
      NumChunksRest(|text|);
      var rest := SealCalls(base, header, text[CHUNK..], index + 1);
      var j := if i == 0 then 0 else i - 1;
      SealCallAt(base, header, text[CHUNK..], index + 1, j);
      if i > 0 {
        assert SealCalls(base, header, text, index)[i] == rest[j];
        assert index + 1 + j == index + i;
      }
    }
  }

  lemma NumChunksRest(size: nat)
    requires size > CHUNK
    ensures NumChunks(size) == NumChunks(size - CHUNK) + 1
  {}

  /** The texts sealed are the payload cut in order. */
  lemma {:induction false} SealCallsCoverThePayload(base: Bytes, header: Bytes, text: Bytes, index: nat)
    requires |base| == NONCE
    ensures Texts(SealCalls(base, header, text, index)) == text
    decreases |text|
  {
    if |text| > CHUNK {
      SealCallsCoverThePayload(base, header, text[CHUNK..], index + 1);
      assert SealCalls(base, header, text, index)[1..] == SealCalls(base, header, text[CHUNK..], index + 1);
    } else {
      assert SealCalls(base, header, text, index)[1..] == [];
    }
  }

  function Texts(calls: seq<SealCall>): Bytes {
    if calls == [] then [] else calls[0].text + Texts(calls[1..])
  }

  /** Exactly the last chunk is final, each is sealed with the header, its index and
      that flag, and no nonce is used twice under the data key. */
  lemma NoncesAndFinalFlag(base: Bytes, header: Bytes, payload: Bytes)
    requires |base| == NONCE && |payload| <= MAX_PLAINTEXT
    ensures var calls := SealCalls(base, header, payload, 0);
            && |calls| == NumChunks(|payload|)
            && (forall i :: 0 <= i < |calls| ==>
                  && (calls[i].final <==> i == |calls| - 1)
                  && calls[i].aad == header + BigEndian(i, 8) + [if i == |calls| - 1 then 1 else 0])
            && (forall i, j :: 0 <= i < j < |calls| ==> calls[i].nonce != calls[j].nonce)
  {
    var calls := SealCalls(base, header, payload, 0);
    SealCallAt(base, header, payload, 0, 0);
    forall i | 0 <= i < |calls|
      ensures calls[i].nonce == ChunkNonce(base, i) && (calls[i].final <==> i == |calls| - 1) && calls[i].aad == ChunkAad(header, i, calls[i].final)
    {
      SealCallAt(base, header, payload, 0, i);
    }
    forall i, j | 0 <= i < j < |calls| ensures calls[i].nonce != calls[j].nonce {
      if calls[i].nonce == calls[j].nonce {
        ChunkNonceInjective(base, i, j);
      }
    }
  }

  lemma {:induction false} SealedSize(crypto: Crypto, key: Bytes, base: Bytes, header: Bytes, text: Bytes, index: nat)
    requires |base| == NONCE && Lawful(crypto)
    ensures |SealAll(crypto, key, SealCalls(base, header, text, index))| == |text| + TAG * NumChunks(|text|)
    decreases |text|
  {
    var calls := SealCalls(base, header, text, index);
    if |text| > CHUNK {
      SealedSize(crypto, key, base, header, text[CHUNK..], index + 1);
      NumChunksRest(|text|);
      assert calls[1..] == SealCalls(base, header, text[CHUNK..], index + 1);
    } else {
      assert calls[1..] == [];
    }
  }

  /** An encryption writes exactly the announced size, within the limit. */
  lemma EnvelopeSize(crypto: Crypto, key: Bytes, random: Random, payload: Bytes)
    requires Lawful(crypto) && RandomSizes(random) && |payload| <= MAX_PLAINTEXT
    ensures |Envelope(crypto, key, random, payload)| == HEADER + ChunkedCiphertextSize(|payload|) <= MAX_ENVELOPE
  {
    SealedSize(crypto, random.dataKey, random.dataNonce, HeaderOf(crypto, key, random, CHUNKED, |payload|), payload, 0);
    CiphertextSizeIsExact(|payload|);
  }

  // ---- header round trip ----

  lemma PrefixParts(keyId: Bytes, wrapNonce: Bytes, dataNonce: Bytes, algorithm: Byte, size: nat)
    requires |keyId| == KEY_ID && |wrapNonce| == NONCE && |dataNonce| == NONCE
    ensures var p := Prefix(keyId, wrapNonce, dataNonce, algorithm, size);
            && |p| == PREFIX && p[..8] == MAGIC && p[8] == VERSION && p[9] == KEY_WRAP && p[10] == algorithm && p[11] == FLAGS
            && p[KEY_ID_OFFSET..WRAP_NONCE_OFFSET] == keyId && p[WRAP_NONCE_OFFSET..DATA_NONCE_OFFSET] == wrapNonce
            && p[DATA_NONCE_OFFSET..SIZE_OFFSET] == dataNonce && p[SIZE_OFFSET..PREFIX] == BigEndian(size, 8)
  {}

  lemma HeaderParts(crypto: Crypto, key: Bytes, random: Random, algorithm: Byte, size: nat)
    requires Lawful(crypto) && RandomSizes(random)
    ensures var header := HeaderOf(crypto, key, random, algorithm, size);
            var prefix := Prefix(KeyId(crypto, key), random.wrapNonce, random.dataNonce, algorithm, size);
            && |header| == HEADER && header[..PREFIX] == prefix
            && header[PREFIX..] == crypto.seal(key, random.wrapNonce, random.dataKey, prefix)
            && header[..8] == MAGIC && header[8] == VERSION && header[9] == KEY_WRAP && header[10] == algorithm && header[11] == FLAGS
            && header[KEY_ID_OFFSET..WRAP_NONCE_OFFSET] == KeyId(crypto, key)
            && header[WRAP_NONCE_OFFSET..DATA_NONCE_OFFSET] == random.wrapNonce
            && header[DATA_NONCE_OFFSET..SIZE_OFFSET] == random.dataNonce
            && header[SIZE_OFFSET..PREFIX] == BigEndian(size, 8)
  {
    var prefix := Prefix(KeyId(crypto, key), random.wrapNonce, random.dataNonce, algorithm, size);
    var header := HeaderOf(crypto, key, random, algorithm, size);
    PrefixParts(KeyId(crypto, key), random.wrapNonce, random.dataNonce, algorithm, size);
    assert header[..PREFIX] == prefix;
    forall i, j | 0 <= i <= j <= PREFIX ensures header[i..j] == prefix[i..j] {
      assert header[i..j] == header[..PREFIX][i..j];
    }
  }

  lemma HeaderOpens(crypto: Crypto, key: Bytes, random: Random, algorithm: Byte, size: nat)
    requires Lawful(crypto) && RandomSizes(random) && size <= MAX_PLAINTEXT
    requires algorithm == CHUNKED || algorithm == SINGLE_SHOT
    ensures var body := if algorithm == SINGLE_SHOT then size + TAG else ChunkedCiphertextSize(size);
            |HeaderOf(crypto, key, random, algorithm, size)| == HEADER
            && OpenHeader(crypto, key, HeaderOf(crypto, key, random, algorithm, size), HEADER + body)
               == Some(Opened(random.dataKey, random.dataNonce, algorithm, size))
  {
    HeaderParts(crypto, key, random, algorithm, size);
    Uint64Width();
    FromBigEndianInverts(size, 8);
  }

  /** A header that opens is the one an encryption with its values writes. */
  lemma OpenedHeader(crypto: Crypto, key: Bytes, header: Bytes, envelopeSize: nat)
    requires Lawful(crypto) && |header| == HEADER && OpenHeader(crypto, key, header, envelopeSize).Some?
    ensures var h := OpenHeader(crypto, key, header, envelopeSize).value;
            var random := Random(h.dataKey, header[WRAP_NONCE_OFFSET..DATA_NONCE_OFFSET], h.dataNonce);
            && RandomSizes(random) && h.size <= MAX_PLAINTEXT && (h.algorithm == CHUNKED || h.algorithm == SINGLE_SHOT)
            && header == HeaderOf(crypto, key, random, h.algorithm, h.size)
  {
    var h := OpenHeader(crypto, key, header, envelopeSize).value;
    BigEndianInverts(header[SIZE_OFFSET..PREFIX]);
    SplitPrefix(header, KeyId(crypto, key), h);
  }

  lemma SplitPrefix(header: Bytes, keyId: Bytes, h: Opened)
    requires |header| == HEADER && header[..8] == MAGIC && header[8] == VERSION && header[9] == KEY_WRAP
    requires header[10] == h.algorithm && header[11] == FLAGS && header[KEY_ID_OFFSET..WRAP_NONCE_OFFSET] == keyId
    requires header[DATA_NONCE_OFFSET..SIZE_OFFSET] == h.dataNonce && header[SIZE_OFFSET..PREFIX] == BigEndian(h.size, 8)
    ensures header[..PREFIX] == Prefix(keyId, header[WRAP_NONCE_OFFSET..DATA_NONCE_OFFSET], h.dataNonce, h.algorithm, h.size)
    ensures header == header[..PREFIX] + header[PREFIX..]
  {
    var start := header[..KEY_ID_OFFSET];
    assert start == MAGIC + [VERSION, KEY_WRAP, h.algorithm, FLAGS];
    assert header[..PREFIX] == start + header[KEY_ID_OFFSET..WRAP_NONCE_OFFSET] + header[WRAP_NONCE_OFFSET..DATA_NONCE_OFFSET]
                               + header[DATA_NONCE_OFFSET..SIZE_OFFSET] + header[SIZE_OFFSET..PREFIX];
  }

  // ---- chunk round trip ----

  lemma {:induction false} SealedChunksOpen(crypto: Crypto, key: Bytes, base: Bytes, header: Bytes, text: Bytes, index: nat)
    requires Lawful(crypto) && |base| == NONCE
    ensures OpenChunks(crypto, key, base, header, SealAll(crypto, key, SealCalls(base, header, text, index)), |text|, index) == Some(text)
    decreases |text|
  {
    var calls := SealCalls(base, header, text, index);
    var first := crypto.seal(key, calls[0].nonce, calls[0].text, calls[0].aad);
    var body := SealAll(crypto, key, calls);
    if |text| > CHUNK {
      SealedChunksOpen(crypto, key, base, header, text[CHUNK..], index + 1);
      assert calls[1..] == SealCalls(base, header, text[CHUNK..], index + 1);
      assert body[..|first|] == first && body[|first|..] == SealAll(crypto, key, calls[1..]);
      assert text == text[..CHUNK] + text[CHUNK..];
    } else {
      assert calls[1..] == [] && body == first;
      assert body[..|first|] == first;
    }
  }

  /** Chunks that open are the ones an encryption of their text writes. */
  lemma {:induction false} OpenedChunks(crypto: Crypto, key: Bytes, base: Bytes, header: Bytes, body: Bytes, size: nat, index: nat)
    requires Lawful(crypto) && |base| == NONCE
    requires OpenChunks(crypto, key, base, header, body, size, index).Some? && (size > 0 || |body| == TAG)
    ensures var text := OpenChunks(crypto, key, base, header, body, size, index).value;
            |text| == size && body == SealAll(crypto, key, SealCalls(base, header, text, index))
    decreases size
  {
    var text := OpenChunks(crypto, key, base, header, body, size, index).value;
    if size > CHUNK {
      var first := crypto.unseal(key, ChunkNonce(base, index), body[..CHUNK + TAG], ChunkAad(header, index, false)).value;
      var rest := OpenChunks(crypto, key, base, header, body[CHUNK + TAG..], size - CHUNK, index + 1).value;
      OpenedChunks(crypto, key, base, header, body[CHUNK + TAG..], size - CHUNK, index + 1);
      assert text[..CHUNK] == first && text[CHUNK..] == rest;
      assert SealCalls(base, header, text, index)[1..] == SealCalls(base, header, rest, index + 1);
      assert body == body[..CHUNK + TAG] + body[CHUNK + TAG..];
    } else {
      assert body[..size + TAG] == body;
      assert SealCalls(base, header, text, index)[1..] == [];
    }
  }

  // ---- main results ----

  /** Every payload within the limit comes back from its envelope. */
  lemma RoundTrip(crypto: Crypto, key: Bytes, random: Random, payload: Bytes)
    requires Lawful(crypto) && |key| == DATA_KEY && RandomSizes(random) && |payload| <= MAX_PLAINTEXT
    ensures var envelope := Envelope(crypto, key, random, payload);
            Decrypted(crypto, key, envelope, |envelope|) == Ok(payload)
  {
    var header := HeaderOf(crypto, key, random, CHUNKED, |payload|);
    var envelope := Envelope(crypto, key, random, payload);
    HeaderOpens(crypto, key, random, CHUNKED, |payload|);
    EnvelopeSize(crypto, key, random, payload);
    SealedChunksOpen(crypto, random.dataKey, random.dataNonce, header, payload, 0);
    assert envelope[..HEADER] == header;
    assert envelope[HEADER..] == SealAll(crypto, random.dataKey, SealCalls(random.dataNonce, header, payload, 0));
  }

  /** An envelope of the older kind still opens. */
  lemma SingleShotOpens(crypto: Crypto, key: Bytes, random: Random, payload: Bytes)
    requires Lawful(crypto) && |key| == DATA_KEY && RandomSizes(random) && |payload| <= MAX_PLAINTEXT
    ensures var envelope := SingleShotEnvelope(crypto, key, random, payload);
            Decrypted(crypto, key, envelope, |envelope|) == Ok(payload)
  {
    var header := HeaderOf(crypto, key, random, SINGLE_SHOT, |payload|);
    var envelope := SingleShotEnvelope(crypto, key, random, payload);
    HeaderOpens(crypto, key, random, SINGLE_SHOT, |payload|);
    assert envelope[..HEADER] == header;
    assert envelope[HEADER..] == crypto.seal(random.dataKey, random.dataNonce, payload, header);
    assert envelope[HEADER..][..|payload| + TAG] == envelope[HEADER..];
  }

  ghost predicate Encrypts(crypto: Crypto, key: Bytes, random: Random, payload: Bytes, envelope: Bytes)
    requires |crypto.digest(key)| == 32
  {
    RandomSizes(random) && (envelope == Envelope(crypto, key, random, payload)
                            || envelope == SingleShotEnvelope(crypto, key, random, payload))
  }

  /** A decryption returns a payload exactly for the envelopes an encryption of
      that payload under the same key can write; nothing else is accepted. */
  lemma DecryptsExactlyEnvelopes(crypto: Crypto, key: Bytes, envelope: Bytes, payload: Bytes)
    requires Lawful(crypto)
    ensures Decrypted(crypto, key, envelope, |envelope|) == Ok(payload)
       <==> |key| == DATA_KEY && |payload| <= MAX_PLAINTEXT && exists random :: Encrypts(crypto, key, random, payload, envelope)
  {
    if |key| == DATA_KEY && |payload| <= MAX_PLAINTEXT && exists random :: Encrypts(crypto, key, random, payload, envelope) {
      var random :| Encrypts(crypto, key, random, payload, envelope);
      RoundTrip(crypto, key, random, payload);
      SingleShotOpens(crypto, key, random, payload);
    }
    if Decrypted(crypto, key, envelope, |envelope|) == Ok(payload) {
      AcceptedIsEnvelope(crypto, key, envelope, payload);
    }
  }

  lemma AcceptedIsEnvelope(crypto: Crypto, key: Bytes, envelope: Bytes, payload: Bytes)
    requires Lawful(crypto) && Decrypted(crypto, key, envelope, |envelope|) == Ok(payload)
    ensures |payload| <= MAX_PLAINTEXT && exists random :: Encrypts(crypto, key, random, payload, envelope)
  {
    var header, body := envelope[..HEADER], envelope[HEADER..];
    OpenedHeader(crypto, key, header, |envelope|);
    var h := OpenHeader(crypto, key, header, |envelope|).value;
    var random := Random(h.dataKey, header[WRAP_NONCE_OFFSET..DATA_NONCE_OFFSET], h.dataNonce);
    assert envelope == header + body;
    if h.algorithm == CHUNKED {
      CiphertextSizeIsExact(h.size);
      OpenedChunks(crypto, h.dataKey, h.dataNonce, header, body, h.size, 0);
      assert envelope == Envelope(crypto, key, random, payload);
    } else {
      assert body[..h.size + TAG] == body;
      assert envelope == SingleShotEnvelope(crypto, key, random, payload);
    }
    assert Encrypts(crypto, key, random, payload, envelope);
  }
}
