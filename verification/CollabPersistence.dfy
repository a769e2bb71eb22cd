/** The SQLite tables of the collaboration layer and the transactions of
    persistence.go. Every transaction is one step on `Tables`. A CRDT update is
    the set of operations it carries plus its encoded length; merging is union.
    What the CRDT encoder decides on its own (refusing, or the length of a
    merged encoding) enters each step as an `Encoding`. */
module CollabPersistence {

  import opened Sets
  import opened Wrappers
  import opened Decimal
  import opened RoomNames

  const MAX_UPDATE_BYTES: nat := 8 * 1024 * 1024

  datatype Update = Update(ops: set<nat>, size: nat)

  /** SHA-256 as an injective function. */
  datatype Digest = Sha256(update: Update)

  datatype Encoding = Malformed | Encoded(size: nat)

  datatype Kind = Legacy | Renditions

  /** An authoritative lyrics document; `body` stands for everything else in it. */
  datatype Document = Document(musicId: int, kind: Kind, revision: int, body: nat)

  /** The digest of a document's canonical JSON, injective. */
  datatype Fingerprint = Fingerprint(document: Document)

  datatype DocumentRow = DocumentRow(epoch: int, snapshot: Update, baseRevision: int, authority: Fingerprint)

  datatype LogRow = LogRow(seqNo: int, update: Update, digest: Digest, size: nat)

  datatype LedgerRow = LedgerRow(musicId: int, epoch: int, baseRevision: int, newRevision: int,
                                 baseAuthority: Fingerprint, newAuthority: Fingerprint, actor: string, changed: bool)

  datatype Tables = Tables(documents: map<int, DocumentRow>, log: map<RoomIdentity, seq<LogRow>>, ledger: seq<LedgerRow>)

  datatype Baseline = Baseline(musicId: int, epoch: int, update: Update, baseRevision: int, authority: Fingerprint)

  /** The epoch a song leaves (0 when it had no row) and the one it enters. */
  datatype Switch = Switch(oldEpoch: int, newEpoch: int)

  /** The pair of room names the code returns for a switch. */
  function SwitchRooms(musicId: int, r: Result<Switch, Error>): Result<(string, string), Error> {
    match r
    case Err(e) => Err(e)
    case Ok(switch) =>
      Ok((if switch.oldEpoch > 0 then RoomName(musicId, switch.oldEpoch) else "", RoomName(musicId, switch.newEpoch)))
  }

  datatype Error =
    | InvalidRoom | RoomUnavailable | RetiredRoom | UpdateTooLarge | AuthorityDrift
    | CorruptLog | MergeFailed | NoRows | ConstraintFailed | EpochExhausted | EncodeFailed | LyricsNotFound

  datatype Outcome<T> = Outcome(tables: Tables, result: Result<T, Error>)

  function Rows(t: Tables, identity: RoomIdentity): seq<LogRow> {
    if identity in t.log then t.log[identity] else []
  }

  function JoinOps(updates: seq<Update>): set<nat> {
    if updates == [] then {} else updates[0].ops + JoinOps(updates[1..])
  }

  lemma {:induction false} JoinOpsConcat(a: seq<Update>, b: seq<Update>)
    ensures JoinOps(a + b) == JoinOps(a) + JoinOps(b)
  {
    if a == [] {
      assert a + b == b;
    } else {
      assert (a + b)[1..] == a[1..] + b;
      JoinOpsConcat(a[1..], b);
    }
  }

  lemma JoinOpsCons(u: Update, rest: seq<Update>)
    ensures JoinOps([u] + rest) == u.ops + JoinOps(rest)
  {
    assert ([u] + rest)[1..] == rest;
  }

  lemma JoinOpsTwo(a: Update, b: Update, rest: seq<Update>)
    ensures JoinOps([a, b] + rest) == a.ops + b.ops + JoinOps(rest)
  {
    assert [a, b] + rest == [a] + ([b] + rest);
    JoinOpsCons(a, [b] + rest);
    JoinOpsCons(b, rest);
  }

  function Updates(rows: seq<LogRow>): (r: seq<Update>)
    ensures |r| == |rows|
    ensures forall i :: 0 <= i < |rows| ==> r[i] == rows[i].update
  {
    if rows == [] then [] else [rows[0].update] + Updates(rows[1..])
  }

  lemma {:induction false} UpdatesSnoc(rows: seq<LogRow>, row: LogRow)
    ensures Updates(rows + [row]) == Updates(rows) + [row.update]
  {}

  /** What a load of the current room is made of: the snapshot and the current epoch's log. */
  function Contents(t: Tables, musicId: int): set<nat>
    requires musicId in t.documents
  {
    var row := t.documents[musicId];
    row.snapshot.ops + JoinOps(Updates(Rows(t, RoomIdentity(musicId, row.epoch))))
  }

  /** validatePersistedUpdate */
  predicate Intact(row: LogRow) {
    0 < row.update.size <= MAX_UPDATE_BYTES && row.size == row.update.size && row.digest == Sha256(row.update)
  }

  predicate AllIntact(rows: seq<LogRow>) {
    forall i :: 0 <= i < |rows| ==> Intact(rows[i])
  }

  function MaxSeq(rows: seq<LogRow>): int {
    if rows == [] then 0
    else
      var m := MaxSeq(rows[..|rows| - 1]);
      if rows[|rows| - 1].seqNo > m then rows[|rows| - 1].seqNo else m
  }

  function KeepAbove(rows: seq<LogRow>, cutoff: int): seq<LogRow> {
    if rows == [] then []
    else if rows[0].seqNo <= cutoff then KeepAbove(rows[1..], cutoff)
    else [rows[0]] + KeepAbove(rows[1..], cutoff)
  }

  function WithRows(log: map<RoomIdentity, seq<LogRow>>, identity: RoomIdentity, rows: seq<LogRow>): map<RoomIdentity, seq<LogRow>> {
    log[identity := rows]
  }

  /** DELETE ... WHERE music_id=? */
  function WithoutSong(log: map<RoomIdentity, seq<LogRow>>, musicId: int): map<RoomIdentity, seq<LogRow>> {
    map k | k in log && k.musicId != musicId :: log[k]
  }

  // ---- reading ----

  function Load(t: Tables, parsed: Option<RoomIdentity>, encoding: Encoding): Result<Update, Error> {
    match parsed
    case None => Err(InvalidRoom)
    case Some(identity) =>
      if identity.musicId !in t.documents then Err(RoomUnavailable)
      else
        var row := t.documents[identity.musicId];
        var rows := Rows(t, identity);
        if row.epoch != identity.epoch then Err(RetiredRoom)
        else if row.snapshot.size == 0 || row.snapshot.size > MAX_UPDATE_BYTES then Err(UpdateTooLarge)
        else if !AllIntact(rows) then Err(CorruptLog)
        else if rows == [] then Ok(row.snapshot)
        else
          match encoding
          case Malformed => Err(MergeFailed)
          case Encoded(size) =>
            if size == 0 || size > MAX_UPDATE_BYTES then Err(UpdateTooLarge)
            else Ok(Update(JoinOps([row.snapshot] + Updates(rows)), size))
  }

  // ---- transactions ----

  function StoreUpdate(t: Tables, parsed: Option<RoomIdentity>, update: Update): Outcome<()> {
    match parsed
    case None => Outcome(t, Err(InvalidRoom))
    case Some(identity) =>
      if update.size == 0 || update.size > MAX_UPDATE_BYTES then Outcome(t, Err(UpdateTooLarge))
      else if identity.musicId !in t.documents then Outcome(t, Err(NoRows))
      else if t.documents[identity.musicId].epoch != identity.epoch then Outcome(t, Err(RetiredRoom))
      else
        var rows := Rows(t, identity);
        var row := LogRow(MaxSeq(rows) + 1, update, Sha256(update), update.size);
        Outcome(t.(log := WithRows(t.log, identity, rows + [row])), Ok(()))
  }

  function Compact(t: Tables, parsed: Option<RoomIdentity>, encoding: Encoding): Outcome<()> {
    match parsed
    case None => Outcome(t, Err(InvalidRoom))
    case Some(identity) =>
      if identity.musicId !in t.documents then Outcome(t, Err(NoRows))
      else
        var row := t.documents[identity.musicId];
        var rows := Rows(t, identity);
        if row.epoch != identity.epoch then Outcome(t, Err(RetiredRoom))
        else if !AllIntact(rows) then Outcome(t, Err(CorruptLog))
        else if rows == [] then Outcome(t, Ok(()))
        else
          match encoding
          case Malformed => Outcome(t, Err(MergeFailed))
          case Encoded(size) =>
            if size > MAX_UPDATE_BYTES then Outcome(t, Err(UpdateTooLarge))
            else if size == 0 then Outcome(t, Err(ConstraintFailed))  // CHECK (length(update_v1)>0)
            else
              var merged := Update(JoinOps([row.snapshot] + Updates(rows)), size);
              Outcome(t.(documents := t.documents[identity.musicId := row.(snapshot := merged)],
                         log := WithRows(t.log, identity, [])), Ok(()))
  }

  /** INSERT ... ON CONFLICT(music_id) DO NOTHING of a first ticket. The document
      may have been read before other transactions committed. */
  function InsertRoom(t: Tables, musicId: int, document: Document, seed: Update): Outcome<()> {
    if musicId in t.documents then Outcome(t, Ok(()))
    else if seed.size == 0 || document.revision < 0 then Outcome(t, Err(ConstraintFailed))
    else
      Outcome(t.(documents := t.documents[musicId := DocumentRow(1, seed, document.revision, Fingerprint(document))]), Ok(()))
  }

  /** The store's documents and the catalog that decides whether a missing one is blank. */
  datatype Authority = Authority(documents: map<int, Document>, catalog: set<int>)

  const BLANK: nat := 0

  function AuthoritativeDocument(authority: Authority, musicId: int): Result<Document, Error> {
    if musicId in authority.documents then Ok(authority.documents[musicId])
    else if musicId in authority.catalog then Ok(Document(musicId, Legacy, 0, BLANK))
    else Err(LyricsNotFound)
  }

  function CheckRoom(t: Tables, musicId: int, document: Document): Result<Baseline, Error>
    requires musicId in t.documents
  {
    var row := t.documents[musicId];
    if Fingerprint(document) != row.authority || document.revision != row.baseRevision then Err(AuthorityDrift)
    else Ok(Baseline(musicId, row.epoch, row.snapshot, row.baseRevision, row.authority))
  }

  function EnsureRoom(t: Tables, authority: Authority, musicId: int, seed: Option<Update>): Outcome<Baseline> {
    if musicId <= 0 then Outcome(t, Err(InvalidRoom))
    else
      match AuthoritativeDocument(authority, musicId)
      case Err(e) => Outcome(t, Err(e))
      case Ok(document) =>
        if musicId in t.documents then Outcome(t, CheckRoom(t, musicId, document))
        else if seed.None? then Outcome(t, Err(EncodeFailed))
        else
          var inserted := InsertRoom(t, musicId, document, seed.value);
          match inserted.result
          case Err(e) => Outcome(t, Err(e))
          case Ok(_) => Outcome(inserted.tables, CheckRoom(inserted.tables, musicId, document))
  }

  function LedgerEntry(baseline: Baseline, newRevision: int, newAuthority: Fingerprint, actor: string, changed: bool): LedgerRow {
    LedgerRow(baseline.musicId, baseline.epoch, baseline.baseRevision, newRevision,
              baseline.authority, newAuthority, actor, changed)
  }

  predicate Matches(t: Tables, baseline: Baseline) {
    && baseline.musicId in t.documents
    && var row := t.documents[baseline.musicId];
       row.epoch == baseline.epoch && row.baseRevision == baseline.baseRevision && row.authority == baseline.authority
  }

  function CommitCheckpoint(t: Tables, baseline: Baseline, update: Update, newRevision: int, newAuthority: Fingerprint,
                            actor: string, changed: bool, encoding: Encoding): Outcome<()>
  {
    if update.size == 0 || update.size > MAX_UPDATE_BYTES then Outcome(t, Err(UpdateTooLarge))
    else if !Matches(t, baseline) then Outcome(t, Err(RetiredRoom))
    else
      var row := t.documents[baseline.musicId];
      var identity := RoomIdentity(baseline.musicId, baseline.epoch);
      var rows := Rows(t, identity);
      if row.snapshot.size == 0 || row.snapshot.size > MAX_UPDATE_BYTES then Outcome(t, Err(UpdateTooLarge))
      else if !AllIntact(rows) then Outcome(t, Err(CorruptLog))
      else
        match encoding
        case Malformed => Outcome(t, Err(MergeFailed))
        case Encoded(size) =>
          if size == 0 || size > MAX_UPDATE_BYTES then Outcome(t, Err(UpdateTooLarge))
          else if newRevision < 0 || newRevision < baseline.baseRevision then
            Outcome(t, Err(ConstraintFailed))  // CHECK (new_revision>=base_revision)
          else
            var merged := Update(JoinOps([row.snapshot, update] + Updates(rows)), size);
            var cutoff := MaxSeq(rows);
            Outcome(
              Tables(
                t.documents[baseline.musicId := DocumentRow(row.epoch, merged, newRevision, newAuthority)],
                if cutoff > 0 then WithRows(t.log, identity, KeepAbove(rows, cutoff)) else t.log,
                t.ledger + [LedgerEntry(baseline, newRevision, newAuthority, actor, changed)]),
              Ok(()))
  }

  /** `seed` is the encoding of `document`, or None when encoding it fails. */
  function ReseedCheckpoint(t: Tables, baseline: Baseline, document: Document, seed: Option<Update>,
                            actor: string, changed: bool): Outcome<Switch>
  {
    if seed.None? then Outcome(t, Err(EncodeFailed))
    else if baseline.epoch == MAX_INT64 then Outcome(t, Err(EpochExhausted))
    else if !Matches(t, baseline) then Outcome(t, Err(RetiredRoom))
    else if seed.value.size == 0 || document.revision < 0 || document.revision < baseline.baseRevision then
      Outcome(t, Err(ConstraintFailed))
    else
      var newEpoch := baseline.epoch + 1;
      Outcome(
        Tables(
          t.documents[baseline.musicId := DocumentRow(newEpoch, seed.value, document.revision, Fingerprint(document))],
          WithoutSong(t.log, baseline.musicId),
          t.ledger + [LedgerEntry(baseline, document.revision, Fingerprint(document), actor, changed)]),
        Ok(Switch(baseline.epoch, newEpoch)))
  }

  /** int64 addition of one. */
  function NextInt64(n: int): int {
    if n == MAX_INT64 then MIN_INT64 else n + 1
  }

  function ReplacedEpoch(t: Tables, musicId: int): int {
    var next := NextInt64(if musicId in t.documents then t.documents[musicId].epoch else 0);
    if next <= 0 then 1 else next
  }

  function Replace(t: Tables, musicId: int, document: Document, seed: Option<Update>): Outcome<Switch> {
    if seed.None? then Outcome(t, Err(EncodeFailed))
    else if seed.value.size == 0 || document.revision < 0 then Outcome(t, Err(ConstraintFailed))
    else
      var oldEpoch := if musicId in t.documents then t.documents[musicId].epoch else 0;
      var newEpoch := ReplacedEpoch(t, musicId);
      Outcome(
        Tables(
          t.documents[musicId := DocumentRow(newEpoch, seed.value, document.revision, Fingerprint(document))],
          WithoutSong(t.log, musicId),
          t.ledger),
        Ok(Switch(oldEpoch, newEpoch)))
  }

  // ---- what a ticket's room has to be ----

  /** The lyrics a song has: what the store holds, or a blank document for a
      song of the catalog without any. */
  predicate HasLyrics(authority: Authority, id: int, document: Document) {
    if id in authority.documents then document == authority.documents[id]
    else id in authority.catalog && document == Document(id, Legacy, 0, BLANK)
  }

  predicate LacksLyrics(authority: Authority, id: int) {
    id !in authority.documents && id !in authority.catalog
  }

  /** The row a ticket is for: the one there was, or a first one made of the document and its seed. */
  predicate RowFor(t: Tables, id: int, document: Document, seed: Option<Update>, row: DocumentRow) {
    if id in t.documents then row == t.documents[id]
    else seed.Some? && seed.value.size > 0 && document.revision >= 0
         && row == DocumentRow(1, seed.value, document.revision, Fingerprint(document))
  }

  /** The row carries this document's revision and fingerprint. */
  predicate Agrees(row: DocumentRow, document: Document) {
    row.authority == Fingerprint(document) && row.baseRevision == document.revision
  }

  /** UPDATE lyrics_collab_documents SET epoch=epoch+1, for all songs or one. */
  function BumpEpochs(t: Tables, songs: set<int>): Tables {
    t.(documents := map id | id in t.documents ::
         if id in songs then t.documents[id].(epoch := t.documents[id].epoch + 1) else t.documents[id])
  }

  // ---- the same transactions, as the code runs them ----

  class SqlitePersistence {
    var documents: map<int, DocumentRow>
    var log: map<RoomIdentity, seq<LogRow>>
    var ledger: seq<LedgerRow>

    function State(): Tables
      reads this
    {
      Tables(documents, log, ledger)
    }

    constructor ()
      ensures State() == Tables(map[], map[], [])
    {
      documents, log, ledger := map[], map[], [];
    }

    method LoadDoc(room: string, encoding: Encoding) returns (r: Result<Update, Error>)
      ensures r == Load(State(), ParseRoom(room), encoding)
    {
      var parsed := ParseRoom(room);
      if parsed.None? {
        return Err(InvalidRoom);
      }
      var identity := parsed.value;
      if identity.musicId !in documents {
        return Err(RoomUnavailable);
      }
      var row := documents[identity.musicId];
      if row.epoch != identity.epoch {
        return Err(RetiredRoom);
      }
      if row.snapshot.size == 0 || row.snapshot.size > MAX_UPDATE_BYTES {
        return Err(UpdateTooLarge);
      }
      var rows := if identity in log then log[identity] else [];
      var updates := AppendLog([row.snapshot], rows);
      if updates.None? {
        return Err(CorruptLog);
      }
      if |updates.value| == 1 {
        return Ok(updates.value[0]);
      }
      match encoding {
        case Malformed =>
          return Err(MergeFailed);
        case Encoded(size) =>
          if size == 0 || size > MAX_UPDATE_BYTES {
            return Err(UpdateTooLarge);
          }
          return Ok(Update(JoinOps(updates.value), size));
      }
    }

    method StoreUpdateContext(room: string, update: Update) returns (r: Result<(), Error>)
      modifies this`log
      ensures Outcome(State(), r) == StoreUpdate(old(State()), ParseRoom(room), update)
    {
      var parsed := ParseRoom(room);
      if parsed.None? {
        return Err(InvalidRoom);
      }
      var identity := parsed.value;
      if update.size == 0 || update.size > MAX_UPDATE_BYTES {
        return Err(UpdateTooLarge);
      }
      if identity.musicId !in documents {
        return Err(NoRows);
      }
      if documents[identity.musicId].epoch != identity.epoch {
        return Err(RetiredRoom);
      }
      var rows := if identity in log then log[identity] else [];
      var nextSeq := MaxSeq(rows) + 1;
      log := log[identity := rows + [LogRow(nextSeq, update, Sha256(update), update.size)]];
      r := Ok(());
    }

    method CompactRoom(room: string, encoding: Encoding) returns (r: Result<(), Error>)
      modifies this`documents, this`log
      ensures Outcome(State(), r) == Compact(old(State()), ParseRoom(room), encoding)
    {
      var parsed := ParseRoom(room);
      if parsed.None? {
        return Err(InvalidRoom);
      }
      var identity := parsed.value;
      if identity.musicId !in documents {
        return Err(NoRows);
      }
      var row := documents[identity.musicId];
      if row.epoch != identity.epoch {
        return Err(RetiredRoom);
      }
      var rows := if identity in log then log[identity] else [];
      var updates := AppendLog([row.snapshot], rows);
      if updates.None? {
        return Err(CorruptLog);
      }
      if |updates.value| == 1 {
        return Ok(());
      }
      if encoding.Malformed? {
        return Err(MergeFailed);
      }
      if encoding.size > MAX_UPDATE_BYTES {
        return Err(UpdateTooLarge);
      }
      if encoding.size == 0 {
        return Err(ConstraintFailed);
      }
      documents := documents[identity.musicId := row.(snapshot := Update(JoinOps(updates.value), encoding.size))];
      log := log[identity := []];
      r := Ok(());
    }

    /** The recursion of ensureRoom after its INSERT, written as the second look it takes. */
    method EnsureRoomRow(authority: Authority, musicId: int, seed: Option<Update>) returns (r: Result<Baseline, Error>)
      modifies this`documents
      ensures Outcome(State(), r) == EnsureRoom(old(State()), authority, musicId, seed)
      ensures r.Ok? <==> musicId > 0 && exists d, row :: HasLyrics(authority, musicId, d) && RowFor(old(State()), musicId, d, seed, row) && Agrees(row, d)
      ensures r.Ok? ==> musicId in documents
                        && var row := documents[musicId];
                           r.value == Baseline(musicId, row.epoch, row.snapshot, row.baseRevision, row.authority)
      ensures r == Err(AuthorityDrift) <==>
                musicId > 0 && musicId in old(documents) && exists d :: HasLyrics(authority, musicId, d) && !Agrees(old(documents)[musicId], d)
    {
      if musicId <= 0 {
        return Err(InvalidRoom);
      }
      var loaded := AuthoritativeDocument(authority, musicId);
      if loaded.Err? {
        return Err(loaded.error);
      }
      var document := loaded.value;
      assert HasLyrics(authority, musicId, document);
      if musicId !in documents {
        if seed.None? {
          return Err(EncodeFailed);
        }
        if seed.value.size == 0 || document.revision < 0 {
          return Err(ConstraintFailed);
        }
        documents := documents[musicId := DocumentRow(1, seed.value, document.revision, Fingerprint(document))];
      }
      var row := documents[musicId];
      assert RowFor(old(State()), musicId, document, seed, row);
      if row.authority != Fingerprint(document) || row.baseRevision != document.revision {
        return Err(AuthorityDrift);
      }
      r := Ok(Baseline(musicId, row.epoch, row.snapshot, row.baseRevision, row.authority));
    }

    /** The rows in whatever order the query gives them, then one UPDATE. */
    method BumpAllEpochs() returns (rooms: seq<string>)
      modifies this`documents
      ensures State() == BumpEpochs(old(State()), old(documents.Keys))
      ensures |rooms| == |old(documents)|
      ensures forall room :: room in rooms <==> exists id :: id in old(documents) && room == RoomName(id, old(documents)[id].epoch)
    {
      rooms := [];
      var pending := documents.Keys;
      while pending != {}
        invariant documents == old(documents) && pending <= documents.Keys && |rooms| + |pending| == |documents|
        invariant forall room :: room in rooms <==>
          exists id :: id in documents && id !in pending && room == RoomName(id, documents[id].epoch)
        decreases pending
      {
        var id := Pick(pending);
        rooms := rooms + [RoomName(id, documents[id].epoch)];
        pending := pending - {id};
      }
      documents := map id | id in documents :: documents[id].(epoch := documents[id].epoch + 1);
    }

    method CommitCheckpointInOwnTx(baseline: Baseline, update: Update, newRevision: int, newAuthority: Fingerprint,
                                   actor: string, changed: bool, encoding: Encoding) returns (r: Result<(), Error>)
      modifies this
      ensures Outcome(State(), r) == CommitCheckpoint(old(State()), baseline, update, newRevision, newAuthority, actor, changed, encoding)
    {
      var tx;
      tx, r := CommitCheckpointTx(State(), baseline, update, newRevision, newAuthority, actor, changed, encoding);
      if r.Ok? {
        documents, log, ledger := tx.documents, tx.log, tx.ledger;
      }
    }

    method ReplaceFromAuthoritative(musicId: int, document: Document, seed: Option<Update>)
      returns (r: Result<(string, string), Error>)
      modifies this`documents, this`log
      ensures State() == Replace(old(State()), musicId, document, seed).tables
      ensures r == SwitchRooms(musicId, Replace(old(State()), musicId, document, seed).result)
    {
      if seed.None? {
        return Err(EncodeFailed);
      }
      var oldEpoch := 0;
      if musicId in documents {
        oldEpoch := documents[musicId].epoch;
      }
      var newEpoch := NextInt64(oldEpoch);
      if newEpoch <= 0 {
        newEpoch := 1;
      }
      if seed.value.size == 0 || document.revision < 0 {
        return Err(ConstraintFailed);
      }
      documents := documents[musicId := DocumentRow(newEpoch, seed.value, document.revision, Fingerprint(document))];
      log := WithoutSong(log, musicId);
      var oldRoom := "";
      if oldEpoch > 0 {
        oldRoom := RoomName(musicId, oldEpoch);
      }
      r := Ok((oldRoom, RoomName(musicId, newEpoch)));
    }
  }

  /** The row loop of loadDocContext and Compact. */
  method AppendLog(start: seq<Update>, rows: seq<LogRow>) returns (updates: Option<seq<Update>>)
    ensures updates == if AllIntact(rows) then Some(start + Updates(rows)) else None
  {
    var acc := start;
    for i := 0 to |rows|
      invariant AllIntact(rows[..i])
      invariant acc == start + Updates(rows[..i])
    {
      if !Intact(rows[i]) {
        return None;
      }
      assert rows[..i + 1] == rows[..i] + [rows[i]];
      UpdatesSnoc(rows[..i], rows[i]);
      acc := acc + [rows[i].update];
    }
    assert rows[..|rows|] == rows;
    updates := Some(acc);
  }

  /** commitCheckpointTx: works on the caller's transaction and leaves commit to the caller. */
  method CommitCheckpointTx(tx: Tables, baseline: Baseline, update: Update, newRevision: int, newAuthority: Fingerprint,
                            actor: string, changed: bool, encoding: Encoding)
    returns (written: Tables, r: Result<(), Error>)
    ensures r == CommitCheckpoint(tx, baseline, update, newRevision, newAuthority, actor, changed, encoding).result
    ensures r.Ok? ==> written == CommitCheckpoint(tx, baseline, update, newRevision, newAuthority, actor, changed, encoding).tables
  {
    written := tx;
    if update.size == 0 || update.size > MAX_UPDATE_BYTES {
      return written, Err(UpdateTooLarge);
    }
    if baseline.musicId !in tx.documents {
      return written, Err(RetiredRoom);
    }
    var row := tx.documents[baseline.musicId];
    if row.epoch != baseline.epoch || row.baseRevision != baseline.baseRevision || row.authority != baseline.authority {
      return written, Err(RetiredRoom);
    }
    if row.snapshot.size == 0 || row.snapshot.size > MAX_UPDATE_BYTES {
      return written, Err(UpdateTooLarge);
    }
    var identity := RoomIdentity(baseline.musicId, baseline.epoch);
    var rows := Rows(tx, identity);
    var updates := [row.snapshot, update];
    var cutoff := 0;
    for i := 0 to |rows|
      invariant AllIntact(rows[..i])
      invariant updates == [row.snapshot, update] + Updates(rows[..i])
      invariant cutoff == MaxSeq(rows[..i])
    {
      if !Intact(rows[i]) {
        return written, Err(CorruptLog);
      }
      assert rows[..i + 1] == rows[..i] + [rows[i]];
      UpdatesSnoc(rows[..i], rows[i]);
      updates := updates + [rows[i].update];
      if rows[i].seqNo > cutoff {
        cutoff := rows[i].seqNo;
      }
      assert rows[..i + 1][..i] == rows[..i];
    }
    assert rows[..|rows|] == rows;
    if encoding.Malformed? {
      return written, Err(MergeFailed);
    }
    if encoding.size == 0 || encoding.size > MAX_UPDATE_BYTES {
      return written, Err(UpdateTooLarge);
    }
    var merged := Update(JoinOps(updates), encoding.size);
    if newRevision < 0 {
      return written, Err(ConstraintFailed);
    }
    written := written.(documents := tx.documents[baseline.musicId := DocumentRow(row.epoch, merged, newRevision, newAuthority)]);
    if newRevision < baseline.baseRevision {
      return written, Err(ConstraintFailed);
    }
    written := written.(ledger := tx.ledger + [LedgerEntry(baseline, newRevision, newAuthority, actor, changed)]);
    if cutoff > 0 {
      written := written.(log := tx.log[identity := KeepAbove(rows, cutoff)]);
    }
    r := Ok(());
  }

  /** reseedCheckpointTx: on the caller's transaction, like the commit above. */
  method ReseedCheckpointTx(tx: Tables, baseline: Baseline, document: Document, seed: Option<Update>, actor: string, changed: bool)
    returns (written: Tables, r: Result<(string, string), Error>)
    ensures r == match ReseedCheckpoint(tx, baseline, document, seed, actor, changed).result
                 case Err(e) => Err(e)
                 case Ok(switch) => Ok((RoomName(baseline.musicId, switch.oldEpoch), RoomName(baseline.musicId, switch.newEpoch)))
    ensures r.Ok? ==> written == ReseedCheckpoint(tx, baseline, document, seed, actor, changed).tables
  {
    written := tx;
    if seed.None? {
      return written, Err(EncodeFailed);
    }
    if baseline.epoch == MAX_INT64 {
      return written, Err(EpochExhausted);
    }
    var newEpoch := baseline.epoch + 1;
    if !Matches(tx, baseline) {
      return written, Err(RetiredRoom);
    }
    if seed.value.size == 0 || document.revision < 0 {
      return written, Err(ConstraintFailed);
    }
    written := written.(documents := tx.documents[baseline.musicId :=
                          DocumentRow(newEpoch, seed.value, document.revision, Fingerprint(document))]);
    written := written.(log := WithoutSong(tx.log, baseline.musicId));
    if document.revision < baseline.baseRevision {
      return written, Err(ConstraintFailed);
    }
    written := written.(ledger := tx.ledger + [LedgerEntry(baseline, document.revision, Fingerprint(document), actor, changed)]);
    r := Ok((RoomName(baseline.musicId, baseline.epoch), RoomName(baseline.musicId, newEpoch)));
  }
}
