/** Conservation, fencing and the checkpoint ledger over whole runs of the
    collaboration transactions, in any interleaving. */
module CollabHistory {

  import opened Wrappers
  import opened Decimal
  import opened RoomNames
  import opened CollabPersistence

  /** One committed or refused transaction. Loads change nothing and are not events. */
  datatype Event =
    | Store(room: Option<RoomIdentity>, update: Update)
    | Compacted(room: Option<RoomIdentity>, encoding: Encoding)
    | Inserted(musicId: int, document: Document, seed: Update)
    | Committed(baseline: Baseline, update: Update, newRevision: int, newAuthority: Fingerprint,
                actor: string, changed: bool, encoding: Encoding)
    | Reseeded(baseline: Baseline, document: Document, reseed: Option<Update>, actor: string, changed: bool)
    | Replaced(musicId: int, document: Document, reseed: Option<Update>)
    | Bumped(songs: set<int>)

  function Apply(t: Tables, event: Event): (Tables, bool) {
    match event
    case Store(room, u) => var o := StoreUpdate(t, room, u); (o.tables, o.result.Ok?)
    case Compacted(room, e) => var o := Compact(t, room, e); (o.tables, o.result.Ok?)
    case Inserted(id, d, s) => var o := InsertRoom(t, id, d, s); (o.tables, o.result.Ok?)
    case Committed(b, u, r, a, actor, c, e) =>
      var o := CommitCheckpoint(t, b, u, r, a, actor, c, e); (o.tables, o.result.Ok?)
    case Reseeded(b, d, s, actor, c) => var o := ReseedCheckpoint(t, b, d, s, actor, c); (o.tables, o.result.Ok?)
    case Replaced(id, d, s) => var o := Replace(t, id, d, s); (o.tables, o.result.Ok?)
    case Bumped(songs) => (BumpEpochs(t, songs), true)
  }

  /** What a song's room is promised to hold: the state its epoch began with and
      everything accepted since. `merged` is the part of `accepted` that some
      compaction or checkpoint has moved out of the log. */
  datatype Promise = Promise(base: set<nat>, accepted: set<nat>, merged: set<nat>)

  type Promises = map<int, Promise>

  function Accept(p: Promises, musicId: int, ops: set<nat>): Promises {
    if musicId in p then p[musicId := p[musicId].(accepted := p[musicId].accepted + ops)] else p
  }

  function Merge(p: Promises, musicId: int): Promises {
    if musicId in p then p[musicId := p[musicId].(merged := p[musicId].accepted)] else p
  }

  /** The promises after `event` ran on `t`; a refused event promises nothing.
      What the tables hold plays no part beyond that. */
  function Promised(t: Tables, p: Promises, event: Event): Promises {
    if !Apply(t, event).1 then p
    else
      match event
      case Store(room, u) => Accept(p, room.value.musicId, u.ops)
      case Compacted(room, _) => Merge(p, room.value.musicId)
      case Inserted(id, _, seed) => if id in t.documents then p else p[id := Promise(seed.ops, {}, {})]
      case Committed(b, u, _, _, _, _, _) => Merge(Accept(p, b.musicId, u.ops), b.musicId)
      case Reseeded(b, _, seed, _, _) => p[b.musicId := Promise(seed.value.ops, {}, {})]
      case Replaced(id, _, seed) => p[id := Promise(seed.value.ops, {}, {})]
      case Bumped(songs) =>
        map id | id in p :: if id in songs then Promise(p[id].base + p[id].merged, {}, {}) else p[id]
  }

  datatype World = World(tables: Tables, promises: Promises)

  function Step(w: World, event: Event): World {
    World(Apply(w.tables, event).0, Promised(w.tables, w.promises, event))
  }

  const EMPTY: World := World(Tables(map[], map[], []), map[])

  function Run(w: World, events: seq<Event>): World {
    if events == [] then w else Step(Run(w, events[..|events| - 1]), events[|events| - 1])
  }

  lemma {:induction false} RunConcat(w: World, a: seq<Event>, b: seq<Event>)
    ensures Run(w, a + b) == Run(Run(w, a), b)
  {
    if b == [] {
      assert a + b == a;
    } else {
      assert (a + b)[..|a + b| - 1] == a + b[..|b| - 1];
      RunConcat(w, a, b[..|b| - 1]);
    }
  }

  /** Epochs stay below the int64 maximum: replaceFromAuthoritative is the only
      transaction that would otherwise wrap. */
  predicate Admissible(t: Tables, event: Event) {
    event.Replaced? && event.musicId in t.documents ==> t.documents[event.musicId].epoch < MAX_INT64
  }

  predicate AdmissibleRun(w: World, events: seq<Event>) {
    forall n :: 0 <= n < |events| ==> Admissible(Run(w, events[..n]).tables, events[n])
  }

  // ---- the invariant ----

  ghost predicate Ordered(rows: seq<LogRow>) {
    && (forall i :: 0 <= i < |rows| ==> rows[i].seqNo >= 1)
    && (forall i, j :: 0 <= i < j < |rows| ==> rows[i].seqNo < rows[j].seqNo)
  }

  ghost predicate GoodRows(t: Tables) {
    forall k :: k in t.log ==> AllIntact(t.log[k]) && Ordered(t.log[k])
  }

  ghost predicate GoodDocuments(t: Tables) {
    forall id :: id in t.documents ==>
      t.documents[id].epoch >= 1 && t.documents[id].snapshot.size > 0 && t.documents[id].baseRevision >= 0
  }

  /** No log row carries an epoch above its document's current one. */
  ghost predicate Fenced(t: Tables) {
    forall k :: k in t.log && t.log[k] != [] ==> k.musicId in t.documents && k.epoch <= t.documents[k.musicId].epoch
  }

  ghost predicate Conserved(w: World) {
    && w.promises.Keys == w.tables.documents.Keys
    && forall id :: id in w.tables.documents ==>
         && Contents(w.tables, id) == w.promises[id].base + w.promises[id].accepted
         && w.tables.documents[id].snapshot.ops == w.promises[id].base + w.promises[id].merged
         && w.promises[id].merged <= w.promises[id].accepted
  }

  function LastEntry(ledger: seq<LedgerRow>, musicId: int, epoch: int): Option<LedgerRow> {
    if ledger == [] then None
    else
      var last := ledger[|ledger| - 1];
      if last.musicId == musicId && last.epoch == epoch then Some(last)
      else LastEntry(ledger[..|ledger| - 1], musicId, epoch)
  }

  predicate Follows(previous: LedgerRow, next: LedgerRow) {
    next.baseRevision == previous.newRevision && next.baseAuthority == previous.newAuthority
  }

  ghost predicate Chained(ledger: seq<LedgerRow>) {
    forall n :: 0 <= n < |ledger| ==>
      var previous := LastEntry(ledger[..n], ledger[n].musicId, ledger[n].epoch);
      previous.Some? ==> Follows(previous.value, ledger[n])
  }

  /** The open end of every chain is the document row itself, and a closed
      epoch is below the current one. */
  ghost predicate LedgerHead(t: Tables) {
    forall id, epoch ::
      var last := LastEntry(t.ledger, id, epoch);
      last.Some? ==>
        && id in t.documents
        && epoch <= t.documents[id].epoch
        && (epoch == t.documents[id].epoch ==>
              t.documents[id].baseRevision == last.value.newRevision && t.documents[id].authority == last.value.newAuthority)
  }

  /** Everything in the invariant that is about the tables alone. */
  ghost predicate Sound(t: Tables) {
    GoodRows(t) && GoodDocuments(t) && Fenced(t) && Chained(t.ledger) && LedgerHead(t)
  }

  ghost predicate Inv(w: World) {
    Sound(w.tables) && Conserved(w)
  }

  // ---- lemmas about rows ----

  lemma {:induction false} MaxSeqIsLast(rows: seq<LogRow>)
    requires Ordered(rows)
    ensures MaxSeq(rows) == if rows == [] then 0 else rows[|rows| - 1].seqNo
  {
    if rows != [] {
      MaxSeqIsLast(rows[..|rows| - 1]);
    }
  }

  lemma {:induction false} KeepAboveNothing(rows: seq<LogRow>, cutoff: int)
    requires forall i :: 0 <= i < |rows| ==> rows[i].seqNo <= cutoff
    ensures KeepAbove(rows, cutoff) == []
  {
    if rows != [] {
      KeepAboveNothing(rows[1..], cutoff);
    }
  }

  /** The rows a checkpoint deletes by `seq<=cutoff` are exactly those it merged. */
  lemma CutoffCoversTheLog(rows: seq<LogRow>)
    requires Ordered(rows)
    ensures KeepAbove(rows, MaxSeq(rows)) == [] && (rows != [] ==> MaxSeq(rows) > 0)
  {
    MaxSeqIsLast(rows);
    KeepAboveNothing(rows, MaxSeq(rows));
  }

  // ---- each transaction on the room's contents ----

  lemma StoreAddsItsUpdate(t: Tables, room: Option<RoomIdentity>, update: Update)
    requires StoreUpdate(t, room, update).result.Ok?
    ensures var id, t' := room.value.musicId, StoreUpdate(t, room, update).tables;
            id in t.documents && t'.documents == t.documents
            && Contents(t', id) == Contents(t, id) + update.ops
  {
    var identity := room.value;
    var rows := Rows(t, identity);
    var row := LogRow(MaxSeq(rows) + 1, update, Sha256(update), update.size);
    UpdatesSnoc(rows, row);
    JoinOpsConcat(Updates(rows), [update]);
    assert Rows(StoreUpdate(t, room, update).tables, identity) == rows + [row];
    assert JoinOps([update]) == update.ops + JoinOps([]);
  }

  /** Compaction, whether it merges, finds nothing or fails, leaves what every room loads. */
  lemma CompactKeepsContents(t: Tables, room: Option<RoomIdentity>, encoding: Encoding, id: int)
    requires id in t.documents
    ensures var t' := Compact(t, room, encoding).tables;
            id in t'.documents && Contents(t', id) == Contents(t, id)
            && t'.documents[id] == t.documents[id].(snapshot := t'.documents[id].snapshot)
  {
    var t' := Compact(t, room, encoding).tables;
    if t' != t {
      var identity := room.value;
      var row := t.documents[identity.musicId];
      JoinOpsCons(row.snapshot, Updates(Rows(t, identity)));
      assert Rows(t', identity) == [];
    }
  }

  /** After a compaction that did not fail, the snapshot is all there is. */
  lemma CompactEmptiesTheLog(t: Tables, room: Option<RoomIdentity>, encoding: Encoding)
    requires Compact(t, room, encoding).result.Ok?
    ensures var id, t' := room.value.musicId, Compact(t, room, encoding).tables;
            id in t'.documents && Contents(t', id) == t'.documents[id].snapshot.ops
  {
    FreshEpochContents(Compact(t, room, encoding).tables, room.value.musicId);
  }

  /** A checkpoint commit adds exactly its own update to whatever the row and
      log hold by then, however old the caller's encoding is. */
  lemma CommitAddsItsUpdate(t: Tables, b: Baseline, update: Update, newRevision: int, newAuthority: Fingerprint,
                            actor: string, changed: bool, encoding: Encoding)
    requires GoodRows(t)
    requires CommitCheckpoint(t, b, update, newRevision, newAuthority, actor, changed, encoding).result.Ok?
    ensures var t' := CommitCheckpoint(t, b, update, newRevision, newAuthority, actor, changed, encoding).tables;
            b.musicId in t.documents && b.musicId in t'.documents
            && Contents(t', b.musicId) == Contents(t, b.musicId) + update.ops
            && Rows(t', RoomIdentity(b.musicId, b.epoch)) == []
  {
    var row := t.documents[b.musicId];
    var identity := RoomIdentity(b.musicId, b.epoch);
    var rows := Rows(t, identity);
    CutoffCoversTheLog(rows);
    JoinOpsTwo(row.snapshot, update, Updates(rows));
  }

  lemma ContentsDependOn(t: Tables, t': Tables, id: int)
    requires id in t.documents && id in t'.documents
    requires t'.documents[id].epoch == t.documents[id].epoch && t'.documents[id].snapshot == t.documents[id].snapshot
    requires Rows(t', RoomIdentity(id, t.documents[id].epoch)) == Rows(t, RoomIdentity(id, t.documents[id].epoch))
    ensures Contents(t', id) == Contents(t, id)
  {}

  lemma FreshEpochContents(t: Tables, id: int)
    requires id in t.documents && Rows(t, RoomIdentity(id, t.documents[id].epoch)) == []
    ensures Contents(t, id) == t.documents[id].snapshot.ops
  {
    assert Updates([]) == [];
  }

  lemma AppendKeepsChain(ledger: seq<LedgerRow>, row: LedgerRow)
    requires Chained(ledger)
    requires var previous := LastEntry(ledger, row.musicId, row.epoch); previous.Some? ==> Follows(previous.value, row)
    ensures Chained(ledger + [row])
  {
    forall n | 0 <= n < |ledger + [row]|
      ensures var previous := LastEntry((ledger + [row])[..n], (ledger + [row])[n].musicId, (ledger + [row])[n].epoch);
              previous.Some? ==> Follows(previous.value, (ledger + [row])[n])
    {
      if n < |ledger| {
        assert (ledger + [row])[..n] == ledger[..n];
      } else {
        assert (ledger + [row])[..n] == ledger;
      }
    }
  }

  lemma LastEntrySnoc(ledger: seq<LedgerRow>, row: LedgerRow, id: int, epoch: int)
    ensures LastEntry(ledger + [row], id, epoch)
         == if row.musicId == id && row.epoch == epoch then Some(row) else LastEntry(ledger, id, epoch)
  {
    assert (ledger + [row])[..|ledger|] == ledger;
  }

  /** A row appended by a checkpoint extends its chain, and stays its open end
      when the document row moved to the same pair or to a later epoch. */
  lemma AppendKeepsHeads(t: Tables, t': Tables, row: LedgerRow)
    requires Chained(t.ledger) && LedgerHead(t) && t'.ledger == t.ledger + [row]
    requires row.musicId in t.documents && row.epoch == t.documents[row.musicId].epoch
    requires row.baseRevision == t.documents[row.musicId].baseRevision && row.baseAuthority == t.documents[row.musicId].authority
    requires t'.documents.Keys == t.documents.Keys
    requires forall id :: id in t.documents && id != row.musicId ==> t'.documents[id] == t.documents[id]
    requires var head := t'.documents[row.musicId];
             || head.epoch > row.epoch
             || (head.epoch == row.epoch && head.baseRevision == row.newRevision && head.authority == row.newAuthority)
    ensures Chained(t'.ledger) && LedgerHead(t')
  {
    AppendKeepsChain(t.ledger, row);
    forall id, epoch
      ensures LastEntry(t'.ledger, id, epoch)
           == if row.musicId == id && row.epoch == epoch then Some(row) else LastEntry(t.ledger, id, epoch)
    {
      LastEntrySnoc(t.ledger, row, id, epoch);
    }
  }

  // ---- the invariant is kept ----

  lemma StoreKeepsSound(t: Tables, room: Option<RoomIdentity>, update: Update)
    requires Sound(t)
    ensures Sound(StoreUpdate(t, room, update).tables)
  {
    if StoreUpdate(t, room, update).result.Ok? {
      MaxSeqIsLast(Rows(t, room.value));
    }
  }

  lemma CompactKeepsSound(t: Tables, room: Option<RoomIdentity>, encoding: Encoding)
    requires Sound(t)
    ensures Sound(Compact(t, room, encoding).tables)
  {}

  lemma InsertKeepsSound(t: Tables, id: int, document: Document, seed: Update)
    requires Sound(t)
    ensures Sound(InsertRoom(t, id, document, seed).tables)
  {}

  lemma CommitKeepsSound(t: Tables, b: Baseline, update: Update, newRevision: int, newAuthority: Fingerprint,
                         actor: string, changed: bool, encoding: Encoding)
    requires Sound(t)
    ensures Sound(CommitCheckpoint(t, b, update, newRevision, newAuthority, actor, changed, encoding).tables)
  {
    var o := CommitCheckpoint(t, b, update, newRevision, newAuthority, actor, changed, encoding);
    if o.result.Ok? {
      CutoffCoversTheLog(Rows(t, RoomIdentity(b.musicId, b.epoch)));
      AppendKeepsHeads(t, o.tables, LedgerEntry(b, newRevision, newAuthority, actor, changed));
    }
  }

  lemma ReseedKeepsSound(t: Tables, b: Baseline, document: Document, seed: Option<Update>, actor: string, changed: bool)
    requires Sound(t)
    ensures Sound(ReseedCheckpoint(t, b, document, seed, actor, changed).tables)
  {
    var o := ReseedCheckpoint(t, b, document, seed, actor, changed);
    if o.result.Ok? {
      AppendKeepsHeads(t, o.tables, LedgerEntry(b, document.revision, Fingerprint(document), actor, changed));
    }
  }

  lemma ReplaceKeepsSound(t: Tables, id: int, document: Document, seed: Option<Update>)
    requires Sound(t) && (id in t.documents ==> t.documents[id].epoch < MAX_INT64)
    ensures Sound(Replace(t, id, document, seed).tables)
  {}

  lemma BumpKeepsSound(t: Tables, songs: set<int>)
    requires Sound(t)
    ensures Sound(BumpEpochs(t, songs))
  {}

  lemma StepKeepsSound(w: World, event: Event)
    requires Sound(w.tables) && Admissible(w.tables, event)
    ensures Sound(Step(w, event).tables)
  {
    match event
    case Store(room, u) => StoreKeepsSound(w.tables, room, u);
    case Compacted(room, e) => CompactKeepsSound(w.tables, room, e);
    case Inserted(id, d, seed) => InsertKeepsSound(w.tables, id, d, seed);
    case Committed(b, u, r, a, actor, c, e) => CommitKeepsSound(w.tables, b, u, r, a, actor, c, e);
    case Reseeded(b, d, seed, actor, c) => ReseedKeepsSound(w.tables, b, d, seed, actor, c);
    case Replaced(id, d, seed) => ReplaceKeepsSound(w.tables, id, d, seed);
    case Bumped(songs) => BumpKeepsSound(w.tables, songs);
  }

  /** Contents of one song across one transaction, case by case. */
  lemma StoreConserves(w: World, room: Option<RoomIdentity>, u: Update)
    requires Conserved(w) && StoreUpdate(w.tables, room, u).result.Ok?
    ensures Conserved(World(StoreUpdate(w.tables, room, u).tables, Accept(w.promises, room.value.musicId, u.ops)))
  {
    var t' := StoreUpdate(w.tables, room, u).tables;
    StoreAddsItsUpdate(w.tables, room, u);
    forall id | id in t'.documents && id != room.value.musicId ensures Contents(t', id) == Contents(w.tables, id) {
      ContentsDependOn(w.tables, t', id);
    }
  }

  lemma CompactConserves(w: World, room: Option<RoomIdentity>, encoding: Encoding)
    requires Conserved(w) && Compact(w.tables, room, encoding).result.Ok?
    ensures Conserved(World(Compact(w.tables, room, encoding).tables, Merge(w.promises, room.value.musicId)))
  {
    var t' := Compact(w.tables, room, encoding).tables;
    CompactEmptiesTheLog(w.tables, room, encoding);
    forall id | id in w.tables.documents ensures Contents(t', id) == Contents(w.tables, id) {
      CompactKeepsContents(w.tables, room, encoding, id);
    }
  }

  lemma CommitConserves(w: World, b: Baseline, update: Update, newRevision: int, newAuthority: Fingerprint,
                        actor: string, changed: bool, encoding: Encoding)
    requires Conserved(w) && Sound(w.tables)
    requires CommitCheckpoint(w.tables, b, update, newRevision, newAuthority, actor, changed, encoding).result.Ok?
    ensures Conserved(World(CommitCheckpoint(w.tables, b, update, newRevision, newAuthority, actor, changed, encoding).tables,
                            Merge(Accept(w.promises, b.musicId, update.ops), b.musicId)))
  {
    var t' := CommitCheckpoint(w.tables, b, update, newRevision, newAuthority, actor, changed, encoding).tables;
    CommitAddsItsUpdate(w.tables, b, update, newRevision, newAuthority, actor, changed, encoding);
    FreshEpochContents(t', b.musicId);
    forall id | id in t'.documents && id != b.musicId ensures Contents(t', id) == Contents(w.tables, id) {
      ContentsDependOn(w.tables, t', id);
    }
  }

  /** Inserting, reseeding and replacing: one song starts over from a seed. */
  lemma StartOverConserves(w: World, t': Tables, id: int, seed: Update)
    requires Conserved(w) && id in t'.documents && t'.documents[id].snapshot == seed
    requires t'.documents.Keys == w.tables.documents.Keys + {id}
    requires Rows(t', RoomIdentity(id, t'.documents[id].epoch)) == []
    requires forall other :: other in w.tables.documents && other != id ==> t'.documents[other] == w.tables.documents[other]
    requires forall k: RoomIdentity :: k.musicId != id ==> Rows(t', k) == Rows(w.tables, k)
    ensures Conserved(World(t', w.promises[id := Promise(seed.ops, {}, {})]))
  {
    FreshEpochContents(t', id);
    forall other | other in t'.documents && other != id ensures Contents(t', other) == Contents(w.tables, other) {
      ContentsDependOn(w.tables, t', other);
    }
  }

  lemma InsertConserves(w: World, id: int, document: Document, seed: Update)
    requires Conserved(w) && Sound(w.tables) && InsertRoom(w.tables, id, document, seed).result.Ok?
    ensures Conserved(World(InsertRoom(w.tables, id, document, seed).tables,
                            if id in w.tables.documents then w.promises else w.promises[id := Promise(seed.ops, {}, {})]))
  {
    if id !in w.tables.documents {
      assert Rows(w.tables, RoomIdentity(id, 1)) == [];
      StartOverConserves(w, InsertRoom(w.tables, id, document, seed).tables, id, seed);
    }
  }

  lemma ReseedConserves(w: World, b: Baseline, document: Document, seed: Option<Update>, actor: string, changed: bool)
    requires Conserved(w) && ReseedCheckpoint(w.tables, b, document, seed, actor, changed).result.Ok?
    ensures Conserved(World(ReseedCheckpoint(w.tables, b, document, seed, actor, changed).tables,
                            w.promises[b.musicId := Promise(seed.value.ops, {}, {})]))
  {
    StartOverConserves(w, ReseedCheckpoint(w.tables, b, document, seed, actor, changed).tables, b.musicId, seed.value);
  }

  lemma ReplaceConserves(w: World, id: int, document: Document, seed: Option<Update>)
    requires Conserved(w) && Replace(w.tables, id, document, seed).result.Ok?
    ensures Conserved(World(Replace(w.tables, id, document, seed).tables, w.promises[id := Promise(seed.value.ops, {}, {})]))
  {
    StartOverConserves(w, Replace(w.tables, id, document, seed).tables, id, seed.value);
  }

  lemma BumpConserves(w: World, songs: set<int>)
    requires Conserved(w) && Sound(w.tables)
    ensures Conserved(World(BumpEpochs(w.tables, songs), Promised(w.tables, w.promises, Bumped(songs))))
  {
    var t, t' := w.tables, BumpEpochs(w.tables, songs);
    forall id | id in t.documents
      ensures Contents(t', id) == if id in songs then t.documents[id].snapshot.ops else Contents(t, id)
    {
      if id in songs {
        assert Rows(t, RoomIdentity(id, t'.documents[id].epoch)) == [];
        FreshEpochContents(t', id);
      } else {
        ContentsDependOn(t, t', id);
      }
    }
  }

  lemma StepConserves(w: World, event: Event)
    requires Inv(w) && Admissible(w.tables, event) && Apply(w.tables, event).1
    ensures Conserved(Step(w, event))
  {
    var t := w.tables;
    match event
    case Store(room, u) => StoreConserves(w, room, u);
    case Compacted(room, e) => CompactConserves(w, room, e);
    case Inserted(id, d, seed) => InsertConserves(w, id, d, seed);
    case Committed(b, u, r, a, actor, c, e) => CommitConserves(w, b, u, r, a, actor, c, e);
    case Reseeded(b, d, seed, actor, c) => ReseedConserves(w, b, d, seed, actor, c);
    case Replaced(id, d, seed) => ReplaceConserves(w, id, d, seed);
    case Bumped(songs) => BumpConserves(w, songs);
  }

  lemma StepKeepsInvariant(w: World, event: Event)
    requires Inv(w) && Admissible(w.tables, event)
    ensures Inv(Step(w, event))
  {
    if Apply(w.tables, event).1 {
      StepKeepsSound(w, event);
      StepConserves(w, event);
    } else {
      RefusedChangesNothing(w.tables, event);
    }
  }

  lemma {:induction false} RunKeepsInvariant(w: World, events: seq<Event>)
    requires Inv(w) && AdmissibleRun(w, events)
    ensures Inv(Run(w, events))
  {
    if events != [] {
      var init, last := events[..|events| - 1], events[|events| - 1];
      forall n | 0 <= n < |init| ensures Admissible(Run(w, init[..n]).tables, init[n]) {
        assert init[..n] == events[..n];
      }
      RunKeepsInvariant(w, init);
      StepKeepsInvariant(Run(w, init), last);
    }
  }

  // ---- main results ----

  function CurrentRoom(t: Tables, musicId: int): RoomIdentity
    requires musicId in t.documents
  {
    RoomIdentity(musicId, t.documents[musicId].epoch)
  }

  /** Conservation: after any run from an empty database a load of a song's
      current room succeeds unless the snapshot is oversized or the merge of a
      non-empty log is refused, and then returns exactly what the epoch began
      with and everything accepted since. */
  lemma LoadReturnsEverythingAccepted(events: seq<Event>, musicId: int, encoding: Encoding)
    requires AdmissibleRun(EMPTY, events)
    requires musicId in Run(EMPTY, events).tables.documents
    ensures var w := Run(EMPTY, events);
            var row := w.tables.documents[musicId];
            var loaded := Load(w.tables, Some(CurrentRoom(w.tables, musicId)), encoding);
            && (loaded.Ok? <==> row.snapshot.size <= MAX_UPDATE_BYTES
                                && (Rows(w.tables, CurrentRoom(w.tables, musicId)) == []
                                    || (encoding.Encoded? && 0 < encoding.size <= MAX_UPDATE_BYTES)))
            && (loaded.Ok? ==> musicId in w.promises
                               && loaded.value.ops == w.promises[musicId].base + w.promises[musicId].accepted)
  {
    RunKeepsInvariant(EMPTY, events);
    LoadIsContents(Run(EMPTY, events).tables, musicId, encoding);
  }

  lemma LoadIsContents(t: Tables, musicId: int, encoding: Encoding)
    requires Sound(t) && musicId in t.documents
    ensures var row := t.documents[musicId];
            var loaded := Load(t, Some(CurrentRoom(t, musicId)), encoding);
            && (loaded.Ok? <==> row.snapshot.size <= MAX_UPDATE_BYTES
                                && (Rows(t, CurrentRoom(t, musicId)) == []
                                    || (encoding.Encoded? && 0 < encoding.size <= MAX_UPDATE_BYTES)))
            && (loaded.Ok? ==> loaded.value.ops == Contents(t, musicId))
  {
    var row := t.documents[musicId];
    var rows := Rows(t, CurrentRoom(t, musicId));
    JoinOpsCons(row.snapshot, Updates(rows));
    if rows == [] {
      FreshEpochContents(t, musicId);
    }
  }

  lemma EpochNeverFalls(t: Tables, event: Event, id: int)
    requires Admissible(t, event) && id in t.documents
    ensures id in Apply(t, event).0.documents && Apply(t, event).0.documents[id].epoch >= t.documents[id].epoch
  {}

  /** Without the bound the claim fails, and only there: replacing a song lowers
      its epoch exactly at the int64 maximum. */
  lemma ReplaceLowersEpochExactlyAtMaximum(t: Tables, id: int, document: Document, seed: Option<Update>)
    requires id in t.documents && 1 <= t.documents[id].epoch <= MAX_INT64
    requires Replace(t, id, document, seed).result.Ok?
    ensures Replace(t, id, document, seed).tables.documents[id].epoch < t.documents[id].epoch
       <==> t.documents[id].epoch == MAX_INT64
  {}

  lemma {:induction false} EpochsOnlyGrow(w: World, events: seq<Event>, id: int)
    requires AdmissibleRun(w, events) && id in w.tables.documents
    ensures id in Run(w, events).tables.documents
         && Run(w, events).tables.documents[id].epoch >= w.tables.documents[id].epoch
  {
    if events != [] {
      var init, last := events[..|events| - 1], events[|events| - 1];
      forall n | 0 <= n < |init| ensures Admissible(Run(w, init[..n]).tables, init[n]) {
        assert init[..n] == events[..n];
      }
      EpochsOnlyGrow(w, init, id);
      EpochNeverFalls(Run(w, init).tables, last, id);
    }
  }

  /** Fencing: once a room's epoch is over, no later run lets anyone store into
      it, compact it, load it or checkpoint it. */
  lemma RetiredRoomStaysShut(w: World, events: seq<Event>, room: RoomIdentity, update: Update, encoding: Encoding,
                             b: Baseline, revision: int, authority: Fingerprint, actor: string, changed: bool)
    requires AdmissibleRun(w, events)
    requires room.musicId in w.tables.documents && room.epoch < w.tables.documents[room.musicId].epoch
    requires b.musicId == room.musicId && b.epoch == room.epoch
    requires 0 < update.size <= MAX_UPDATE_BYTES
    ensures var t := Run(w, events).tables;
            && StoreUpdate(t, Some(room), update) == Outcome(t, Err(RetiredRoom))
            && Compact(t, Some(room), encoding) == Outcome(t, Err(RetiredRoom))
            && Load(t, Some(room), encoding) == Err(RetiredRoom)
            && CommitCheckpoint(t, b, update, revision, authority, actor, changed, encoding) == Outcome(t, Err(RetiredRoom))
  {
    EpochsOnlyGrow(w, events, room.musicId);
  }

  /** What the first load of a new epoch holds. Reseeding and replacing start
      from the seed alone; a bump starts from the snapshot and drops the log. */
  lemma ReseedStartsFromTheSeed(t: Tables, b: Baseline, document: Document, seed: Option<Update>, actor: string, changed: bool)
    requires Sound(t) && ReseedCheckpoint(t, b, document, seed, actor, changed).result.Ok?
    ensures var t' := ReseedCheckpoint(t, b, document, seed, actor, changed).tables;
            && b.musicId in t.documents && t'.documents[b.musicId].epoch == t.documents[b.musicId].epoch + 1
            && Contents(t', b.musicId) == seed.value.ops
  {
    FreshEpochContents(ReseedCheckpoint(t, b, document, seed, actor, changed).tables, b.musicId);
  }

  lemma ReplaceStartsFromTheSeed(t: Tables, id: int, document: Document, seed: Option<Update>)
    requires Replace(t, id, document, seed).result.Ok?
    ensures Contents(Replace(t, id, document, seed).tables, id) == seed.value.ops
  {
    FreshEpochContents(Replace(t, id, document, seed).tables, id);
  }

  lemma BumpStartsFromTheSnapshot(t: Tables, songs: set<int>, id: int)
    requires Sound(t) && id in songs && id in t.documents
    ensures Contents(BumpEpochs(t, songs), id) == t.documents[id].snapshot.ops
  {
    var t' := BumpEpochs(t, songs);
    assert Rows(t, RoomIdentity(id, t'.documents[id].epoch)) == [];
    FreshEpochContents(t', id);
  }

  /** A refused transaction leaves every table as it was. */
  lemma RefusedChangesNothing(t: Tables, event: Event)
    requires !Apply(t, event).1
    ensures Apply(t, event).0 == t
  {}

  /** The checkpoints of one epoch form a chain: between two consecutive ledger
      rows of a song's epoch the base pair is the previous row's new pair, and
      the newest row of the current epoch ends at the document row's pair. */
  lemma LedgerRowsFormChains(events: seq<Event>, i: nat, j: nat)
    requires AdmissibleRun(EMPTY, events)
    requires var ledger := Run(EMPTY, events).tables.ledger;
             i < j < |ledger| && ledger[i].musicId == ledger[j].musicId && ledger[i].epoch == ledger[j].epoch
             && forall k :: i < k < j ==> ledger[k].musicId != ledger[j].musicId || ledger[k].epoch != ledger[j].epoch
    ensures var ledger := Run(EMPTY, events).tables.ledger; Follows(ledger[i], ledger[j])
  {
    RunKeepsInvariant(EMPTY, events);
    var ledger := Run(EMPTY, events).tables.ledger;
    LastEntryIs(ledger[..j], i, ledger[j].musicId, ledger[j].epoch);
  }

  lemma {:induction false} LastEntryIs(ledger: seq<LedgerRow>, i: nat, id: int, epoch: int)
    requires i < |ledger| && ledger[i].musicId == id && ledger[i].epoch == epoch
    requires forall k :: i < k < |ledger| ==> ledger[k].musicId != id || ledger[k].epoch != epoch
    ensures LastEntry(ledger, id, epoch) == Some(ledger[i])
    decreases |ledger|
  {
    if i < |ledger| - 1 {
      LastEntryIs(ledger[..|ledger| - 1], i, id, epoch);
    }
  }

  lemma LedgerEndsAtTheRow(events: seq<Event>, id: int)
    requires AdmissibleRun(EMPTY, events) && id in Run(EMPTY, events).tables.documents
    ensures var t := Run(EMPTY, events).tables;
            var last := LastEntry(t.ledger, id, t.documents[id].epoch);
            last.Some? ==> last.value.newRevision == t.documents[id].baseRevision
                           && last.value.newAuthority == t.documents[id].authority
  {
    RunKeepsInvariant(EMPTY, events);
  }
}
