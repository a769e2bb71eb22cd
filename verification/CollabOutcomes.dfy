/** When each transaction of persistence.go succeeds, and what it then leaves,
    said of the tables and the authoritative lyrics alone. */
module CollabOutcomes {

  import opened Wrappers
  import opened Decimal
  import opened RoomNames
  import opened CollabPersistence
  import opened CollabHistory

  predicate Fits(size: nat) {
    0 < size <= MAX_UPDATE_BYTES
  }

  predicate Readable(encoding: Encoding) {
    encoding.Encoded? && Fits(encoding.size)
  }

  /** The song's row is of this epoch. */
  predicate AtEpoch(t: Tables, room: RoomIdentity) {
    room.musicId in t.documents && t.documents[room.musicId].epoch == room.epoch
  }

  predicate RowIs(t: Tables, id: int, row: DocumentRow) {
    id in t.documents && t.documents[id] == row
  }

  /** The song's rows and logs aside, both tables are the same. */
  ghost predicate SameOtherSongs(t: Tables, t': Tables, id: int) {
    && t'.documents - {id} == t.documents - {id}
    && forall room: RoomIdentity :: room.musicId != id ==> Rows(t', room) == Rows(t, room)
  }

  // ---- the room of a ticket ----

  /** ensureRoom gives a baseline if and only if the song's row, there before or
      inserted from a seed that is not empty, carries the authoritative
      document's fingerprint and revision; the baseline is then that row. */
  lemma EnsureSucceedsExactly(t: Tables, authority: Authority, id: int, seed: Option<Update>)
    ensures var o := EnsureRoom(t, authority, id, seed);
            && (o.result.Ok? <==> id > 0 && exists d, row :: HasLyrics(authority, id, d) && RowFor(t, id, d, seed, row) && Agrees(row, d))
            && (o.result.Ok? ==>
                  && id in o.tables.documents
                  && var row := o.tables.documents[id];
                     && o.result.value == Baseline(id, row.epoch, row.snapshot, row.baseRevision, row.authority)
                     && (exists d :: HasLyrics(authority, id, d) && RowFor(t, id, d, seed, row) && Agrees(row, d))
                     && o.tables == t.(documents := t.documents[id := row]))
            && (o.result.Err? ==> o.tables == t)
  {
    if id > 0 && !LacksLyrics(authority, id) {
      var d := if id in authority.documents then authority.documents[id] else Document(id, Legacy, 0, BLANK);
      assert HasLyrics(authority, id, d);
      if id in t.documents {
        assert RowFor(t, id, d, seed, t.documents[id]);
        assert t.documents[id := t.documents[id]] == t.documents;
      } else if seed.Some? && seed.value.size > 0 && d.revision >= 0 {
        assert RowFor(t, id, d, seed, DocumentRow(1, seed.value, d.revision, Fingerprint(d)));
      }
    }
  }

  /** Drift is reported exactly when an existing row disagrees with the document,
      and every other refusal has its own cause. */
  lemma EnsureRefusesExactly(t: Tables, authority: Authority, id: int, seed: Option<Update>)
    ensures var r := EnsureRoom(t, authority, id, seed).result;
            && (r == Err(AuthorityDrift) <==>
                  id > 0 && id in t.documents && exists d :: HasLyrics(authority, id, d) && !Agrees(t.documents[id], d))
            && (r == Err(InvalidRoom) <==> id <= 0)
            && (r == Err(LyricsNotFound) <==> id > 0 && LacksLyrics(authority, id))
            && (r == Err(EncodeFailed) <==> id > 0 && !LacksLyrics(authority, id) && id !in t.documents && seed.None?)
            && (r.Err? && r.error !in {AuthorityDrift, InvalidRoom, LyricsNotFound, EncodeFailed} ==> r == Err(ConstraintFailed))
  {
    if !LacksLyrics(authority, id) {
      var d := if id in authority.documents then authority.documents[id] else Document(id, Legacy, 0, BLANK);
      assert HasLyrics(authority, id, d);
    }
  }

  /** After a drift the replacement with the authoritative document puts things
      right: the next look succeeds, at that document's revision and
      fingerprint, in the new epoch. */
  lemma ReplacementEndsDrift(t: Tables, authority: Authority, id: int, document: Document, seed: Option<Update>, later: Option<Update>)
    requires id > 0 && HasLyrics(authority, id, document) && Replace(t, id, document, seed).result.Ok?
    ensures var replaced := Replace(t, id, document, seed);
            var o := EnsureRoom(replaced.tables, authority, id, later);
            && o.tables == replaced.tables
            && o.result == Ok(Baseline(id, replaced.result.value.newEpoch, seed.value, document.revision, Fingerprint(document)))
            && (id in t.documents && t.documents[id].epoch < MAX_INT64 ==> o.result.value.epoch != t.documents[id].epoch)
  {}

  /** And while row and document stay as they are, so does the answer. */
  lemma EnsureIsStable(t: Tables, authority: Authority, id: int, seed: Option<Update>, later: Option<Update>)
    requires EnsureRoom(t, authority, id, seed).result.Ok?
    ensures var o := EnsureRoom(t, authority, id, seed);
            EnsureRoom(o.tables, authority, id, later) == o
  {}

  // ---- the transactions of a room ----

  lemma LoadSucceedsExactly(t: Tables, parsed: Option<RoomIdentity>, encoding: Encoding)
    ensures var r := Load(t, parsed, encoding);
            && (r.Ok? <==> parsed.Some? && AtEpoch(t, parsed.value) && Fits(t.documents[parsed.value.musicId].snapshot.size)
                           && AllIntact(Rows(t, parsed.value)) && (Rows(t, parsed.value) == [] || Readable(encoding)))
            && (r.Ok? ==> r.value.ops == Contents(t, parsed.value.musicId) && Fits(r.value.size))
  {
    if parsed.Some? && parsed.value.musicId in t.documents {
      var row, rows := t.documents[parsed.value.musicId], Rows(t, parsed.value);
      JoinOpsCons(row.snapshot, Updates(rows));
      if rows == [] && row.epoch == parsed.value.epoch {
        FreshEpochContents(t, parsed.value.musicId);
      }
    }
  }

  /** A store is accepted exactly for an update within bounds in the song's
      current epoch, and appends one intact row numbered above all others. */
  lemma StoreSucceedsExactly(t: Tables, parsed: Option<RoomIdentity>, update: Update)
    ensures var o := StoreUpdate(t, parsed, update);
            && (o.result.Ok? <==> parsed.Some? && Fits(update.size) && AtEpoch(t, parsed.value))
            && (o.result.Ok? ==>
                  && o.tables.documents == t.documents && o.tables.ledger == t.ledger
                  && Rows(t, parsed.value) <= Rows(o.tables, parsed.value)
                  && |Rows(o.tables, parsed.value)| == |Rows(t, parsed.value)| + 1
                  && var row := Rows(o.tables, parsed.value)[|Rows(t, parsed.value)|];
                     && row.update == update && Intact(row)
                     && forall i :: 0 <= i < |Rows(t, parsed.value)| ==> Rows(t, parsed.value)[i].seqNo < row.seqNo)
            && (forall room :: Some(room) != parsed ==> Rows(o.tables, room) == Rows(t, room))
  {
    if parsed.Some? {
      MaxSeqIsMax(Rows(t, parsed.value));
    }
  }

  lemma {:induction false} MaxSeqIsMax(rows: seq<LogRow>)
    ensures MaxSeq(rows) >= 0 && forall i :: 0 <= i < |rows| ==> rows[i].seqNo <= MaxSeq(rows)
  {
    if rows != [] {
      MaxSeqIsMax(rows[..|rows| - 1]);
      assert forall i :: 0 <= i < |rows| - 1 ==> rows[i] == rows[..|rows| - 1][i];
    }
  }

  /** A compaction that merges leaves a readable snapshot and an empty log. */
  lemma CompactSucceedsExactly(t: Tables, parsed: Option<RoomIdentity>, encoding: Encoding)
    ensures var o := Compact(t, parsed, encoding);
            && (o.result.Ok? <==> parsed.Some? && AtEpoch(t, parsed.value) && AllIntact(Rows(t, parsed.value))
                                  && (Rows(t, parsed.value) == [] || Readable(encoding)))
            && (o.result.Ok? ==> Rows(o.tables, parsed.value) == [] && o.tables.ledger == t.ledger
                                 && SameOtherSongs(t, o.tables, parsed.value.musicId))
            && (o.result.Ok? && Rows(t, parsed.value) != [] ==> o.tables.documents[parsed.value.musicId].snapshot.size == encoding.size)
  {}

  /** A checkpoint commits exactly on the baseline's own row, with everything
      within bounds, and then that row carries the new revision and fingerprint. */
  lemma CommitSucceedsExactly(t: Tables, b: Baseline, update: Update, newRevision: int, newAuthority: Fingerprint,
                              actor: string, changed: bool, encoding: Encoding)
    ensures var o := CommitCheckpoint(t, b, update, newRevision, newAuthority, actor, changed, encoding);
            var room := RoomIdentity(b.musicId, b.epoch);
            && (o.result.Ok? <==>
                  && Fits(update.size) && AtEpoch(t, room) && Fits(t.documents[b.musicId].snapshot.size)
                  && t.documents[b.musicId].baseRevision == b.baseRevision && t.documents[b.musicId].authority == b.authority
                  && AllIntact(Rows(t, room)) && Readable(encoding) && newRevision >= 0 && newRevision >= b.baseRevision)
            && (o.result.Ok? ==>
                  && b.musicId in o.tables.documents && SameOtherSongs(t, o.tables, b.musicId)
                  && var row := o.tables.documents[b.musicId];
                     row.epoch == b.epoch && row.baseRevision == newRevision && row.authority == newAuthority && row.snapshot.size == encoding.size)
            && (o.result.Ok? ==>
                  var entry := LedgerRow(b.musicId, b.epoch, b.baseRevision, newRevision, b.authority, newAuthority, actor, changed);
                  o.tables.ledger == t.ledger + [entry])
  {}

  lemma ReseedSucceedsExactly(t: Tables, b: Baseline, document: Document, seed: Option<Update>, actor: string, changed: bool)
    ensures var o := ReseedCheckpoint(t, b, document, seed, actor, changed);
            && (o.result.Ok? <==>
                  && seed.Some? && seed.value.size > 0 && b.epoch != MAX_INT64 && AtEpoch(t, RoomIdentity(b.musicId, b.epoch))
                  && t.documents[b.musicId].baseRevision == b.baseRevision && t.documents[b.musicId].authority == b.authority
                  && document.revision >= 0 && document.revision >= b.baseRevision)
            && (o.result.Ok? ==>
                  && RowIs(o.tables, b.musicId, DocumentRow(b.epoch + 1, seed.value, document.revision, Fingerprint(document)))
                  && o.result.value == Switch(b.epoch, b.epoch + 1) && SameOtherSongs(t, o.tables, b.musicId)
                  && (forall epoch :: Rows(o.tables, RoomIdentity(b.musicId, epoch)) == []))
            && (o.result.Ok? ==>
                  var entry := LedgerRow(b.musicId, b.epoch, b.baseRevision, document.revision, b.authority, Fingerprint(document), actor, changed);
                  o.tables.ledger == t.ledger + [entry])
  {}

  /** A replacement asks only for a seed, and starts an epoch the song has not
      been at, the next one below the maximum. */
  lemma ReplaceSucceedsExactly(t: Tables, id: int, document: Document, seed: Option<Update>)
    ensures var o := Replace(t, id, document, seed);
            && (o.result.Ok? <==> seed.Some? && seed.value.size > 0 && document.revision >= 0)
            && (o.result.Ok? ==>
                  && RowIs(o.tables, id, DocumentRow(o.result.value.newEpoch, seed.value, document.revision, Fingerprint(document)))
                  && SameOtherSongs(t, o.tables, id) && o.tables.ledger == t.ledger
                  && (forall epoch :: Rows(o.tables, RoomIdentity(id, epoch)) == [])
                  && o.result.value.oldEpoch == (if id in t.documents then t.documents[id].epoch else 0)
                  && (0 <= o.result.value.oldEpoch < MAX_INT64 ==> o.result.value.newEpoch == o.result.value.oldEpoch + 1))
  {}
}
