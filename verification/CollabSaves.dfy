/** When a checkpoint's save commits, when it is refused and why, and what an
    undisturbed checkpoint leaves (checkpoint.go). The conditions speak of the
    draft, the lyrics and the song's row. */
module CollabSaves {

  import opened Wrappers
  import opened Decimal
  import opened RoomNames
  import opened CollabPersistence
  import CollabHistory
  import opened CollabOutcomes
  import opened CollabCheckpoint

  /** What decides over one save. */
  datatype Offer = Offer(draft: Document, valid: bool, choice: SaveChoice, encoded: Update, reseed: Option<Update>, encoding: Encoding)

  /** The row is still as the checkpoint read it. */
  predicate RowStands(t: Tables, base: Baseline) {
    && base.musicId in t.documents
    && t.documents[base.musicId].epoch == base.epoch
    && t.documents[base.musicId].baseRevision == base.baseRevision
    && t.documents[base.musicId].authority == base.authority
  }

  /** The draft is of the revision read earlier, and valid. */
  predicate DraftStands(s: System, v: Offer)
    requires s.stage.Taken?
  {
    v.draft.revision == s.stage.authority.revision && v.valid
  }

  /** The store still holds that revision and makes a choice it can make. */
  predicate StoreTakes(s: System, v: Offer, current: Document)
    requires s.stage.Taken?
  {
    && HasLyrics(s.authority, s.stage.base.musicId, current)
    && current.revision == v.draft.revision && !v.choice.Refuses? && LegalChoice(current, v.choice)
  }

  /** A first save that writes starts the room over. */
  predicate StartsOver(s: System, v: Offer)
    requires s.stage.Taken?
  {
    s.stage.base.baseRevision == 0 && v.choice.Writes?
  }

  /** There is room for what is written. */
  predicate WithinBounds(s: System, v: Offer)
    requires s.stage.Taken? && s.stage.base.musicId in s.tables.documents
  {
    if StartsOver(s, v) then v.reseed.Some? && v.reseed.value.size > 0 && s.stage.base.epoch != MAX_INT64
    else Fits(v.encoded.size) && Fits(s.tables.documents[s.stage.base.musicId].snapshot.size) && Readable(v.encoding)
  }

  /** All a save asks for. */
  predicate Commits(s: System, v: Offer, current: Document)
    requires s.stage.Taken?
  {
    DraftStands(s, v) && StoreTakes(s, v, current) && current.kind == s.stage.kind && RowStands(s.tables, s.stage.base) && WithinBounds(s, v)
  }

  /** The default edition's document after the save, and the document answered. */
  function After(v: Offer, current: Document): Document {
    if v.choice.Writes? then v.choice.after else current
  }

  function Final(v: Offer, current: Document): Document {
    if v.choice.Writes? then v.choice.final else current
  }

  function SaveResult(s: System, v: Offer, envelope: set<nat>, actor: string): Result<System, Failure>
    requires s.stage.Taken?
  {
    SaveTx(s, v.draft, v.valid, v.choice, v.encoded, envelope, v.reseed, v.encoding, actor)
  }

  lemma LyricsAreOne(authority: Authority, id: int, a: Document, b: Document)
    requires HasLyrics(authority, id, a) && HasLyrics(authority, id, b)
    ensures a == b && !LacksLyrics(authority, id)
  {}

  lemma LyricsRead(authority: Authority, id: int)
    ensures AuthoritativeDocument(authority, id).Ok? <==> !LacksLyrics(authority, id)
    ensures AuthoritativeDocument(authority, id).Ok? ==> HasLyrics(authority, id, AuthoritativeDocument(authority, id).value)
    ensures AuthoritativeDocument(authority, id).Err? ==> AuthoritativeDocument(authority, id).error == LyricsNotFound
  {}

  /** In every state a run can reach, a save commits if and only if the draft is
      of the revision read earlier and valid, the store still holds that revision
      and takes the draft, the kind is the baseline's, the row is as it was read,
      and there is room. */
  lemma SaveCommitsExactly(s: System, v: Offer, envelope: set<nat>, actor: string)
    requires Inv(s) && s.stage.Taken?
    ensures SaveResult(s, v, envelope, actor).Ok? <==> exists current :: Commits(s, v, current)
  {
    var id := s.stage.base.musicId;
    LyricsRead(s.authority, id);
    if AuthoritativeDocument(s.authority, id).Ok? {
      var current := AuthoritativeDocument(s.authority, id).value;
      AuthorityIsPositive(s, id);
      if DraftStands(s, v) && StoreTakes(s, v, current) {
        TransactionCommitsExactly(s, v, envelope, actor, current);
      }
      assert SaveResult(s, v, envelope, actor).Ok? <==> Commits(s, v, current);
    }
  }

  /** What is left of a save once the store has taken the draft. */
  lemma TransactionCommitsExactly(s: System, v: Offer, envelope: set<nat>, actor: string, current: Document)
    requires Inv(s) && s.stage.Taken? && DraftStands(s, v) && StoreTakes(s, v, current)
    ensures SaveResult(s, v, envelope, actor).Ok? <==>
              current.kind == s.stage.kind && RowStands(s.tables, s.stage.base) && WithinBounds(s, v)
  {
    var p := s.stage;
    var after := After(v, current);
    ReseedSucceedsExactly(s.tables, p.base, Final(v, current), v.reseed, actor, true);
    CommitSucceedsExactly(s.tables, p.base, v.encoded.(ops := p.document + v.encoded.ops + envelope), after.revision,
                          Fingerprint(after), actor, v.choice.Writes?, v.encoding);
  }

  /** Every refusal of the draft and of the store has its own condition. */
  lemma SaveRefusesExactly(s: System, v: Offer, envelope: set<nat>, actor: string)
    requires Inv(s) && s.stage.Taken?
    ensures var r, id := SaveResult(s, v, envelope, actor), s.stage.base.musicId;
            && (r == Err(RevisionConflict) <==> v.draft.revision != s.stage.authority.revision)
            && (r == Err(ImmutableDraft) <==> v.draft.revision == s.stage.authority.revision && !v.valid)
            && (r == Err(Failed(LyricsNotFound)) <==> DraftStands(s, v) && LacksLyrics(s.authority, id))
            && (r == Err(StoreRefused) <==> DraftStands(s, v) && exists d :: HasLyrics(s.authority, id, d) && !StoreTakes(s, v, d))
            && (r == Err(DocumentMismatch) <==> DraftStands(s, v) && exists d :: StoreTakes(s, v, d) && d.kind != s.stage.kind)
  {
    LyricsRead(s.authority, s.stage.base.musicId);
  }

  /** Draft, lyrics and store are as a save asks for. */
  ghost predicate Welcome(s: System, v: Offer)
    requires s.stage.Taken?
  {
    exists d :: DraftStands(s, v) && StoreTakes(s, v, d) && d.kind == s.stage.kind
  }

  lemma WelcomeMeans(s: System, v: Offer)
    requires Inv(s) && s.stage.Taken?
    ensures var loaded := AuthoritativeDocument(s.authority, s.stage.base.musicId);
            && (Welcome(s, v) <==> loaded.Ok? && DraftStands(s, v) && StoreTakes(s, v, loaded.value) && loaded.value.kind == s.stage.kind)
            && (loaded.Ok? ==> Positive(loaded.value))
  {
    LyricsRead(s.authority, s.stage.base.musicId);
    if !LacksLyrics(s.authority, s.stage.base.musicId) {
      AuthorityIsPositive(s, s.stage.base.musicId);
    }
  }

  /** So has every refusal of the room's own transaction: of a first save that writes, */
  lemma FirstSaveRefusesExactly(s: System, v: Offer, envelope: set<nat>, actor: string)
    requires Inv(s) && s.stage.Taken? && StartsOver(s, v)
    ensures var r, base := SaveResult(s, v, envelope, actor), s.stage.base;
            var seeded, last := v.reseed.Some?, base.epoch == MAX_INT64;
            && (r == Err(Failed(EncodeFailed)) <==> Welcome(s, v) && !seeded)
            && (r == Err(Failed(EpochExhausted)) <==> Welcome(s, v) && seeded && last)
            && (r == Err(Failed(RetiredRoom)) <==> Welcome(s, v) && seeded && !last && !RowStands(s.tables, base))
            && (r == Err(Failed(ConstraintFailed)) <==>
                  Welcome(s, v) && seeded && !last && RowStands(s.tables, base) && v.reseed.value.size == 0)
            && r != Err(Failed(MergeFailed)) && r != Err(Failed(UpdateTooLarge))
  {
    WelcomeMeans(s, v);
  }

  /** and of any other. */
  lemma LaterSaveRefusesExactly(s: System, v: Offer, envelope: set<nat>, actor: string)
    requires Inv(s) && s.stage.Taken? && !StartsOver(s, v)
    ensures var r, base := SaveResult(s, v, envelope, actor), s.stage.base;
            var stands := RowStands(s.tables, base) && Fits(v.encoded.size);
            var snapshot := if RowStands(s.tables, base) then s.tables.documents[base.musicId].snapshot.size else 0;
            && (r == Err(Failed(RetiredRoom)) <==> Welcome(s, v) && Fits(v.encoded.size) && !RowStands(s.tables, base))
            && (r == Err(Failed(MergeFailed)) <==> Welcome(s, v) && stands && Fits(snapshot) && v.encoding.Malformed?)
            && (r == Err(Failed(UpdateTooLarge)) <==>
                  Welcome(s, v) && (!Fits(v.encoded.size) || (stands && (!Fits(snapshot) || (v.encoding.Encoded? && !Fits(v.encoding.size))))))
            && r != Err(Failed(EncodeFailed)) && r != Err(Failed(EpochExhausted)) && r != Err(Failed(ConstraintFailed))
  {
    WelcomeMeans(s, v);
  }

  /** A save that commits leaves lyrics, row and ledger at the document chosen. */
  lemma SaveLeaves(s: System, v: Offer, envelope: set<nat>, actor: string, current: Document)
    requires Inv(s) && s.stage.Taken? && Commits(s, v, current)
    ensures var s', id := Step(s, Save(v.draft, v.valid, v.choice, v.encoded, envelope, v.reseed, v.encoding, actor)), s.stage.base.musicId;
            var after := After(v, current);
            && s'.stage == Saved(s.stage.base, v.choice.Writes?, s.stage.frozen, envelope)
            && HasLyrics(s'.authority, id, after)
            && (forall other, d :: other != id ==> (HasLyrics(s'.authority, other, d) <==> HasLyrics(s.authority, other, d)))
            && id in s'.tables.documents && Agrees(s'.tables.documents[id], after)
            && s'.tables.documents[id].epoch == s.stage.base.epoch + (if StartsOver(s, v) then 1 else 0)
            && s'.tables.ledger == s.tables.ledger
                 + [LedgerRow(id, s.stage.base.epoch, s.stage.base.baseRevision, after.revision, s.stage.base.authority, Fingerprint(after),
                              actor, v.choice.Writes?)]
            && (StartsOver(s, v) ==> Final(v, current) == after)
  {
    var p := s.stage;
    LyricsRead(s.authority, p.base.musicId);
    AuthorityIsPositive(s, p.base.musicId);
    LyricsAreOne(s.authority, p.base.musicId, current, AuthoritativeDocument(s.authority, p.base.musicId).value);
    TransactionCommitsExactly(s, v, envelope, actor, current);
  }

  /** And the room: a first save that writes leaves the seed, any other adds its
      document and envelope to what the room holds by then. */
  lemma SaveLeavesContents(s: System, v: Offer, envelope: set<nat>, actor: string, current: Document)
    requires Inv(s) && s.stage.Taken? && Commits(s, v, current)
    ensures SaveResult(s, v, envelope, actor).Ok?
    ensures var t, t', id := s.tables, SaveResult(s, v, envelope, actor).value.tables, s.stage.base.musicId;
            && id in t'.documents
            && Contents(t', id) == if StartsOver(s, v) then v.reseed.value.ops else Contents(t, id) + s.stage.document + v.encoded.ops + envelope
  {
    var p := s.stage;
    SaveCommitsExactly(s, v, envelope, actor);
    LyricsRead(s.authority, p.base.musicId);
    if StartsOver(s, v) {
      LyricsAreOne(s.authority, p.base.musicId, current, AuthoritativeDocument(s.authority, p.base.musicId).value);
      CollabHistory.ReseedStartsFromTheSeed(s.tables, p.base, Final(v, current), v.reseed, actor, true);
    } else {
      LaterSaveKeepsTheRoom(s, v.draft, v.valid, v.choice, v.encoded, envelope, v.reseed, v.encoding, actor);
    }
  }
}
