/** An undisturbed checkpoint (checkpoint.go), from its first read to its way out. */
module CollabQuietCheckpoint {

  import opened Wrappers
  import opened Decimal
  import opened RoomNames
  import opened CollabPersistence
  import opened CollabOutcomes
  import opened CollabCheckpoint
  import opened CollabCheckpointCalls
  import opened CollabSaves

  function OfferOf(c: Choices): Offer {
    Offer(c.draft, c.valid, c.choice, c.encoded, c.reseed, c.committed)
  }

  /** Everything that is read, stored or encoded on the way is within bounds. */
  predicate Roomy(s: System, id: int, c: Choices) {
    && Readable(c.baseline) && Readable(c.rebased) && Readable(c.reread) && Readable(c.committed) && Fits(c.encoded.size)
    && (id in s.tables.documents ==>
          && Fits(s.tables.documents[id].snapshot.size)
          && PendingFits(s, RoomIdentity(id, s.tables.documents[id].epoch)))
  }

  predicate PendingFits(s: System, room: RoomIdentity) {
    room in s.rooms ==> forall i :: 0 <= i < |s.rooms[room].pending| ==> Fits(s.rooms[room].pending[i].size)
  }

  /** The song has a row whose room has a name, and the row carries its lyrics. */
  predicate InStep(s: System, id: int, current: Document) {
    && id in s.tables.documents && ValidIdentity(RoomIdentity(id, s.tables.documents[id].epoch))
    && HasLyrics(s.authority, id, current) && Agrees(s.tables.documents[id], current)
  }

  /** The draft is of the row's revision, valid, and the store takes it. */
  predicate Takes(s: System, id: int, c: Choices, current: Document)
    requires id in s.tables.documents
  {
    var row := s.tables.documents[id];
    && c.draft.revision == row.baseRevision && c.valid && !c.choice.Refuses? && LegalChoice(current, c.choice)
    && (row.baseRevision == 0 && c.choice.Writes? ==> c.reseed.Some? && c.reseed.value.size > 0 && row.epoch != MAX_INT64)
  }

  // ---- stage by stage ----

  /** Nothing a save would move has moved. */
  predicate Unmoved(s: System, t: System) {
    t.authority == s.authority && t.tables.documents == s.tables.documents && t.tables.ledger == s.tables.ledger
  }

  predicate BaseIs(base: Baseline, id: int, row: DocumentRow) {
    base.musicId == id && base.epoch == row.epoch && base.baseRevision == row.baseRevision && base.authority == row.authority
  }

  lemma ReadsTheRow(t: Tables, id: int, encoding: Encoding)
    requires CollabHistory.Sound(t) && Readable(encoding) && (id in t.documents ==> Fits(t.documents[id].snapshot.size))
    ensures var r := ReadBaseline(t, id, encoding);
            && (r.Ok? <==> id in t.documents && ValidIdentity(RoomIdentity(id, t.documents[id].epoch)))
            && (r.Ok? ==> BaseIs(r.value, id, t.documents[id]))
  {
    if id in t.documents {
      LoadSucceedsExactly(t, Some(RoomIdentity(id, t.documents[id].epoch)), encoding);
    }
  }

  /** The baseline is read exactly when the song's row has a room with a name. */
  lemma Begins(s: System, id: int, c: Choices)
    requires Inv(s) && s.stage.Idle? && Roomy(s, id, c)
    ensures var t := Step(s, Begin(id, c.baseline));
            && Inv(t) && t == s.(stage := t.stage) && (t.stage.Idle? || t.stage.Based?)
            && (t.stage.Based? <==> id in s.tables.documents && ValidIdentity(RoomIdentity(id, s.tables.documents[id].epoch)))
            && (t.stage.Based? ==> BaseIs(t.stage.base, id, s.tables.documents[id]))
  {
    ReadsTheRow(s.tables, id, c.baseline);
    StepKeepsInvariant(s, Begin(id, c.baseline));
  }

  /** It is compared with the lyrics. */
  lemma Compares(s: System, id: int)
    requires Inv(s) && s.stage.Based? && id in s.tables.documents && BaseIs(s.stage.base, id, s.tables.documents[id])
    ensures var t := Step(s, Compare);
            && Inv(t) && t == s.(stage := t.stage) && (t.stage.Idle? || t.stage.Opened?)
            && (t.stage.Opened? <==> exists current :: HasLyrics(s.authority, id, current) && Agrees(s.tables.documents[id], current))
            && (t.stage.Opened? ==>
                  && t.stage.base == s.stage.base && t.stage.kind == t.stage.authority.kind
                  && HasLyrics(s.authority, id, t.stage.authority) && Agrees(s.tables.documents[id], t.stage.authority))
  {
    LyricsRead(s.authority, id);
    StepKeepsInvariant(s, Compare);
    if current :| HasLyrics(s.authority, id, current) && Agrees(s.tables.documents[id], current) {
      LyricsAreOne(s.authority, id, current, AuthoritativeDocument(s.authority, id).value);
    }
  }

  function AfterOpening(s: System, id: int, c: Choices): System {
    Step(Step(Step(s, Begin(id, c.baseline)), Compare), BeginRetiring)
  }

  /** Read and compared; a first save marks its room. */
  lemma Opens(s: System, id: int, c: Choices)
    requires Inv(s) && s.stage.Idle? && Roomy(s, id, c)
    ensures var t := AfterOpening(s, id, c);
            && Inv(t) && Unmoved(s, t) && t.rooms == s.rooms && t.tables == s.tables
            && (t.stage.Idle? || t.stage.Ready? || t.stage.Retiring?)
            && (!t.stage.Idle? <==> exists current :: InStep(s, id, current))
            && (!t.stage.Idle? ==>
                  && InStep(s, id, t.stage.authority) && BaseIs(t.stage.base, id, s.tables.documents[id])
                  && t.stage.kind == t.stage.authority.kind && (t.stage.Retiring? <==> t.stage.base.baseRevision == 0)
                  && (t.stage.Ready? ==> !t.stage.frozen))
            && (t.stage.Idle? ==> t == s)
  {
    Begins(s, id, c);
    var based := Step(s, Begin(id, c.baseline));
    if based.stage.Based? {
      Compares(based, id);
      MarksRoom(Step(based, Compare));
      if Step(based, Compare).stage.Opened? {
        assert InStep(s, id, Step(based, Compare).stage.authority);
      }
    }
  }

  lemma MarksRoom(s: System)
    requires Inv(s)
    ensures Inv(Step(s, BeginRetiring))
  {
    StepKeepsInvariant(s, BeginRetiring);
  }

  /** Everything pending is stored, and only the room's log has grown. */
  lemma {:induction false} FlushesAll(s: System, room: RoomIdentity)
    requires AtEpoch(s.tables, room) && PendingFits(s, room)
    ensures var t := FlushRoom(s, room);
            && Unmoved(s, t) && t.stage == s.stage && t.retiring == s.retiring
            && (room in t.rooms ==> t.rooms[room].pending == [])
    decreases if room in s.rooms then |s.rooms[room].pending| else 0
  {
    if room in s.rooms && s.rooms[room].pending != [] {
      StoreSucceedsExactly(s.tables, Some(room), s.rooms[room].pending[0]);
      assert CanFlush(s, room);
      FlushesAll(Flushed(s, room), room);
    }
  }

  lemma Closes(s: System)
    requires Inv(s) && s.stage.Retiring? && AtEpoch(s.tables, RoomOf(s.stage.base)) && PendingFits(s, RoomOf(s.stage.base))
    ensures var t := Step(s, CloseRoom);
            && Inv(t) && Unmoved(s, t) && t.stage == Closed(s.stage.base, s.stage.kind, s.stage.authority)
  {
    FlushesAll(s, RoomOf(s.stage.base));
    StepKeepsInvariant(s, CloseRoom);
  }

  /** The freeze of a first save. */
  lemma Freezes(s: System, id: int, c: Choices)
    requires Inv(s) && s.stage.Retiring? && id in s.tables.documents && BaseIs(s.stage.base, id, s.tables.documents[id])
    requires s.stage.base.baseRevision == 0 && Roomy(s, id, c)
    ensures var t := Step(Step(s, CloseRoom), Rebase(c.rebased));
            && Inv(t) && Unmoved(s, t) && t.stage.Ready? && t.stage.frozen && BaseIs(t.stage.base, id, s.tables.documents[id])
            && t.stage.kind == s.stage.kind && t.stage.authority == s.stage.authority
  {
    Closes(s);
    var t := Step(s, CloseRoom);
    ReadsTheRow(t.tables, id, c.rebased);
    StepKeepsInvariant(t, Rebase(c.rebased));
  }

  /** The live document is taken, or the stored one. */
  lemma TakesDocument(s: System, id: int, c: Choices)
    requires Inv(s) && s.stage.Ready? && id in s.tables.documents && BaseIs(s.stage.base, id, s.tables.documents[id])
    requires Readable(c.reread) && Fits(s.tables.documents[id].snapshot.size)
    ensures var t := Step(Step(s, TakeDocument), Reread(c.reread));
            && Inv(t) && Unmoved(s, t) && t.stage.Taken? && BaseIs(t.stage.base, id, s.tables.documents[id])
            && t.stage.kind == s.stage.kind && t.stage.authority == s.stage.authority
  {
    ReadsTheRow(s.tables, id, c.reread);
    StepKeepsInvariant(s, TakeDocument);
    StepKeepsInvariant(Step(s, TakeDocument), Reread(c.reread));
  }

  function BeforeSave(s: System, c: Choices): System {
    Step(Step(Step(Step(s, CloseRoom), Rebase(c.rebased)), TakeDocument), Reread(c.reread))
  }

  /** From the marked or passed stage to the save. */
  lemma ReachesSave(s: System, id: int, c: Choices)
    requires Inv(s) && (s.stage.Ready? || s.stage.Retiring?) && id in s.tables.documents && BaseIs(s.stage.base, id, s.tables.documents[id])
    requires (s.stage.Retiring? ==> s.stage.base.baseRevision == 0) && Roomy(s, id, c)
    ensures var t := BeforeSave(s, c);
            && Inv(t) && Unmoved(s, t) && t.stage.Taken? && BaseIs(t.stage.base, id, s.tables.documents[id])
            && t.stage.kind == s.stage.kind && t.stage.authority == s.stage.authority
  {
    if s.stage.Retiring? {
      Freezes(s, id, c);
    }
    TakesDocument(Step(Step(s, CloseRoom), Rebase(c.rebased)), id, c);
  }

  /** What the save of an undisturbed checkpoint asks for is what was true at its start. */
  lemma AsksWhatWas(s: System, t: System, id: int, c: Choices, current: Document)
    requires Unmoved(s, t) && t.stage.Taken? && Inv(t) && Roomy(s, id, c) && InStep(s, id, current)
    requires BaseIs(t.stage.base, id, s.tables.documents[id]) && t.stage.authority == current && t.stage.kind == current.kind
    ensures Commits(t, OfferOf(c), current) <==> Takes(s, id, c, current)
  {}

  // ---- the whole call ----

  predicate Moved(s: System, t: System, id: int, c: Choices, current: Document)
    requires id in s.tables.documents
  {
    var row, after := s.tables.documents[id], After(OfferOf(c), current);
    && HasLyrics(t.authority, id, after)
    && id in t.tables.documents && Agrees(t.tables.documents[id], after)
    && t.tables.documents[id].epoch == row.epoch + (if row.baseRevision == 0 && c.choice.Writes? then 1 else 0)
    && t.tables.ledger == s.tables.ledger
         + [LedgerRow(id, row.epoch, row.baseRevision, after.revision, row.authority, Fingerprint(after), c.actor, c.choice.Writes?)]
  }

  /** The save and the way out. */
  lemma SavesAndLeaves(s: System, t: System, id: int, c: Choices, current: Document)
    requires Unmoved(s, t) && t.stage.Taken? && Inv(t) && Roomy(s, id, c) && InStep(s, id, current)
    requires BaseIs(t.stage.base, id, s.tables.documents[id]) && t.stage.authority == current && t.stage.kind == current.kind
    ensures var u := Step(Step(t, Saving(c)), Finish);
            && Inv(u) && u.stage.Idle? && u.retiring == {}
            && if Takes(s, id, c, current)
               then Moved(s, u, id, c, current) && Answer(t, Saving(c)) == [(Final(OfferOf(c), current), c.choice.Writes?)]
               else Unmoved(s, u) && Answer(t, Saving(c)) == []
  {
    var v := OfferOf(c);
    AsksWhatWas(s, t, id, c, current);
    SaveCommitsExactly(t, v, c.envelope, c.actor);
    LyricsRead(t.authority, id);
    StepKeepsInvariant(t, Saving(c));
    StepKeepsInvariant(Step(t, Saving(c)), Finish);
    if Takes(s, id, c, current) {
      SaveLeaves(t, v, c.envelope, c.actor, current);
    } else if x :| Commits(t, v, x) {
      LyricsAreOne(t.authority, id, x, current);
    }
  }

  /** One stage that is not the save. */
  lemma StageRuns(s: System, before: seq<Event>, after: seq<Event>, e: Event, t: System)
    requires after == before + [e] && !e.Save? && Run(s, before) == t && Answers(s, before) == []
    ensures Run(s, after) == Step(t, e) && Answers(s, after) == []
  {
    OneMore(s, before, e);
    assert Answer(t, e) == [];
  }

  lemma FirstStages(s: System, id: int, c: Choices)
    ensures Run(s, Stages(id, c)[..3]) == AfterOpening(s, id, c) && Answers(s, Stages(id, c)[..3]) == []
  {
    var all := Stages(id, c);
    StageRuns(s, [], all[..1], Begin(id, c.baseline), s);
    StageRuns(s, all[..1], all[..2], Compare, Step(s, Begin(id, c.baseline)));
    StageRuns(s, all[..2], all[..3], BeginRetiring, Step(Step(s, Begin(id, c.baseline)), Compare));
  }

  lemma FreezeStages(s: System, id: int, c: Choices, t: System)
    requires Run(s, Stages(id, c)[..3]) == t && Answers(s, Stages(id, c)[..3]) == []
    ensures Run(s, Stages(id, c)[..5]) == Step(Step(t, CloseRoom), Rebase(c.rebased)) && Answers(s, Stages(id, c)[..5]) == []
  {
    var all := Stages(id, c);
    StageRuns(s, all[..3], all[..4], CloseRoom, t);
    StageRuns(s, all[..4], all[..5], Rebase(c.rebased), Step(t, CloseRoom));
  }

  lemma TakeStages(s: System, id: int, c: Choices, t: System)
    requires Run(s, Stages(id, c)[..5]) == t && Answers(s, Stages(id, c)[..5]) == []
    ensures Run(s, Stages(id, c)[..7]) == Step(Step(t, TakeDocument), Reread(c.reread)) && Answers(s, Stages(id, c)[..7]) == []
  {
    var all := Stages(id, c);
    StageRuns(s, all[..5], all[..6], TakeDocument, t);
    StageRuns(s, all[..6], all[..7], Reread(c.reread), Step(t, TakeDocument));
  }

  lemma MiddleStages(s: System, id: int, c: Choices, t: System)
    requires Run(s, Stages(id, c)[..3]) == t && Answers(s, Stages(id, c)[..3]) == []
    ensures Run(s, Stages(id, c)[..7]) == BeforeSave(t, c) && Answers(s, Stages(id, c)[..7]) == []
  {
    FreezeStages(s, id, c, t);
    TakeStages(s, id, c, Step(Step(t, CloseRoom), Rebase(c.rebased)));
  }

  lemma LastStages(s: System, id: int, c: Choices, t: System)
    requires Run(s, Stages(id, c)[..7]) == t && Answers(s, Stages(id, c)[..7]) == []
    ensures Run(s, Stages(id, c)[..9]) == Step(Step(t, Saving(c)), Finish)
    ensures Answers(s, Stages(id, c)[..9]) == Answer(t, Saving(c))
  {
    StageKind(id, c, 7);
    StageKind(id, c, 8);
    OneMore(s, Stages(id, c)[..7], Saving(c));
    OneMore(s, Stages(id, c)[..8], Finish);
  }

  /** The nine stages with nothing in between. */
  lemma AllStages(s: System, id: int, c: Choices)
    ensures Run(s, Stages(id, c)) == Step(Step(BeforeSave(AfterOpening(s, id, c), c), Saving(c)), Finish)
    ensures Answers(s, Stages(id, c)) == Answer(BeforeSave(AfterOpening(s, id, c), c), Saving(c))
  {
    FirstStages(s, id, c);
    MiddleStages(s, id, c, AfterOpening(s, id, c));
    LastStages(s, id, c, BeforeSave(AfterOpening(s, id, c), c));
    assert Stages(id, c)[..9] == Stages(id, c);
  }

  /** A checkpoint that began and could not go on takes no further stage. */
  lemma StaysIdle(s: System, c: Choices)
    requires s.stage.Idle?
    ensures BeforeSave(s, c) == s && Step(Step(s, Saving(c)), Finish) == s && Answer(s, Saving(c)) == []
  {}

  /** An undisturbed checkpoint, with everything within bounds, succeeds if and
      only if the song's row carries its lyrics, the draft is of that revision
      and valid, and the store takes it. It then answers the document chosen and
      leaves lyrics, row and ledger at it; otherwise it leaves them alone and
      answers nothing. Either way nothing stays marked. */
  lemma UndisturbedCheckpoint(s: System, id: int, c: Choices)
    requires Inv(s) && s.stage.Idle? && Roomy(s, id, c)
    ensures var t := Run(s, Stages(id, c));
            && Inv(t) && t.stage.Idle? && t.retiring == {}
            && (Answers(s, Stages(id, c)) != [] <==> exists current :: InStep(s, id, current) && Takes(s, id, c, current))
            && (forall current :: InStep(s, id, current) && Takes(s, id, c, current) ==>
                  Moved(s, t, id, c, current) && Answers(s, Stages(id, c)) == [(Final(OfferOf(c), current), c.choice.Writes?)])
            && (Answers(s, Stages(id, c)) == [] ==> Unmoved(s, t))
  {
    AllStages(s, id, c);
    Opens(s, id, c);
    var t := AfterOpening(s, id, c);
    if t.stage.Idle? {
      StaysIdle(t, c);
    } else {
      var current := t.stage.authority;
      ReachesSave(t, id, c);
      SavesAndLeaves(s, BeforeSave(t, c), id, c, current);
      forall other | InStep(s, id, other) ensures other == current {
        LyricsAreOne(s.authority, id, other, current);
      }
    }
  }

  // ---- the live room ----

  /** On the way out the live document takes the envelope exactly when a later
      save committed and wrote, whatever others did since the save, and whether
      or not the room is still the same resident copy. Nothing else in any room
      changes, and no table. */
  lemma LiveRoomAdoptsExactly(s: System, c: Choices, mid: seq<Event>, room: RoomIdentity)
    requires Inv(s) && s.stage.Taken? && ByOthers(mid)
    ensures var t := Run(Step(s, Saving(c)), mid);
            var u := Step(t, Finish);
            var adopts := (exists current :: Commits(s, OfferOf(c), current)) && c.choice.Writes? && s.stage.base.baseRevision != 0
                          && room == RoomOf(s.stage.base);
            && u.tables == t.tables && u.authority == t.authority && u.loading == t.loading
            && (room in u.rooms <==> room in t.rooms)
            && (room in t.rooms ==> u.rooms[room] == Room(t.rooms[room].live + (if adopts then c.envelope else {}), t.rooms[room].pending))
  {
    var v, saved := OfferOf(c), Step(s, Saving(c));
    OthersKeepTheStage(saved, mid);
    SaveCommitsExactly(s, v, c.envelope, c.actor);
    if current :| Commits(s, v, current) {
      SaveLeaves(s, v, c.envelope, c.actor, current);
    } else {
      assert saved == Abort(s);
    }
  }
}
