/** Service.Checkpoint as the code runs it: every stage on the service's own
    tables, rooms and marks, and anybody else between two stages. */
module CollabCheckpointService {

  import opened Wrappers
  import opened RoomNames
  import opened CollabPersistence
  import opened CollabCheckpoint
  import opened CollabCheckpointCalls
  import opened CollabSaves
  import opened CollabQuietCheckpoint

  class Service {
    const persistence: SqlitePersistence
    var authority: Authority
    var rooms: map<RoomIdentity, Room>
    var loading: map<RoomIdentity, set<nat>>
    var retiring: set<RoomIdentity>
    var stage: Stage
    // what peers wrote, which no decision reads
    var heard: map<RoomIdentity, set<nat>>

    function State(): System
      reads this, persistence
    {
      System(persistence.State(), authority, rooms, loading, retiring, stage, heard)
    }

    constructor (catalog: set<int>)
      ensures State() == Start(catalog) && fresh(persistence)
    {
      persistence := new SqlitePersistence();
      authority := Authority(map[], catalog);
      rooms, loading, retiring, stage, heard := map[], map[], {}, Idle, map[];
    }

    /** A committed transaction. */
    method Commit(tables: Tables)
      modifies persistence
      ensures persistence.State() == tables
    {
      persistence.documents, persistence.log, persistence.ledger := tables.documents, tables.log, tables.ledger;
    }

    /** What other callers do while this one is between two stages. */
    method Others(events: seq<Event>)
      modifies this, persistence
      ensures State() == Run(old(State()), events)
    {
      var s := Run(State(), events);
      Commit(s.tables);
      authority, rooms, loading, retiring, stage, heard := s.authority, s.rooms, s.loading, s.retiring, s.stage, s.heard;
    }

    // ---- one stage each ----

    /** baseline: the row, then the load under the row's room name. */
    method Baseline(musicId: int, encoding: Encoding) returns (r: Result<Baseline, Error>)
      ensures r == ReadBaseline(persistence.State(), musicId, encoding)
    {
      if musicId !in persistence.documents {
        return Err(NoRows);
      }
      var row := persistence.documents[musicId];
      ParseOfAnyRoomName(musicId, row.epoch);
      var loaded := persistence.LoadDoc(RoomName(musicId, row.epoch), encoding);
      match loaded {
        case Err(e) => r := Err(e);
        case Ok(update) => r := Ok(CollabPersistence.Baseline(musicId, row.epoch, update, row.baseRevision, row.authority));
      }
    }

    method ReadFirst(musicId: int, encoding: Encoding) returns (r: Result<(), Failure>)
      requires stage.Idle?
      modifies this`stage
      ensures State() == Step(old(State()), Begin(musicId, encoding))
      ensures if r.Ok? then stage.Based? else stage.Idle?
    {
      var base := Baseline(musicId, encoding);
      match base {
        case Err(e) => r := Err(Failed(e));
        case Ok(b) =>
          stage := Based(b);
          r := Ok(());
      }
    }

    /** The baseline must describe the document now authoritative. */
    method CompareAuthority() returns (r: Result<(), Failure>)
      requires stage.Based?
      modifies this`stage
      ensures State() == Step(old(State()), Compare)
      ensures if r.Ok? then stage.Opened? else stage.Idle?
    {
      var base := stage.base;
      stage := Idle;
      var document := AuthoritativeDocument(authority, base.musicId);
      match document {
        case Err(e) => return Err(Failed(e));
        case Ok(d) =>
          if Fingerprint(d) != base.authority || d.revision != base.baseRevision {
            return Err(SourceDrift);
          }
          stage := Opened(base, d.kind, d);
      }
      r := Ok(());
    }

    method MarkRetiring()
      requires stage.Opened?
      modifies this`stage, this`retiring
      ensures State() == Step(old(State()), BeginRetiring)
      ensures if old(stage).base.baseRevision == 0 then stage.Retiring? else stage.Ready?
    {
      var p := stage;
      if p.base.baseRevision == 0 {
        retiring := retiring + {RoomOf(p.base)};
        stage := Retiring(p.base, p.kind, p.authority);
      } else {
        stage := Ready(p.base, p.kind, p.authority, false);
      }
    }

    /** The oldest pending update of a room goes into its log, if it can. */
    method StoreFirst(room: RoomIdentity) returns (stored: bool)
      requires ValidIdentity(room) && room in rooms && rooms[room].pending != []
      modifies this`rooms, persistence`log
      ensures stored == old(CanFlush(State(), room))
      ensures State() == if stored then old(Flushed(State(), room)) else old(State())
    {
      ParseOfRoomName(room.musicId, room.epoch);
      var first := rooms[room];
      var kept := persistence.StoreUpdateContext(RoomName(room.musicId, room.epoch), first.pending[0]);
      stored := kept.Ok?;
      if stored {
        rooms := rooms[room := first.(pending := first.pending[1..])];
      }
    }

    /** closeRetiredRoom: store what is pending, then evict. */
    method CloseRetiredRoom() returns (r: Result<(), Failure>)
      requires stage.Retiring? && ValidIdentity(RoomOf(stage.base))
      modifies this`rooms, this`stage, persistence`log
      ensures State() == Step(old(State()), CloseRoom)
      ensures if r.Ok? then stage.Closed? else stage.Leaving?
    {
      ghost var before := State();
      var p, room := stage, RoomOf(stage.base);
      var stored := true;
      while stored && room in rooms && rooms[room].pending != []
        invariant stage == p && FlushRoom(before, room) == FlushRoom(State(), room)
        invariant State() == before.(tables := persistence.State(), rooms := rooms)
        invariant !stored ==> room in rooms && rooms[room].pending != [] && !CanFlush(State(), room)
        decreases stored, if room in rooms then |rooms[room].pending| else 0
      {
        stored := StoreFirst(room);
      }
      if !stored {
        stage := Leaving(p.base);
        return Err(CloseFailed);
      }
      rooms := rooms - {room};
      stage := Closed(p.base, p.kind, p.authority);
      r := Ok(());
    }

    /** The baseline again, now that nothing can be added to the room. */
    method RebaseFrozen(encoding: Encoding) returns (r: Result<(), Failure>)
      requires stage.Closed?
      modifies this`stage
      ensures State() == Step(old(State()), Rebase(encoding))
      ensures if r.Ok? then stage.Ready? else stage.Leaving?
    {
      var p := stage;
      stage := Leaving(p.base);
      var again := Baseline(p.base.musicId, encoding);
      match again {
        case Err(e) => return Err(Failed(e));
        case Ok(b) =>
          if b.baseRevision != 0 || b.epoch != p.base.epoch {
            return Err(Failed(RetiredRoom));
          }
          stage := Ready(b, p.kind, p.authority, true);
      }
      r := Ok(());
    }

    /** GetDoc. */
    method FindLive() returns (found: bool)
      requires stage.Ready?
      modifies this`stage
      ensures State() == Step(old(State()), TakeDocument)
      ensures if found then stage.Taken? else stage.Absent?
    {
      var p, room := stage, RoomOf(stage.base);
      found := room in rooms;
      if found {
        stage := Taken(p.base, p.kind, p.authority, p.frozen, rooms[room].live, true);
      } else {
        stage := Absent(p.base, p.kind, p.authority, p.frozen);
      }
    }

    /** No live document: the stored one, if the row has not moved. */
    method ReadStored(encoding: Encoding) returns (r: Result<(), Failure>)
      requires stage.Absent?
      modifies this`stage
      ensures State() == Step(old(State()), Reread(encoding))
      ensures if r.Ok? then stage.Taken? else stage.Idle? || stage.Leaving?
    {
      var p := stage;
      stage := if p.frozen then Leaving(p.base) else Idle;
      var again := Baseline(p.base.musicId, encoding);
      match again {
        case Err(e) => return Err(Failed(e));
        case Ok(b) =>
          if b.epoch != p.base.epoch || b.authority != p.base.authority || b.baseRevision != p.base.baseRevision {
            return Err(Failed(RetiredRoom));
          }
          stage := Taken(b, p.kind, p.authority, p.frozen, b.update.ops, false);
      }
      r := Ok(());
    }

    /** commitCheckpoint inside the store's transaction: the room's row, log and
        ledger as the transaction would leave them. */
    method CommitRoom(c: Choices, final: Document, after: Document) returns (written: Tables, r: Result<(), Failure>)
      requires stage.Taken?
      ensures r.Ok? <==> after.kind == stage.kind && Written(State(), c, final, after).result.Ok?
      ensures r.Ok? ==> written == Written(State(), c, final, after).tables
      ensures r.Err? ==> r.error == if after.kind != stage.kind then DocumentMismatch else Failed(Written(State(), c, final, after).result.error)
    {
      var p, changed := stage, c.choice.Writes?;
      written := persistence.State();
      if after.kind != p.kind {
        return written, Err(DocumentMismatch);
      }
      if p.base.baseRevision == 0 && changed {
        var reseeded;
        written, reseeded := ReseedCheckpointTx(written, p.base, final, c.reseed, c.actor, true);
        return written, if reseeded.Ok? then Ok(()) else Err(Failed(reseeded.error));
      }
      var update := Update(p.document + c.encoded.ops + c.envelope, c.encoded.size);
      var committed;
      written, committed := CommitCheckpointTx(written, p.base, update, after.revision, Fingerprint(after), c.actor, changed, c.committed);
      r := if committed.Ok? then Ok(()) else Err(Failed(committed.error));
    }

    /** The store's transaction: the lyrics and the room's tables change together
        at its commit, or not at all. */
    method StoreDraft(c: Choices) returns (r: Result<(Document, bool), Failure>)
      requires stage.Taken? && c.draft.revision == stage.authority.revision && c.valid
      modifies this`stage, this`authority, persistence
      ensures State() == Step(old(State()), Saving(c))
      ensures Answered(old(State()), c, r)
      ensures if r.Ok? then stage.Saved? else stage.Idle? || stage.Leaving?
    {
      var p, changed := stage, c.choice.Writes?;
      var failed := if p.frozen then Leaving(p.base) else Idle;
      var loaded := AuthoritativeDocument(authority, p.base.musicId);
      if loaded.Err? {
        stage := failed;
        return Err(Failed(loaded.error));
      }
      var current := loaded.value;
      if c.choice.Refuses? || current.revision != c.draft.revision || !LegalChoice(current, c.choice) {
        stage := failed;
        return Err(StoreRefused);
      }
      var final, after := current, current;
      if c.choice.Writes? {
        final, after := c.choice.final, c.choice.after;
      }
      var written, committed := CommitRoom(c, final, after);
      if committed.Err? {
        stage := failed;
        return Err(committed.error);
      }
      Commit(written);
      if changed {
        authority := authority.(documents := authority.documents[after.musicId := after]);
      }
      stage := Saved(p.base, changed, p.frozen, c.envelope);
      r := Ok((final, changed));
    }

    /** The checks of the draft, then the store's transaction. In every state a run
        can reach it succeeds exactly when draft, lyrics, kind and row are as the
        checkpoint read them, the store takes the draft, and there is room. */
    method SaveDraft(c: Choices) returns (r: Result<(Document, bool), Failure>)
      requires stage.Taken?
      modifies this`stage, this`authority, persistence
      ensures State() == Step(old(State()), Saving(c))
      ensures Answered(old(State()), c, r)
      ensures if r.Ok? then stage.Saved? else stage.Idle? || stage.Leaving?
      ensures r == Err(RevisionConflict) <==> c.draft.revision != old(stage).authority.revision
      ensures r == Err(ImmutableDraft) <==> c.draft.revision == old(stage).authority.revision && !c.valid
      ensures Inv(old(State())) ==> SavesExactly(old(State()), c, r)
    {
      ghost var before := State();
      var failed := if stage.frozen then Leaving(stage.base) else Idle;
      if c.draft.revision != stage.authority.revision {
        r := Err(RevisionConflict);
        stage := failed;
      } else if !c.valid {
        r := Err(ImmutableDraft);
        stage := failed;
      } else {
        r := StoreDraft(c);
      }
      if Inv(before) {
        AnswersExactly(before, c, r);
      }
    }

    /** applyAuthorityUpdate, then the deferred endRetiring. */
    method Leave()
      requires stage.Saved? || stage.Leaving?
      modifies this`rooms, this`retiring, this`stage
      ensures State() == Step(old(State()), Finish) && stage.Idle?
    {
      var p, room := stage, RoomOf(stage.base);
      if p.Saved? && p.changed && p.base.baseRevision != 0 && room in rooms {
        rooms := rooms[room := rooms[room].(live := rooms[room].live + p.envelope)];
      }
      if p.Leaving? || p.frozen {
        retiring := retiring - {room};
      }
      stage := Idle;
    }

    // ---- each stage in its place ----

    method Pause(events: seq<Event>, musicId: int, c: Choices, ghost n: nat, ghost start: System, ghost quiet: bool, ghost answers: seq<(Document, bool)>)
      requires ByOthers(events) && (quiet ==> events == []) && Reachable(start) && n <= 9 && Done(start, quiet, State(), musicId, c, n, answers)
      modifies this, persistence
      ensures Done(start, quiet, State(), musicId, c, n, answers) && stage == old(stage)
      ensures !stage.Idle? ==> ValidIdentity(RoomOf(stage.base))
    {
      DoneOthers(start, quiet, State(), musicId, c, n, answers, events);
      Others(events);
    }

    method FirstRead(musicId: int, c: Choices, ghost quiet: bool) returns (r: Result<(), Failure>)
      requires stage.Idle?
      modifies this, persistence
      ensures if r.Ok? then stage.Based? else stage.Idle?
      ensures Done(old(State()), quiet, State(), musicId, c, if r.Ok? then 1 else 8, [])
    {
      ghost var start := State();
      DoneNone(start, quiet, musicId, c);
      r := ReadFirst(musicId, c.baseline);
      DoneStage(start, quiet, start, musicId, c, 0, Begin(musicId, c.baseline), State());
    }

    method ThenCompare(musicId: int, c: Choices, ghost start: System, ghost quiet: bool)
      returns (r: Result<(), Failure>)
      requires stage.Based? && Done(start, quiet, State(), musicId, c, 1, [])
      modifies this, persistence
      ensures if r.Ok? then stage.Opened? else stage.Idle?
      ensures Done(start, quiet, State(), musicId, c, if r.Ok? then 2 else 8, [])
    {
      ghost var before := State();
      r := CompareAuthority();
      DoneStage(start, quiet, before, musicId, c, 1, Compare, State());
    }

    method ThenMark(musicId: int, c: Choices, ghost start: System, ghost quiet: bool)
      requires stage.Opened? && Done(start, quiet, State(), musicId, c, 2, [])
      modifies this, persistence
      ensures stage.Retiring? || stage.Ready?
      ensures Done(start, quiet, State(), musicId, c, 3, [])
    {
      ghost var before := State();
      MarkRetiring();
      DoneStage(start, quiet, before, musicId, c, 2, BeginRetiring, State());
    }

    method ThenClose(musicId: int, c: Choices, ghost start: System, ghost quiet: bool)
      returns (r: Result<(), Failure>)
      requires stage.Retiring? && ValidIdentity(RoomOf(stage.base)) && Done(start, quiet, State(), musicId, c, 3, [])
      modifies this, persistence
      ensures if r.Ok? then stage.Closed? else stage.Leaving?
      ensures Done(start, quiet, State(), musicId, c, if r.Ok? then 4 else 8, [])
    {
      ghost var before := State();
      r := CloseRetiredRoom();
      DoneStage(start, quiet, before, musicId, c, 3, CloseRoom, State());
    }

    method ThenRebase(musicId: int, c: Choices, ghost start: System, ghost quiet: bool)
      returns (r: Result<(), Failure>)
      requires stage.Closed? && Done(start, quiet, State(), musicId, c, 4, [])
      modifies this, persistence
      ensures if r.Ok? then stage.Ready? else stage.Leaving?
      ensures Done(start, quiet, State(), musicId, c, if r.Ok? then 5 else 8, [])
    {
      ghost var before := State();
      r := RebaseFrozen(c.rebased);
      DoneStage(start, quiet, before, musicId, c, 4, Rebase(c.rebased), State());
    }

    method ThenFind(musicId: int, c: Choices, ghost start: System, ghost quiet: bool)
      requires stage.Ready? && Done(start, quiet, State(), musicId, c, 5, [])
      modifies this, persistence
      ensures stage.Taken? || stage.Absent?
      ensures Done(start, quiet, State(), musicId, c, 6, [])
    {
      ghost var before := State();
      var found := FindLive();
      DoneStage(start, quiet, before, musicId, c, 5, TakeDocument, State());
    }

    method ThenReread(musicId: int, c: Choices, ghost start: System, ghost quiet: bool)
      returns (r: Result<(), Failure>)
      requires stage.Absent? && Done(start, quiet, State(), musicId, c, 6, [])
      modifies this, persistence
      ensures if r.Ok? then stage.Taken? else stage.Idle? || stage.Leaving?
      ensures Done(start, quiet, State(), musicId, c, if r.Ok? then 7 else 8, [])
    {
      ghost var before := State();
      r := ReadStored(c.reread);
      DoneStage(start, quiet, before, musicId, c, 6, Reread(c.reread), State());
    }

    method ThenSave(musicId: int, c: Choices, ghost start: System, ghost quiet: bool)
      returns (r: Result<(Document, bool), Failure>)
      requires stage.Taken? && Done(start, quiet, State(), musicId, c, 7, [])
      modifies this, persistence
      ensures if r.Ok? then stage.Saved? else stage.Idle? || stage.Leaving?
      ensures Done(start, quiet, State(), musicId, c, 8, Given(r))
    {
      ghost var before := State();
      r := SaveDraft(c);
      assert Answer(before, Saving(c)) == Given(r);
      DoneSave(start, quiet, before, musicId, c, State());
    }

    /** The way out: what a save still owes, and the deferred mark. */
    method ThenLeave(musicId: int, c: Choices, ghost start: System, ghost quiet: bool, ghost answers: seq<(Document, bool)>)
      requires (stage.Idle? || stage.Saved? || stage.Leaving?) 
      requires Done(start, quiet, State(), musicId, c, 8, answers)
      modifies this, persistence
      ensures stage.Idle? && Done(start, quiet, State(), musicId, c, 9, answers)
    {
      ghost var before := State();
      if !stage.Idle? {
        Leave();
      }
      DoneLeave(start, quiet, before, musicId, c, answers, State());
    }

    // ---- the whole call ----

    /** The freeze of a first save; a later save passes by. */
    method Freeze(musicId: int, c: Choices, pauses: seq<seq<Event>>, ghost start: System, ghost quiet: bool)
      returns (r: Result<(), Failure>)
      requires stage.Opened? && Reachable(start) && |pauses| == 3 && forall i :: 0 <= i < 3 ==> ByOthers(pauses[i]) && (quiet ==> pauses[i] == [])
      requires Done(start, quiet, State(), musicId, c, 2, [])
      modifies this, persistence
      ensures if r.Ok? then stage.Ready? else stage.Leaving?
      ensures Done(start, quiet, State(), musicId, c, if r.Ok? then 5 else 8, [])
    {
      Pause(pauses[0], musicId, c, 2, start, quiet, []);
      ThenMark(musicId, c, start, quiet);
      if stage.Ready? {
        DonePassing(start, quiet, State(), musicId, c);
        return Ok(());
      }
      Pause(pauses[1], musicId, c, 3, start, quiet, []);
      r := ThenClose(musicId, c, start, quiet);
      if r.Ok? {
        Pause(pauses[2], musicId, c, 4, start, quiet, []);
        r := ThenRebase(musicId, c, start, quiet);
      }
    }

    /** The live document, or the stored one. */
    method TakeDraft(musicId: int, c: Choices, pauses: seq<seq<Event>>, ghost start: System, ghost quiet: bool)
      returns (r: Result<(), Failure>)
      requires stage.Ready? && Reachable(start) && |pauses| == 2 && forall i :: 0 <= i < 2 ==> ByOthers(pauses[i]) && (quiet ==> pauses[i] == [])
      requires Done(start, quiet, State(), musicId, c, 5, [])
      modifies this, persistence
      ensures if r.Ok? then stage.Taken? else stage.Idle? || stage.Leaving?
      ensures Done(start, quiet, State(), musicId, c, if r.Ok? then 7 else 8, [])
    {
      Pause(pauses[0], musicId, c, 5, start, quiet, []);
      ThenFind(musicId, c, start, quiet);
      if stage.Taken? {
        DoneFound(start, quiet, State(), musicId, c);
        return Ok(());
      }
      Pause(pauses[1], musicId, c, 6, start, quiet, []);
      r := ThenReread(musicId, c, start, quiet);
    }

    method UpToSave(musicId: int, c: Choices, pauses: seq<seq<Event>>, ghost quiet: bool)
      returns (r: Result<(Document, bool), Failure>)
      requires stage.Idle? && Reachable(State()) && |pauses| == 7 && forall i :: 0 <= i < 7 ==> ByOthers(pauses[i]) && (quiet ==> pauses[i] == [])
      modifies this, persistence
      ensures if r.Ok? then stage.Saved? else stage.Idle? || stage.Leaving?
      ensures Done(old(State()), quiet, State(), musicId, c, 8, Given(r))
    {
      ghost var start := State();
      var done;
      done := FirstRead(musicId, c, quiet);
      if done.Ok? {
        Pause(pauses[0], musicId, c, 1, start, quiet, []);
        done := ThenCompare(musicId, c, start, quiet);
      }
      if done.Ok? {
        done := Freeze(musicId, c, pauses[1..4], start, quiet);
      }
      if done.Ok? {
        done := TakeDraft(musicId, c, pauses[4..6], start, quiet);
      }
      if done.Err? {
        return Err(done.error);
      }
      Pause(pauses[6], musicId, c, 7, start, quiet, []);
      r := ThenSave(musicId, c, start, quiet);
    }

    /** Checkpoint, with others acting before each of its stages: a run of the
        protocol whose own stages are exactly these nine, each of them empty when
        it is not reached. It answers with a document exactly when its save was
        committed, and then with that save's. When nobody acts in between it
        succeeds exactly for a valid draft of the revision the row and the lyrics
        are at. */
    method Checkpoint(musicId: int, c: Choices, pauses: seq<seq<Event>>)
      returns (r: Result<(Document, bool), Failure>)
      requires stage.Idle? && Reachable(State()) && |pauses| == 8 && forall i :: 0 <= i < 8 ==> ByOthers(pauses[i])
      modifies this, persistence
      ensures stage.Idle? && Reachable(State()) && retiring == {}
      ensures Ends(old(State()), forall i :: 0 <= i < 8 ==> pauses[i] == [], State(), Stages(musicId, c), Given(r))
      ensures (forall i :: 0 <= i < 8 ==> pauses[i] == []) && Roomy(old(State()), musicId, c) ==>
                Undisturbed(old(State()), State(), musicId, c, r)
    {
      ghost var start := State();
      ghost var quiet := forall i :: 0 <= i < 8 ==> pauses[i] == [];
      r := UpToSave(musicId, c, pauses[..7], quiet);
      if !stage.Idle? {
        Pause(pauses[7], musicId, c, 8, start, quiet, Given(r));
      }
      ThenLeave(musicId, c, start, quiet, Given(r));
      DoneAll(start, quiet, State(), musicId, c, Given(r));
      if quiet && Roomy(start, musicId, c) {
        UndisturbedCall(start, State(), musicId, c, r);
      }
    }
  }

  /** The call returns what the protocol's save answers, and refuses as it does. */
  ghost predicate Answered(s: System, c: Choices, r: Result<(Document, bool), Failure>)
    requires s.stage.Taken?
  {
    && Answer(s, Saving(c)) == Given(r)
    && (r.Err? ==> SaveResult(s, OfferOf(c), c.envelope, c.actor) == Err(r.error))
  }

  ghost predicate SavesExactly(s: System, c: Choices, r: Result<(Document, bool), Failure>)
    requires s.stage.Taken?
  {
    && (r.Ok? <==> exists current :: Commits(s, OfferOf(c), current))
    && (forall current :: r.Ok? && Commits(s, OfferOf(c), current) ==> r.value == (Final(OfferOf(c), current), c.choice.Writes?))
  }

  lemma AnswersExactly(s: System, c: Choices, r: Result<(Document, bool), Failure>)
    requires Inv(s) && s.stage.Taken? && Answered(s, c, r)
    ensures SavesExactly(s, c, r)
  {
    SaveCommitsExactly(s, OfferOf(c), c.envelope, c.actor);
    LyricsRead(s.authority, s.stage.base.musicId);
  }

  /** An undisturbed call succeeds exactly when row, lyrics and draft agree and
      the store takes the draft; it answers the chosen document and has moved all
      three to it, or has moved nothing. */
  ghost predicate Undisturbed(before: System, after: System, musicId: int, c: Choices, r: Result<(Document, bool), Failure>) {
    && (r.Ok? <==> exists current :: InStep(before, musicId, current) && Takes(before, musicId, c, current))
    && (forall current :: r.Ok? && InStep(before, musicId, current) ==>
          r.value == (Final(OfferOf(c), current), c.choice.Writes?) && Moved(before, after, musicId, c, current))
    && (r.Err? ==> Unmoved(before, after))
  }

  lemma UndisturbedCall(before: System, after: System, musicId: int, c: Choices, r: Result<(Document, bool), Failure>)
    requires Reachable(before) && before.stage.Idle? && Roomy(before, musicId, c)
    requires after == Run(before, Stages(musicId, c)) && Given(r) == Answers(before, Stages(musicId, c))
    ensures Undisturbed(before, after, musicId, c, r)
  {
    ReachableOn(before, []);
    UndisturbedCheckpoint(before, musicId, c);
    assert r.Ok? ==> Given(r)[0] == r.value;
  }

  /** What the two checkpoint transactions make of the room's tables. */
  function Written(s: System, c: Choices, final: Document, after: Document): Outcome<()>
    requires s.stage.Taken?
  {
    var p, changed := s.stage, c.choice.Writes?;
    if p.base.baseRevision == 0 && changed then
      var o := ReseedCheckpoint(s.tables, p.base, final, c.reseed, c.actor, true);
      Outcome(o.tables, if o.result.Ok? then Ok(()) else Err(o.result.error))
    else
      CommitCheckpoint(s.tables, p.base, c.encoded.(ops := p.document + c.encoded.ops + c.envelope), after.revision, Fingerprint(after),
                       c.actor, changed, c.committed)
  }
}
