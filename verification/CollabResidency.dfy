/** What a resident room's live document has to do with the tables: it never
    holds anything that is neither durable nor pending, and it can miss what was
    stored between its load's read and its admission. */
module CollabResidency {

  import CollabHistory
  import opened Wrappers
  import opened RoomNames
  import opened CollabPersistence
  import opened CollabCheckpoint

  /** Everything a loaded or live copy of a current room holds is durable or
      waiting to be. */
  ghost predicate Backed(s: System, room: RoomIdentity) {
    Current(s.tables, room) ==>
      && (room in s.loading ==> s.loading[room] <= Contents(s.tables, room.musicId))
      && (room in s.rooms ==> s.rooms[room].live <= Contents(s.tables, room.musicId) + JoinOps(s.rooms[room].pending))
  }

  /** The envelope a live room is about to adopt is durable. */
  ghost predicate EnvelopeStored(s: System) {
    s.stage.Saved? ==>
      && Reached(s.tables, RoomOf(s.stage.base))
      && (s.stage.changed && s.stage.base.baseRevision != 0 && Current(s.tables, RoomOf(s.stage.base)) ==>
            s.stage.envelope <= Contents(s.tables, s.stage.base.musicId))
  }

  ghost predicate LiveInv(s: System) {
    (forall room :: Backed(s, room)) && EnvelopeStored(s)
  }

  lemma GrowingKeepsLive(s: System, t': Tables)
    requires Inv(s) && LiveInv(s) && Grows(s.tables, t')
    ensures LiveInv(s.(tables := t'))
  {
    forall room ensures Backed(s.(tables := t'), room) {
      assert Backed(s, room);
      if Current(t', room) && !Current(s.tables, room) {
        assert !Reached(s.tables, room);
      }
    }
  }

  lemma FlushKeepsLive(s: System, room: RoomIdentity)
    requires Inv(s) && LiveInv(s) && CanFlush(s, room)
    ensures Inv(Flushed(s, room)) && LiveInv(Flushed(s, room))
  {
    FlushMayRun(s, room);
    var s' := Flushed(s, room);
    GrowingKeepsLive(s, s'.tables);
    CollabHistory.StoreAddsItsUpdate(s.tables, Some(room), s.rooms[room].pending[0]);
    forall other ensures Backed(s', other) {
      assert Backed(s, other) && Backed(s.(tables := s'.tables), other);
    }
  }

  lemma {:induction false} FlushRoomKeepsLive(s: System, room: RoomIdentity)
    requires Inv(s) && LiveInv(s)
    ensures Inv(FlushRoom(s, room)) && LiveInv(FlushRoom(s, room)) && FlushRoom(s, room).stage == s.stage
    decreases if room in s.rooms then |s.rooms[room].pending| else 0
  {
    if CanFlush(s, room) {
      FlushKeepsLive(s, room);
      FlushRoomKeepsLive(Flushed(s, room), room);
    }
  }

  /** Fewer rooms, or another stage that promises no envelope. */
  lemma LessKeepsLive(s: System, s': System)
    requires LiveInv(s) && s'.tables == s.tables && s'.loading == s.loading
    requires forall room :: room in s'.rooms ==> room in s.rooms && s'.rooms[room] == s.rooms[room]
    requires s'.stage == s.stage || !s'.stage.Saved?
    ensures LiveInv(s')
  {
    forall room ensures Backed(s', room) {
      assert Backed(s, room);
    }
  }

  lemma ClosingKeepsLive(s: System, room: RoomIdentity)
    requires Inv(s) && LiveInv(s)
    ensures LiveInv(Closing(s, room).0) && Closing(s, room).0.stage == s.stage
  {
    FlushRoomKeepsLive(s, room);
    LessKeepsLive(FlushRoom(s, room), Closing(s, room).0);
  }

  lemma LoadKeepsLive(s: System, room: RoomIdentity, encoding: Encoding)
    requires Inv(s) && LiveInv(s)
    ensures LiveInv(LoadStep(s, room, encoding))
    ensures Load(s.tables, Some(room), encoding).Ok? ==>
              Current(s.tables, room) && LoadStep(s, room, encoding).loading[room] == Contents(s.tables, room.musicId)
  {
    if Load(s.tables, Some(room), encoding).Ok? {
      CollabHistory.LoadIsContents(s.tables, room.musicId, encoding);
      assert RoomIdentity(room.musicId, room.epoch) == room;
    }
    forall other ensures Backed(LoadStep(s, room, encoding), other) {
      assert Backed(s, other);
    }
  }

  lemma AdmitKeepsLive(s: System, room: RoomIdentity)
    requires LiveInv(s)
    ensures LiveInv(AdmitStep(s, room))
  {
    assert JoinOps([]) == {};
    forall other ensures Backed(AdmitStep(s, room), other) {
      assert Backed(s, other);
    }
  }

  lemma WriteKeepsLive(s: System, room: RoomIdentity, u: Update)
    requires LiveInv(s)
    ensures LiveInv(WriteStep(s, room, u))
  {
    if room in s.rooms {
      JoinOpsConcat(s.rooms[room].pending, [u]);
      JoinOpsCons(u, []);
      assert [u] + [] == [u];
    }
    forall other ensures Backed(WriteStep(s, room, u), other) {
      assert Backed(s, other);
    }
  }

  lemma FinishKeepsLive(s: System)
    requires LiveInv(s)
    ensures LiveInv(FinishStep(s))
  {
    forall room ensures Backed(FinishStep(s), room) {
      assert Backed(s, room);
    }
  }

  lemma CommitGrows(s: System, b: Baseline, update: Update, revision: int, authority: Fingerprint, actor: string,
                    changed: bool, encoding: Encoding)
    requires Inv(s) && CommitCheckpoint(s.tables, b, update, revision, authority, actor, changed, encoding).result.Ok?
    ensures var t' := CommitCheckpoint(s.tables, b, update, revision, authority, actor, changed, encoding).tables;
            && Grows(s.tables, t') && Current(s.tables, RoomOf(b)) && Current(t', RoomOf(b))
            && Contents(t', b.musicId) == Contents(s.tables, b.musicId) + update.ops
            && forall id :: id in s.tables.documents && id != b.musicId && id in t'.documents ==> Contents(t', id) == Contents(s.tables, id)
  {
    var t' := CommitCheckpoint(s.tables, b, update, revision, authority, actor, changed, encoding).tables;
    CommitMayRun(s, b, update, revision, authority, actor, changed, encoding);
    CollabHistory.CommitAddsItsUpdate(s.tables, b, update, revision, authority, actor, changed, encoding);
    forall id | id in s.tables.documents && id != b.musicId && id in t'.documents ensures Contents(t', id) == Contents(s.tables, id) {
      CollabHistory.ContentsDependOn(s.tables, t', id);
    }
  }

  lemma ReseedGrows(s: System, b: Baseline, document: Document, seed: Option<Update>, actor: string)
    requires Inv(s) && ReseedCheckpoint(s.tables, b, document, seed, actor, true).result.Ok?
    ensures var t' := ReseedCheckpoint(s.tables, b, document, seed, actor, true).tables;
            && Grows(s.tables, t') && Current(s.tables, RoomOf(b)) && Reached(t', RoomOf(b)) && !Current(t', RoomOf(b))
            && forall id :: id in s.tables.documents && id != b.musicId && id in t'.documents ==> Contents(t', id) == Contents(s.tables, id)
  {
    var t' := ReseedCheckpoint(s.tables, b, document, seed, actor, true).tables;
    ReseedMayRun(s, b, document, seed, actor, true);
    forall id | id in s.tables.documents && id != b.musicId && id in t'.documents ensures Contents(t', id) == Contents(s.tables, id) {
      CollabHistory.ContentsDependOn(s.tables, t', id);
    }
  }

  /** The save's own update reaches the room it was made from, or starts the next epoch. */
  lemma SaveGrows(s: System, e: Event)
    requires Inv(s) && s.stage.Taken? && e.Save?
    requires SaveTx(s, e.draft, e.valid, e.choice, e.encoded, e.envelope, e.reseed, e.encoding, e.actor).Ok?
    ensures var s' := SaveTx(s, e.draft, e.valid, e.choice, e.encoded, e.envelope, e.reseed, e.encoding, e.actor).value;
            var b := s.stage.base;
            && Grows(s.tables, s'.tables) && s' == s.(tables := s'.tables, authority := s'.authority, retiring := s'.retiring, stage := s'.stage)
            && s'.stage == Saved(b, e.choice.Writes?, s.stage.frozen, e.envelope)
            && Current(s.tables, RoomOf(b)) && Reached(s'.tables, RoomOf(b))
            && (Current(s'.tables, RoomOf(b)) ==>
                  Contents(s'.tables, b.musicId) == Contents(s.tables, b.musicId) + s.stage.document + e.encoded.ops + e.envelope)
            && forall id :: id in s.tables.documents && id != b.musicId && id in s'.tables.documents ==>
                 Contents(s'.tables, id) == Contents(s.tables, id)
  {
    var p := s.stage;
    var current := AuthoritativeDocument(s.authority, p.base.musicId).value;
    var after := if e.choice.Writes? then e.choice.after else current;
    if p.base.baseRevision == 0 && e.choice.Writes? {
      ReseedGrows(s, p.base, e.choice.final, e.reseed, e.actor);
    } else {
      CommitGrows(s, p.base, e.encoded.(ops := p.document + e.encoded.ops + e.envelope), after.revision, Fingerprint(after),
                  e.actor, e.choice.Writes?, e.encoding);
    }
  }

  lemma SaveKeepsLive(s: System, e: Event)
    requires Inv(s) && LiveInv(s) && s.stage.Taken? && e.Save?
    ensures LiveInv(StageStep(s, e))
  {
    if SaveTx(s, e.draft, e.valid, e.choice, e.encoded, e.envelope, e.reseed, e.encoding, e.actor).Ok? {
      SaveGrows(s, e);
      var s' := StageStep(s, e);
      GrowingKeepsLive(s, s'.tables);
      forall room ensures Backed(s', room) {
        assert Backed(s.(tables := s'.tables), room);
      }
    } else {
      LessKeepsLive(s, Abort(s));
    }
  }

  /** The stages that only look, mark or give up. */
  lemma QuietStage(s: System, e: Event)
    requires OwnStage(e) && !e.CloseRoom? && !e.Save? && !e.Finish?
    ensures var s' := StageStep(s, e);
            && s'.tables == s.tables && s'.loading == s.loading && s'.rooms == s.rooms
            && (s'.stage == s.stage || !s'.stage.Saved?)
  {
    if e.Begin? {
      assert StageStep(s, e) == BeginStep(s, e.musicId, e.encoding);
    } else if e.Compare? {
      assert StageStep(s, e) == CompareStep(s);
    } else if e.Rebase? {
      assert StageStep(s, e) == RebaseStep(s, e.encoding);
    } else if e.Reread? {
      assert StageStep(s, e) == RereadStep(s, e.encoding);
    }
  }

  lemma StageKeepsLive(s: System, e: Event)
    requires Inv(s) && LiveInv(s) && OwnStage(e)
    ensures LiveInv(StageStep(s, e))
  {
    if e.CloseRoom? {
      if s.stage.Retiring? {
        ClosingKeepsLive(s, RoomOf(s.stage.base));
        LessKeepsLive(Closing(s, RoomOf(s.stage.base)).0, CloseStep(s));
      }
    } else if e.Save? {
      if s.stage.Taken? {
        SaveKeepsLive(s, e);
      }
    } else if e.Finish? {
      FinishKeepsLive(s);
    } else {
      QuietStage(s, e);
      LessKeepsLive(s, StageStep(s, e));
    }
  }

  predicate TablesOnly(e: Event) {
    e.CompactLog? || e.EnsureSong? || e.BumpElsewhere? || e.ReplaceSong?
  }

  lemma TablesOnlyGrows(s: System, e: Event)
    requires Inv(s) && TablesOnly(e) && Admissible(s, e)
    ensures Grows(s.tables, OtherStep(s, e).tables) && OtherStep(s, e) == s.(tables := OtherStep(s, e).tables)
  {
    if e.CompactLog? {
      CompactMayRun(s, e.room, e.encoding);
    } else if e.EnsureSong? {
      InsertMayRun(s, e.musicId, e.document, e.seed);
    } else if e.BumpElsewhere? {
      BumpMayRun(s, e.songs);
    } else if s.stage.Idle? {
      ReplaceMayRun(s, e.musicId, e.document, e.reseed);
    }
  }

  lemma OtherKeepsLive(s: System, e: Event)
    requires Inv(s) && LiveInv(s) && !OwnStage(e) && Admissible(s, e)
    ensures LiveInv(OtherStep(s, e))
  {
    if TablesOnly(e) {
      TablesOnlyGrows(s, e);
      GrowingKeepsLive(s, OtherStep(s, e).tables);
    } else if e.StartLoad? {
      LoadKeepsLive(s, e.room, e.encoding);
    } else if e.Admit? {
      AdmitKeepsLive(s, e.room);
    } else if e.PeerWrites? {
      WriteKeepsLive(s, e.room, e.update);
    } else if e.SaveElsewhere? {
      LessKeepsLive(s, OtherStep(s, e));
    } else if e.Evict? {
      ClosingKeepsLive(s, e.room);
    } else if CanFlush(s, e.room) {
      FlushKeepsLive(s, e.room);
    }
  }

  lemma StepKeepsLive(s: System, e: Event)
    requires Inv(s) && LiveInv(s) && Admissible(s, e)
    ensures Inv(Step(s, e)) && LiveInv(Step(s, e))
  {
    StepKeepsInvariant(s, e);
    if OwnStage(e) {
      StageKeepsLive(s, e);
    } else {
      OtherKeepsLive(s, e);
    }
  }

  lemma {:induction false} RunKeepsLive(s: System, events: seq<Event>)
    requires Inv(s) && LiveInv(s) && AdmissibleRun(s, events)
    ensures Inv(Run(s, events)) && LiveInv(Run(s, events))
  {
    if events != [] {
      var init, last := events[..|events| - 1], events[|events| - 1];
      AdmissiblePrefix(s, events, |events| - 1);
      RunKeepsLive(s, init);
      var before := Run(s, init);
      assert Run(s, events) == Step(before, last);
      StepKeepsLive(before, last);
    }
  }

  lemma AdmissiblePrefix(s: System, events: seq<Event>, n: nat)
    requires AdmissibleRun(s, events) && n <= |events|
    ensures AdmissibleRun(s, events[..n])
    ensures n < |events| ==> Admissible(Run(s, events[..n]), events[n])
  {
    forall k | 0 <= k < n ensures Admissible(Run(s, events[..n][..k]), events[..n][k]) {
      assert events[..n][..k] == events[..k];
    }
  }

  // ---- main results ----

  /** In every reachable state a resident room of the current epoch shows its
      peers nothing that is neither in the tables nor pending. */
  lemma LiveIsDurableOrPending(catalog: set<int>, events: seq<Event>, room: RoomIdentity)
    requires AdmissibleRun(Start(catalog), events)
    requires room in Run(Start(catalog), events).rooms && Current(Run(Start(catalog), events).tables, room)
    ensures var s := Run(Start(catalog), events);
            s.rooms[room].live <= Contents(s.tables, room.musicId) + JoinOps(s.rooms[room].pending)
  {
    RunKeepsLive(Start(catalog), events);
    assert Backed(Run(Start(catalog), events), room);
  }

  /** What the flushes of a closing room store. */
  function Drained(s: System, room: RoomIdentity): set<nat>
    decreases if room in s.rooms then |s.rooms[room].pending| else 0
  {
    if CanFlush(s, room) then s.rooms[room].pending[0].ops + Drained(Flushed(s, room), room) else {}
  }

  /** What an event stores into a room: flushed updates, or a save's own. */
  function Brings(s: System, e: Event, room: RoomIdentity): set<nat> {
    match e
    case Flush(r) => if r == room && CanFlush(s, r) then s.rooms[r].pending[0].ops else {}
    case Evict(r) => if r == room then Drained(s, r) else {}
    case CloseRoom => if s.stage.Retiring? && RoomOf(s.stage.base) == room then Drained(s, room) else {}
    case Save(d, v, c, u, env, seed, enc, actor) =>
      if s.stage.Taken? && RoomOf(s.stage.base) == room && SaveTx(s, d, v, c, u, env, seed, enc, actor).Ok?
      then s.stage.document + u.ops + env else {}
    case _ => {}
  }

  function Brought(s: System, events: seq<Event>, room: RoomIdentity): set<nat> {
    if events == [] then {}
    else Brought(s, events[..|events| - 1], room) + Brings(Run(s, events[..|events| - 1]), events[|events| - 1], room)
  }

  lemma {:induction false} DrainedIsStored(s: System, drained: RoomIdentity, room: RoomIdentity)
    requires Inv(s) && Current(s.tables, room)
    ensures var s' := FlushRoom(s, drained);
            Current(s'.tables, room)
            && Contents(s'.tables, room.musicId)
               == Contents(s.tables, room.musicId) + (if drained == room then Drained(s, drained) else {})
    decreases if drained in s.rooms then |s.rooms[drained].pending| else 0
  {
    if CanFlush(s, drained) {
      FlushMayRun(s, drained);
      FlushIsStored(s, drained, room);
      DrainedIsStored(Flushed(s, drained), drained, room);
    }
  }

  lemma FlushIsStored(s: System, flushed: RoomIdentity, room: RoomIdentity)
    requires CanFlush(s, flushed) && Current(s.tables, room)
    ensures var s' := Flushed(s, flushed);
            Current(s'.tables, room)
            && Contents(s'.tables, room.musicId)
               == Contents(s.tables, room.musicId) + (if flushed == room then s.rooms[flushed].pending[0].ops else {})
  {
    var s' := Flushed(s, flushed);
    CollabHistory.StoreAddsItsUpdate(s.tables, Some(flushed), s.rooms[flushed].pending[0]);
    if flushed != room {
      CollabHistory.ContentsDependOn(s.tables, s'.tables, room.musicId);
    }
  }

  lemma OtherBrings(s: System, e: Event, room: RoomIdentity)
    requires Inv(s) && Admissible(s, e) && !OwnStage(e) && Current(s.tables, room) && Current(OtherStep(s, e).tables, room)
    ensures Contents(OtherStep(s, e).tables, room.musicId) == Contents(s.tables, room.musicId) + Brings(s, e, room)
  {
    var t' := OtherStep(s, e).tables;
    match e
    case Flush(r) =>
      if CanFlush(s, r) {
        FlushIsStored(s, r, room);
      }
    case Evict(r) => DrainedIsStored(s, r, room);
    case CompactLog(r, encoding) => CollabHistory.CompactKeepsContents(s.tables, Some(r), encoding, room.musicId);
    case EnsureSong(_, _, _) => CollabHistory.ContentsDependOn(s.tables, t', room.musicId);
    case BumpElsewhere(_) => CollabHistory.ContentsDependOn(s.tables, t', room.musicId);
    case ReplaceSong(_, _, _) =>
      if t' != s.tables {
        CollabHistory.ContentsDependOn(s.tables, t', room.musicId);
      }
    case StartLoad(_, _) =>
    case Admit(_) =>
    case PeerWrites(_, _) =>
    case SaveElsewhere(_) =>
  }

  lemma SaveBrings(s: System, e: Event, room: RoomIdentity)
    requires Inv(s) && e.Save? && Current(s.tables, room) && Current(StageStep(s, e).tables, room)
    ensures Contents(StageStep(s, e).tables, room.musicId) == Contents(s.tables, room.musicId) + Brings(s, e, room)
  {
    if s.stage.Taken? && SaveTx(s, e.draft, e.valid, e.choice, e.encoded, e.envelope, e.reseed, e.encoding, e.actor).Ok? {
      SaveGrows(s, e);
    }
  }

  lemma OtherStagesStore(s: System, e: Event)
    requires OwnStage(e) && !e.Save? && !e.CloseRoom?
    ensures StageStep(s, e).tables == s.tables
  {}

  lemma StageBrings(s: System, e: Event, room: RoomIdentity)
    requires Inv(s) && OwnStage(e) && Current(s.tables, room) && Current(StageStep(s, e).tables, room)
    ensures Contents(StageStep(s, e).tables, room.musicId) == Contents(s.tables, room.musicId) + Brings(s, e, room)
  {
    if e.Save? {
      SaveBrings(s, e, room);
    } else if e.CloseRoom? {
      if s.stage.Retiring? {
        DrainedIsStored(s, RoomOf(s.stage.base), room);
      }
    } else {
      OtherStagesStore(s, e);
    }
  }

  lemma {:induction false} FlushRoomGrows(s: System, room: RoomIdentity)
    requires Inv(s)
    ensures Grows(s.tables, FlushRoom(s, room).tables)
    decreases if room in s.rooms then |s.rooms[room].pending| else 0
  {
    if CanFlush(s, room) {
      FlushMayRun(s, room);
      FlushRoomGrows(Flushed(s, room), room);
      GrowsOn(s.tables, Flushed(s, room).tables, FlushRoom(s, room).tables);
    }
  }

  lemma GrowsOn(a: Tables, b: Tables, c: Tables)
    requires Grows(a, b) && Grows(b, c)
    ensures Grows(a, c)
  {}

  lemma StepGrows(s: System, e: Event)
    requires Inv(s) && Admissible(s, e)
    ensures Grows(s.tables, Step(s, e).tables)
  {
    if e.CloseRoom? {
      if s.stage.Retiring? {
        FlushRoomGrows(s, RoomOf(s.stage.base));
      }
    } else if e.Save? {
      if s.stage.Taken? && SaveTx(s, e.draft, e.valid, e.choice, e.encoded, e.envelope, e.reseed, e.encoding, e.actor).Ok? {
        SaveGrows(s, e);
      }
    } else if !OwnStage(e) {
      OtherGrows(s, e);
    }
  }

  lemma OtherGrows(s: System, e: Event)
    requires Inv(s) && Admissible(s, e) && !OwnStage(e)
    ensures Grows(s.tables, OtherStep(s, e).tables)
  {
    if TablesOnly(e) {
      TablesOnlyGrows(s, e);
    } else if e.Evict? {
      FlushRoomGrows(s, e.room);
    } else if e.Flush? && CanFlush(s, e.room) {
      FlushMayRun(s, e.room);
    }
  }

  /** A room that is current after a step was current before it. */
  lemma CurrentBefore(t: Tables, t': Tables, room: RoomIdentity)
    requires Grows(t, t') && Reached(t, room)
    ensures Reached(t', room) && (Current(t', room) ==> Current(t, room))
  {}

  lemma StepBrings(s: System, e: Event, room: RoomIdentity)
    requires Inv(s) && Admissible(s, e) && Current(s.tables, room) && Current(Step(s, e).tables, room)
    ensures Contents(Step(s, e).tables, room.musicId) == Contents(s.tables, room.musicId) + Brings(s, e, room)
  {
    if OwnStage(e) {
      StageBrings(s, e, room);
    } else {
      OtherBrings(s, e, room);
    }
  }

  lemma {:induction false} StaysReached(s: System, events: seq<Event>, room: RoomIdentity)
    requires Inv(s) && AdmissibleRun(s, events) && Reached(s.tables, room)
    ensures Inv(Run(s, events)) && Reached(Run(s, events).tables, room)
  {
    if events != [] {
      var n := |events| - 1;
      AdmissiblePrefix(s, events, n);
      StaysReached(s, events[..n], room);
      StepGrows(Run(s, events[..n]), events[n]);
      CurrentBefore(Run(s, events[..n]).tables, Run(s, events).tables, room);
      StepKeepsInvariant(Run(s, events[..n]), events[n]);
    }
  }

  /** While a room stays current its contents grow by exactly what is brought. */
  lemma {:induction false} ContentsAreBrought(s: System, events: seq<Event>, room: RoomIdentity)
    requires Inv(s) && AdmissibleRun(s, events) && Reached(s.tables, room) && Current(Run(s, events).tables, room)
    ensures Current(s.tables, room)
    ensures Contents(Run(s, events).tables, room.musicId) == Contents(s.tables, room.musicId) + Brought(s, events, room)
  {
    if events != [] {
      var n := |events| - 1;
      AdmissiblePrefix(s, events, n);
      StaysReached(s, events[..n], room);
      StepGrows(Run(s, events[..n]), events[n]);
      CurrentBefore(Run(s, events[..n]).tables, Run(s, events).tables, room);
      ContentsAreBrought(s, events[..n], room);
      StepBrings(Run(s, events[..n]), events[n], room);
    }
  }

  lemma {:induction false} LoadingWaits(s: System, events: seq<Event>, room: RoomIdentity)
    requires room in s.loading
    requires forall i :: 0 <= i < |events| ==> !(events[i].StartLoad? && events[i].room == room) && events[i] != Admit(room)
    ensures room in Run(s, events).loading && Run(s, events).loading[room] == s.loading[room]
  {
    if events != [] {
      var n := |events| - 1;
      LoadingWaits(s, events[..n], room);
      LoadingStep(Run(s, events[..n]), events[n], room);
    }
  }

  lemma LoadingStep(s: System, e: Event, room: RoomIdentity)
    requires room in s.loading && !(e.StartLoad? && e.room == room) && e != Admit(room)
    ensures room in Step(s, e).loading && Step(s, e).loading[room] == s.loading[room]
  {
    if e.CloseRoom? && s.stage.Retiring? {
      FlushRoomKeepsLoading(s, RoomOf(s.stage.base));
    } else if e.Evict? {
      FlushRoomKeepsLoading(s, e.room);
    }
  }

  lemma {:induction false} FlushRoomKeepsLoading(s: System, room: RoomIdentity)
    ensures FlushRoom(s, room).loading == s.loading
    decreases if room in s.rooms then |s.rooms[room].pending| else 0
  {
    if CanFlush(s, room) {
      FlushRoomKeepsLoading(Flushed(s, room), room);
    }
  }

  lemma ReachableHolds(s: System)
    requires Reachable(s)
    ensures Inv(s) && LiveInv(s)
  {
    var catalog, events :| AdmissibleRun(Start(catalog), events) && s == Run(Start(catalog), events);
    RunKeepsLive(Start(catalog), events);
  }

  /** A load from any reachable state, admitted after `between`. */
  lemma LoadedThenAdmitted(s: System, room: RoomIdentity, encoding: Encoding, between: seq<Event>)
    requires Reachable(s) && Load(s.tables, Some(room), encoding).Ok?
    requires AdmissibleRun(LoadStep(s, room, encoding), between)
    requires forall i :: 0 <= i < |between| ==> !(between[i].StartLoad? && between[i].room == room) && between[i] != Admit(room)
    requires Current(Run(LoadStep(s, room, encoding), between).tables, room)
    ensures var loaded := LoadStep(s, room, encoding);
            var t := Run(loaded, between);
            && Current(s.tables, room) && room in t.loading && t.loading[room] == Contents(s.tables, room.musicId)
            && Contents(t.tables, room.musicId) == Contents(s.tables, room.musicId) + Brought(loaded, between, room)
  {
    ReachableHolds(s);
    var loaded := LoadStep(s, room, encoding);
    LoadingKeepsInvariant(s, room, encoding);
    LoadKeepsLive(s, room, encoding);
    LoadingWaits(loaded, between, room);
    ContentsAreBrought(loaded, between, room);
  }

  lemma AdmittedIsTheLoad(s: System, room: RoomIdentity)
    requires room in s.loading && room !in s.rooms && room !in s.retiring
    ensures var s' := AdmitStep(s, room);
            s'.tables == s.tables && room in s'.rooms && s'.rooms[room].live == s.loading[room]
  {}

  lemma MissesExactly(live: set<nat>, brought: set<nat>)
    ensures live == live + brought <==> brought <= live
  {}

  /** When such a load becomes resident, the room's copy is what was loaded: it
      is up to date if and only if no flush and no save in between brought
      anything new, and otherwise misses exactly that. */
  lemma AdmittedCopyMissesWhatWasBrought(s: System, room: RoomIdentity, encoding: Encoding, between: seq<Event>)
    requires Reachable(s) && Load(s.tables, Some(room), encoding).Ok?
    requires AdmissibleRun(LoadStep(s, room, encoding), between)
    requires forall i :: 0 <= i < |between| ==> !(between[i].StartLoad? && between[i].room == room) && between[i] != Admit(room)
    requires var t := Run(LoadStep(s, room, encoding), between); room !in t.rooms && room !in t.retiring && Current(t.tables, room)
    ensures var loaded := LoadStep(s, room, encoding);
            var t' := AdmitStep(Run(loaded, between), room);
            && room in t'.rooms && room.musicId in t'.tables.documents
            && var live, durable := t'.rooms[room].live, Contents(t'.tables, room.musicId);
               && durable == live + Brought(loaded, between, room)
               && (live == durable <==> Brought(loaded, between, room) <= live)
  {
    var loaded := LoadStep(s, room, encoding);
    LoadedThenAdmitted(s, room, encoding, between);
    AdmittedIsTheLoad(Run(loaded, between), room);
    MissesExactly(Contents(s.tables, room.musicId), Brought(loaded, between, room));
  }
}
