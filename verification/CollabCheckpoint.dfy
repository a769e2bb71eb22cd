/** Checkpoint of checkpoint.go as a protocol: its stages interleave with peers
    writing to rooms, the persistence worker flushing and compacting, other
    saves of the authoritative lyrics and epoch bumps. One checkpoint runs at a
    time (the service's operation mutex). */
module CollabCheckpoint {

  import opened Wrappers
  import opened Decimal
  import opened RoomNames
  import opened CollabPersistence
  import opened CollabHistory

  /** A resident room: its live document and the updates not yet written to the log. */
  datatype Room = Room(live: set<nat>, pending: seq<Update>)

  /** How far the running checkpoint has come. `document` is what the draft was
      materialised from; `shared` when that is the live document of the room. Absent
      is the moment after no resident room was found, Leaving the way out of a
      first save that failed. */
  datatype Stage =
    | Idle
    | Based(base: Baseline)
    | Opened(base: Baseline, kind: Kind, authority: Document)
    | Retiring(base: Baseline, kind: Kind, authority: Document)
    | Closed(base: Baseline, kind: Kind, authority: Document)
    | Ready(base: Baseline, kind: Kind, authority: Document, frozen: bool)
    | Absent(base: Baseline, kind: Kind, authority: Document, frozen: bool)
    | Taken(base: Baseline, kind: Kind, authority: Document, frozen: bool, document: set<nat>, shared: bool)
    | Saved(base: Baseline, changed: bool, frozen: bool, envelope: set<nat>)
    | Leaving(base: Baseline)

  datatype System = System(
    tables: Tables,
    authority: Authority,
    rooms: map<RoomIdentity, Room>,
    loading: map<RoomIdentity, set<nat>>,
    retiring: set<RoomIdentity>,
    stage: Stage,
    /* every operation peers ever wrote into a room */
    heard: map<RoomIdentity, set<nat>>)

  /** What the store's save does with the draft: refuse it, find it equal to the
      current document, or write a successor. `after` is the default edition's
      document, the one the room fingerprints; for legacy lyrics it is `final`. */
  datatype SaveChoice = Refuses | Same | Writes(final: Document, after: Document)

  datatype Failure =
    | Failed(error: Error) | SourceDrift | RevisionConflict | ImmutableDraft | StoreRefused | DocumentMismatch | CloseFailed

  datatype Event =
    // the rest of the system
    | StartLoad(room: RoomIdentity, encoding: Encoding)
    | Admit(room: RoomIdentity)
    | PeerWrites(room: RoomIdentity, update: Update)
    | Flush(room: RoomIdentity)
    | Evict(room: RoomIdentity)
    | CompactLog(room: RoomIdentity, encoding: Encoding)
    | EnsureSong(musicId: int, document: Document, seed: Update)
    | SaveElsewhere(document: Document)
    | BumpElsewhere(songs: set<int>)
    | ReplaceSong(musicId: int, document: Document, reseed: Option<Update>)
    // the checkpoint's own stages
    | Begin(musicId: int, encoding: Encoding)
    | Compare
    | BeginRetiring
    | CloseRoom
    | Rebase(encoding: Encoding)
    | TakeDocument
    | Reread(encoding: Encoding)
    | Save(draft: Document, valid: bool, choice: SaveChoice, encoded: Update, envelope: set<nat>,
           reseed: Option<Update>, encoding: Encoding, actor: string)
    | Finish

  function Heard(s: System, room: RoomIdentity): set<nat> {
    if room in s.heard then s.heard[room] else {}
  }

  function RoomOf(base: Baseline): RoomIdentity {
    RoomIdentity(base.musicId, base.epoch)
  }

  // ---- rooms ----

  function FirstPending(s: System, room: RoomIdentity): Outcome<()>
    requires room in s.rooms && s.rooms[room].pending != []
  {
    StoreUpdate(s.tables, Some(room), s.rooms[room].pending[0])
  }

  predicate CanFlush(s: System, room: RoomIdentity) {
    room in s.rooms && s.rooms[room].pending != [] && FirstPending(s, room).result.Ok?
  }

  /** The persistence worker moves a room's oldest pending update into its log. */
  function Flushed(s: System, room: RoomIdentity): System
    requires CanFlush(s, room)
  {
    var r := s.rooms[room];
    s.(tables := FirstPending(s, room).tables, rooms := s.rooms[room := r.(pending := r.pending[1..])])
  }

  /** Flushes until nothing is pending or a store is refused. */
  function FlushRoom(s: System, room: RoomIdentity): System
    decreases if room in s.rooms then |s.rooms[room].pending| else 0
  {
    if CanFlush(s, room) then FlushRoom(Flushed(s, room), room) else s
  }

  /** ygo closes a room by flushing, then evicting it. */
  function Closing(s: System, room: RoomIdentity): (System, bool) {
    var flushed := FlushRoom(s, room);
    if room in flushed.rooms && flushed.rooms[room].pending != [] then (flushed, false)
    else (flushed.(rooms := flushed.rooms - {room}), true)
  }

  // ---- the checkpoint's stages ----

  /** A first save has marked its room and its deferred endRetiring is still to run. */
  predicate Marked(stage: Stage) {
    || stage.Retiring? || stage.Closed? || stage.Leaving?
    || ((stage.Ready? || stage.Absent? || stage.Taken? || stage.Saved?) && stage.frozen)
  }

  function Marks(stage: Stage): set<RoomIdentity> {
    if Marked(stage) then {RoomOf(stage.base)} else {}
  }

  function Abort(s: System): System {
    s.(stage := if Marked(s.stage) then Leaving(s.stage.base) else Idle)
  }

  /** The row and, under the row's room name, the load; a row that moved in
      between would only make the load fail. An identity out of range has no
      name that can be read back. */
  function ReadBaseline(t: Tables, musicId: int, encoding: Encoding): Result<Baseline, Error> {
    if musicId !in t.documents then Err(NoRows)
    else
      var row := t.documents[musicId];
      var room := RoomIdentity(musicId, row.epoch);
      match Load(t, if ValidIdentity(room) then Some(room) else None, encoding)
      case Err(e) => Err(e)
      case Ok(update) => Ok(Baseline(musicId, row.epoch, update, row.baseRevision, row.authority))
  }

  function BeginStage(s: System, musicId: int, encoding: Encoding): Result<Stage, Failure> {
    match ReadBaseline(s.tables, musicId, encoding)
    case Err(e) => Err(Failed(e))
    case Ok(base) => Ok(Based(base))
  }

  function CompareStage(s: System): Result<Stage, Failure>
    requires s.stage.Based?
  {
    var base := s.stage.base;
    match AuthoritativeDocument(s.authority, base.musicId)
    case Err(e) => Err(Failed(e))
    case Ok(document) =>
      if Fingerprint(document) != base.authority || document.revision != base.baseRevision then Err(SourceDrift)
      else Ok(Opened(base, document.kind, document))
  }

  function RebaseStage(s: System, encoding: Encoding): Result<Stage, Failure>
    requires s.stage.Closed?
  {
    match ReadBaseline(s.tables, s.stage.base.musicId, encoding)
    case Err(e) => Err(Failed(e))
    case Ok(base) =>
      if base.baseRevision != 0 || base.epoch != s.stage.base.epoch then Err(Failed(RetiredRoom))
      else Ok(Ready(base, s.stage.kind, s.stage.authority, true))
  }

  /** GetDoc: a live document of the room, or none. */
  function TakeStage(s: System): Stage
    requires s.stage.Ready?
  {
    var p := s.stage;
    if RoomOf(p.base) in s.rooms then Taken(p.base, p.kind, p.authority, p.frozen, s.rooms[RoomOf(p.base)].live, true)
    else Absent(p.base, p.kind, p.authority, p.frozen)
  }

  function RereadStage(s: System, encoding: Encoding): Result<Stage, Failure>
    requires s.stage.Absent?
  {
    var p := s.stage;
    match ReadBaseline(s.tables, p.base.musicId, encoding)
    case Err(e) => Err(Failed(e))
    case Ok(base) =>
      if base.epoch != p.base.epoch || base.authority != p.base.authority || base.baseRevision != p.base.baseRevision
      then Err(Failed(RetiredRoom))
      else Ok(Taken(base, p.kind, p.authority, p.frozen, base.update.ops, false))
  }

  /** A choice the store can make on `current`: a write advances the revision by
      one and keeps the song; legacy lyrics have a single edition; a rendition
      document never has revision 0. */
  predicate LegalChoice(current: Document, choice: SaveChoice) {
    choice.Writes? ==>
      && choice.final.musicId == choice.after.musicId == current.musicId
      && choice.final.kind == choice.after.kind == current.kind
      && choice.final.revision == current.revision + 1 && choice.after.revision >= current.revision
      && (current.kind == Legacy ==> choice.after == choice.final)
  }

  predicate Positive(document: Document) {
    document.revision >= 0 && (document.kind == Renditions ==> document.revision > 0)
  }

  function SetAuthority(a: Authority, document: Document): Authority {
    a.(documents := a.documents[document.musicId := document])
  }

  /** The store's transaction with commitCheckpoint as its last act. Nothing is
      written unless everything succeeds. */
  function SaveTx(s: System, draft: Document, valid: bool, choice: SaveChoice, encoded: Update, envelope: set<nat>,
                  reseed: Option<Update>, encoding: Encoding, actor: string): Result<System, Failure>
    requires s.stage.Taken?
  {
    var p := s.stage;
    if draft.revision != p.authority.revision then Err(RevisionConflict)
    else if !valid then Err(ImmutableDraft)
    else
      match AuthoritativeDocument(s.authority, p.base.musicId)
      case Err(e) => Err(Failed(e))
      case Ok(current) =>
        if choice.Refuses? || current.revision != draft.revision || !LegalChoice(current, choice) then Err(StoreRefused)
        else
          var changed := choice.Writes?;
          var after := if changed then choice.after else current;
          var final := if changed then choice.final else current;
          if after.kind != p.kind then Err(DocumentMismatch)
          else
            var written :=
              if p.base.baseRevision == 0 && changed then
                var o := ReseedCheckpoint(s.tables, p.base, final, reseed, actor, true);
                Outcome(o.tables, if o.result.Ok? then Ok(()) else Err(o.result.error))
              else
                CommitCheckpoint(s.tables, p.base, encoded.(ops := p.document + encoded.ops + envelope),
                                 after.revision, Fingerprint(after), actor, changed, encoding);
            match written.result
            case Err(e) => Err(Failed(e))
            case Ok(_) =>
              Ok(s.(tables := written.tables,
                    authority := if changed then SetAuthority(s.authority, after) else s.authority,
                    stage := Saved(p.base, changed, p.frozen, envelope)))
  }

  function Resume(s: System, next: Result<Stage, Failure>): System {
    match next
    case Err(_) => Abort(s)
    case Ok(stage) => s.(stage := stage)
  }

  // A stage that is not next changes nothing.

  function BeginStep(s: System, musicId: int, encoding: Encoding): System {
    if s.stage.Idle? then Resume(s, BeginStage(s, musicId, encoding)) else s
  }

  function CompareStep(s: System): System {
    if s.stage.Based? then Resume(s, CompareStage(s)) else s
  }

  function RetireStep(s: System): System {
    if !s.stage.Opened? then s
    else
      var p := s.stage;
      if p.base.baseRevision == 0 then
        s.(stage := Retiring(p.base, p.kind, p.authority), retiring := s.retiring + {RoomOf(p.base)})
      else s.(stage := Ready(p.base, p.kind, p.authority, false))
  }

  function CloseStep(s: System): System {
    if !s.stage.Retiring? then s
    else
      var p := s.stage;
      var (closed, ok) := Closing(s, RoomOf(p.base));
      if ok then closed.(stage := Closed(p.base, p.kind, p.authority)) else Abort(closed)
  }

  function RebaseStep(s: System, encoding: Encoding): System {
    if s.stage.Closed? then Resume(s, RebaseStage(s, encoding)) else s
  }

  function TakeStep(s: System): System {
    if s.stage.Ready? then s.(stage := TakeStage(s)) else s
  }

  function RereadStep(s: System, encoding: Encoding): System {
    if s.stage.Absent? then Resume(s, RereadStage(s, encoding)) else s
  }

  function SaveStep(s: System, draft: Document, valid: bool, choice: SaveChoice, encoded: Update, envelope: set<nat>,
                    reseed: Option<Update>, encoding: Encoding, actor: string): System
  {
    if !s.stage.Taken? then s
    else
      match SaveTx(s, draft, valid, choice, encoded, envelope, reseed, encoding, actor)
      case Err(_) => Abort(s)
      case Ok(saved) => saved
  }

  /** applyAuthorityUpdate: a live room adopts the envelope that was just stored;
      then the deferred endRetiring. */
  function FinishStep(s: System): System {
    if !s.stage.Saved? && !s.stage.Leaving? then s
    else
      var p := s.stage;
      var room := RoomOf(p.base);
      var adopts := p.Saved? && p.changed && p.base.baseRevision != 0 && room in s.rooms;
      s.(rooms := if adopts then s.rooms[room := s.rooms[room].(live := s.rooms[room].live + p.envelope)] else s.rooms,
         retiring := s.retiring - Marks(p), stage := Idle)
  }

  // The rest of the system.

  function LoadStep(s: System, room: RoomIdentity, encoding: Encoding): System {
    match Load(s.tables, Some(room), encoding)
    case Ok(u) => s.(loading := s.loading[room := u.ops])
    case Err(_) => s
  }

  /** A loaded document becomes resident unless its room is retiring by then. */
  function AdmitStep(s: System, room: RoomIdentity): System {
    if room !in s.loading || room in s.rooms then s
    else if room in s.retiring then s.(loading := s.loading - {room})
    else s.(loading := s.loading - {room}, rooms := s.rooms[room := Room(s.loading[room], [])])
  }

  function WriteStep(s: System, room: RoomIdentity, u: Update): System {
    if room !in s.rooms then s
    else
      var r := s.rooms[room];
      s.(rooms := s.rooms[room := Room(r.live + u.ops, r.pending + [u])],
         heard := s.heard[room := Heard(s, room) + u.ops])
  }

  function SaveElsewhereStep(s: System, document: Document): System {
    if Positive(document) then s.(authority := SetAuthority(s.authority, document)) else s
  }

  predicate OwnStage(event: Event) {
    || event.Begin? || event.Compare? || event.BeginRetiring? || event.CloseRoom? || event.Rebase?
    || event.TakeDocument? || event.Reread? || event.Save? || event.Finish?
  }

  function StageStep(s: System, event: Event): System
    requires OwnStage(event)
  {
    match event
    case Begin(id, e) => BeginStep(s, id, e)
    case Compare => CompareStep(s)
    case BeginRetiring => RetireStep(s)
    case CloseRoom => CloseStep(s)
    case Rebase(e) => RebaseStep(s, e)
    case TakeDocument => TakeStep(s)
    case Reread(e) => RereadStep(s, e)
    case Save(d, v, c, u, env, seed, e, actor) => SaveStep(s, d, v, c, u, env, seed, e, actor)
    case Finish => FinishStep(s)
  }

  function OtherStep(s: System, event: Event): System
    requires !OwnStage(event)
  {
    match event
    case StartLoad(room, e) => LoadStep(s, room, e)
    case Admit(room) => AdmitStep(s, room)
    case PeerWrites(room, u) => WriteStep(s, room, u)
    case Flush(room) => if CanFlush(s, room) then Flushed(s, room) else s
    case Evict(room) => Closing(s, room).0
    case CompactLog(room, e) => s.(tables := Compact(s.tables, Some(room), e).tables)
    case EnsureSong(id, d, seed) => s.(tables := InsertRoom(s.tables, id, d, seed).tables)
    case SaveElsewhere(d) => SaveElsewhereStep(s, d)
    case BumpElsewhere(songs) => s.(tables := BumpEpochs(s.tables, songs))
    case ReplaceSong(id, d, seed) =>
      if s.stage.Idle? then s.(tables := Replace(s.tables, id, d, seed).tables) else s
  }

  /** A disabled event changes nothing. */
  function Step(s: System, event: Event): System {
    if OwnStage(event) then StageStep(s, event) else OtherStep(s, event)
  }

  function Run(s: System, events: seq<Event>): System {
    if events == [] then s else Step(Run(s, events[..|events| - 1]), events[|events| - 1])
  }

  predicate Admissible(s: System, event: Event) {
    event.ReplaceSong? && event.musicId in s.tables.documents ==> s.tables.documents[event.musicId].epoch < MAX_INT64
  }

  predicate AdmissibleRun(s: System, events: seq<Event>) {
    forall n :: 0 <= n < |events| ==> Admissible(Run(s, events[..n]), events[n])
  }

  // ---- the invariant ----

  predicate Current(t: Tables, room: RoomIdentity) {
    room.musicId in t.documents && t.documents[room.musicId].epoch == room.epoch
  }

  /** What a room's peers wrote is durable, or pending in the resident room. */
  ghost predicate Durable(s: System, room: RoomIdentity) {
    Current(s.tables, room) ==>
      Heard(s, room) <= Contents(s.tables, room.musicId) + (if room in s.rooms then JoinOps(s.rooms[room].pending) else {})
  }

  /** No room is known that the tables have not reached yet. */
  predicate Reached(t: Tables, room: RoomIdentity) {
    room.musicId in t.documents && room.epoch <= t.documents[room.musicId].epoch
  }

  /** The frozen part of a first save: its room is closed and marked. */
  predicate FrozenStage(stage: Stage) {
    stage.Closed? || ((stage.Ready? || stage.Absent? || stage.Taken?) && stage.frozen)
  }

  /** The only mark is the running first save's. While it holds its room frozen
      the room is absent, and so cannot hear anything. */
  ghost predicate FreezeHolds(s: System) {
    && s.retiring == Marks(s.stage)
    && (Marked(s.stage) ==> s.stage.base.baseRevision == 0)
    && (FrozenStage(s.stage) ==> RoomOf(s.stage.base) !in s.rooms)
    && (s.stage.Taken? && s.stage.frozen ==> Heard(s, RoomOf(s.stage.base)) <= s.stage.document)
  }

  /** A first save always goes through the freeze, and every room a checkpoint
      works on has a name that can be read back. */
  ghost predicate FirstSaveFrozen(s: System) {
    && (s.stage.Ready? || s.stage.Absent? || s.stage.Taken? || s.stage.Saved? ==> (s.stage.base.baseRevision == 0 <==> s.stage.frozen))
    && (!s.stage.Idle? ==> ValidIdentity(RoomOf(s.stage.base)))
    && (!s.stage.Idle? && !s.stage.Based? && !s.stage.Saved? && !s.stage.Leaving? ==>
          Positive(s.stage.authority) && s.stage.authority.revision == s.stage.base.baseRevision
          && s.stage.authority.kind == s.stage.kind)
  }

  ghost predicate Inv(s: System) {
    && Sound(s.tables)
    && (forall id :: id in s.authority.documents ==> s.authority.documents[id].musicId == id && Positive(s.authority.documents[id]))
    && (forall room :: room in s.rooms || room in s.loading || room in s.heard ==> Reached(s.tables, room))
    && (forall room :: Durable(s, room))
    && FreezeHolds(s)
    && FirstSaveFrozen(s)
  }

  // ---- what each kind of step does to the rooms ----

  /** Every song's current contents only grow, or its epoch ends. */
  ghost predicate Grows(t: Tables, t': Tables) {
    forall id :: id in t.documents ==>
      && id in t'.documents
      && t'.documents[id].epoch >= t.documents[id].epoch
      && (t'.documents[id].epoch == t.documents[id].epoch ==> Contents(t, id) <= Contents(t', id))
  }

  /** A growing table change keeps what rooms heard durable. */
  lemma TablesMayGrow(s: System, t': Tables)
    requires Inv(s) && Sound(t') && Grows(s.tables, t')
    ensures Inv(s.(tables := t'))
  {
    var s' := s.(tables := t');
    forall room ensures Durable(s', room) {
      assert Durable(s, room);
      if Current(t', room) && !Current(s.tables, room) {
        assert !Reached(s.tables, room);
      }
    }
  }

  lemma CompactMayRun(s: System, room: RoomIdentity, encoding: Encoding)
    requires Inv(s)
    ensures Inv(s.(tables := Compact(s.tables, Some(room), encoding).tables))
    ensures Grows(s.tables, Compact(s.tables, Some(room), encoding).tables)
  {
    var t' := Compact(s.tables, Some(room), encoding).tables;
    CompactKeepsSound(s.tables, Some(room), encoding);
    forall id | id in s.tables.documents
      ensures id in t'.documents && t'.documents[id].epoch == s.tables.documents[id].epoch && Contents(t', id) == Contents(s.tables, id)
    {
      CompactKeepsContents(s.tables, Some(room), encoding, id);
    }
    TablesMayGrow(s, t');
  }

  lemma InsertMayRun(s: System, id: int, document: Document, seed: Update)
    requires Inv(s)
    ensures Inv(s.(tables := InsertRoom(s.tables, id, document, seed).tables))
    ensures Grows(s.tables, InsertRoom(s.tables, id, document, seed).tables)
  {
    var t' := InsertRoom(s.tables, id, document, seed).tables;
    InsertKeepsSound(s.tables, id, document, seed);
    forall other | other in s.tables.documents ensures Contents(t', other) == Contents(s.tables, other) {
      ContentsDependOn(s.tables, t', other);
    }
    TablesMayGrow(s, t');
  }

  lemma BumpMayRun(s: System, songs: set<int>)
    requires Inv(s)
    ensures Inv(s.(tables := BumpEpochs(s.tables, songs)))
    ensures Grows(s.tables, BumpEpochs(s.tables, songs))
  {
    var t' := BumpEpochs(s.tables, songs);
    BumpKeepsSound(s.tables, songs);
    forall id | id in s.tables.documents && id !in songs ensures Contents(t', id) == Contents(s.tables, id) {
      ContentsDependOn(s.tables, t', id);
    }
    TablesMayGrow(s, t');
  }

  lemma ReplaceMayRun(s: System, id: int, document: Document, seed: Option<Update>)
    requires Inv(s) && (id in s.tables.documents ==> s.tables.documents[id].epoch < MAX_INT64)
    ensures Inv(s.(tables := Replace(s.tables, id, document, seed).tables))
    ensures Grows(s.tables, Replace(s.tables, id, document, seed).tables)
  {
    var t' := Replace(s.tables, id, document, seed).tables;
    ReplaceKeepsSound(s.tables, id, document, seed);
    forall other | other in s.tables.documents && (other != id || t' == s.tables) ensures Contents(t', other) == Contents(s.tables, other) {
      ContentsDependOn(s.tables, t', other);
    }
    TablesMayGrow(s, t');
  }

  lemma CommitOnlyGrows(t: Tables, b: Baseline, update: Update, revision: int, authority: Fingerprint,
                        actor: string, changed: bool, encoding: Encoding)
    requires Sound(t) && CommitCheckpoint(t, b, update, revision, authority, actor, changed, encoding).result.Ok?
    ensures Grows(t, CommitCheckpoint(t, b, update, revision, authority, actor, changed, encoding).tables)
  {
    var t' := CommitCheckpoint(t, b, update, revision, authority, actor, changed, encoding).tables;
    CommitAddsItsUpdate(t, b, update, revision, authority, actor, changed, encoding);
    forall id | id in t.documents && id != b.musicId ensures Contents(t', id) == Contents(t, id) {
      ContentsDependOn(t, t', id);
    }
  }

  lemma CommitMayRun(s: System, b: Baseline, update: Update, revision: int, authority: Fingerprint,
                     actor: string, changed: bool, encoding: Encoding)
    requires Inv(s)
    ensures Inv(s.(tables := CommitCheckpoint(s.tables, b, update, revision, authority, actor, changed, encoding).tables))
    ensures Grows(s.tables, CommitCheckpoint(s.tables, b, update, revision, authority, actor, changed, encoding).tables)
  {
    var o := CommitCheckpoint(s.tables, b, update, revision, authority, actor, changed, encoding);
    CommitKeepsSound(s.tables, b, update, revision, authority, actor, changed, encoding);
    if o.result.Ok? {
      CommitOnlyGrows(s.tables, b, update, revision, authority, actor, changed, encoding);
      TablesMayGrow(s, o.tables);
    }
  }

  lemma ReseedMayRun(s: System, b: Baseline, document: Document, seed: Option<Update>, actor: string, changed: bool)
    requires Inv(s)
    ensures Inv(s.(tables := ReseedCheckpoint(s.tables, b, document, seed, actor, changed).tables))
    ensures Grows(s.tables, ReseedCheckpoint(s.tables, b, document, seed, actor, changed).tables)
  {
    var o := ReseedCheckpoint(s.tables, b, document, seed, actor, changed);
    ReseedKeepsSound(s.tables, b, document, seed, actor, changed);
    if o.result.Ok? {
      forall id | id in s.tables.documents && id != b.musicId ensures Contents(o.tables, id) == Contents(s.tables, id) {
        ContentsDependOn(s.tables, o.tables, id);
      }
      TablesMayGrow(s, o.tables);
    }
  }

  /** One flush adds its update to its room and touches no other song. */
  lemma FlushStores(s: System, room: RoomIdentity)
    requires Sound(s.tables) && CanFlush(s, room)
    ensures var t, t', u := s.tables, Flushed(s, room).tables, s.rooms[room].pending[0];
            && Sound(t') && t'.documents == t.documents && room.musicId in t.documents
            && Contents(t', room.musicId) == Contents(t, room.musicId) + u.ops
            && forall id :: id in t.documents && id != room.musicId ==> Contents(t', id) == Contents(t, id)
  {
    var t, t', u := s.tables, Flushed(s, room).tables, s.rooms[room].pending[0];
    StoreKeepsSound(t, Some(room), u);
    StoreAddsItsUpdate(t, Some(room), u);
    forall id | id in t.documents && id != room.musicId ensures Contents(t', id) == Contents(t, id) {
      ContentsDependOn(t, t', id);
    }
  }

  lemma FlushMayRun(s: System, room: RoomIdentity)
    requires Inv(s) && CanFlush(s, room)
    ensures Inv(Flushed(s, room))
    ensures Grows(s.tables, Flushed(s, room).tables)
  {
    var s' := Flushed(s, room);
    FlushStores(s, room);
    forall other ensures Durable(s', other) {
      assert Durable(s, other);
    }
  }

  lemma {:induction false} FlushRoomKeepsInvariant(s: System, room: RoomIdentity)
    requires Inv(s)
    ensures var s' := FlushRoom(s, room);
            Inv(s') && s' == s.(tables := s'.tables, rooms := s'.rooms)
    decreases if room in s.rooms then |s.rooms[room].pending| else 0
  {
    if CanFlush(s, room) {
      FlushMayRun(s, room);
      FlushRoomKeepsInvariant(Flushed(s, room), room);
    }
  }

  lemma ClosingKeepsInvariant(s: System, room: RoomIdentity)
    requires Inv(s)
    ensures var (s', ok) := Closing(s, room);
            && Inv(s') && s' == s.(tables := s'.tables, rooms := s'.rooms)
            && (ok ==> room !in s'.rooms)
  {
    FlushRoomKeepsInvariant(s, room);
    var flushed := FlushRoom(s, room);
    var gone := flushed.(rooms := flushed.rooms - {room});
    if !(room in flushed.rooms && flushed.rooms[room].pending != []) {
      forall other ensures Durable(gone, other) {
        assert Durable(flushed, other);
      }
    }
  }

  lemma AbortKeepsInvariant(s: System)
    requires Inv(s)
    ensures Inv(Abort(s))
  {
    forall room ensures Durable(Abort(s), room) {
      assert Durable(s, room);
    }
  }

  /** A stage change alone. */
  lemma StageMayChange(s: System, s': System)
    requires Inv(s) && s' == s.(stage := s'.stage, retiring := s'.retiring)
    requires FreezeHolds(s') && FirstSaveFrozen(s')
    ensures Inv(s')
  {
    forall room ensures Durable(s', room) {
      assert Durable(s, room);
    }
  }

  lemma ReadBaselineReads(t: Tables, id: int, encoding: Encoding)
    requires Sound(t) && ReadBaseline(t, id, encoding).Ok?
    ensures var b := ReadBaseline(t, id, encoding).value;
            && b.musicId == id && Current(t, RoomOf(b)) && ValidIdentity(RoomOf(b))
            && b.update.ops == Contents(t, id) && b.baseRevision >= 0
  {
    LoadIsContents(t, id, encoding);
  }

  // ---- every step keeps the invariant ----

  lemma LoadingKeepsInvariant(s: System, room: RoomIdentity, encoding: Encoding)
    requires Inv(s)
    ensures Inv(LoadStep(s, room, encoding))
  {
    var s' := LoadStep(s, room, encoding);
    forall other ensures Durable(s', other) {
      assert Durable(s, other);
    }
  }

  lemma AdmittingKeepsInvariant(s: System, room: RoomIdentity)
    requires Inv(s)
    ensures Inv(AdmitStep(s, room))
  {
    var s' := AdmitStep(s, room);
    assert JoinOps([]) == {};
    forall other ensures Durable(s', other) {
      assert Durable(s, other);
    }
  }

  lemma WritingKeepsInvariant(s: System, room: RoomIdentity, update: Update)
    requires Inv(s)
    ensures Inv(WriteStep(s, room, update))
  {
    var s' := WriteStep(s, room, update);
    if room in s.rooms {
      JoinOpsConcat(s.rooms[room].pending, [update]);
      JoinOpsCons(update, []);
      assert [update] + [] == [update];
    }
    forall other ensures Durable(s', other) {
      assert Durable(s, other);
    }
  }

  lemma SavingElsewhereKeepsInvariant(s: System, document: Document)
    requires Inv(s)
    ensures Inv(SaveElsewhereStep(s, document))
  {
    forall other ensures Durable(SaveElsewhereStep(s, document), other) {
      assert Durable(s, other);
    }
  }

  lemma AuthorityIsPositive(s: System, id: int)
    requires Inv(s) && AuthoritativeDocument(s.authority, id).Ok?
    ensures var d := AuthoritativeDocument(s.authority, id).value; d.musicId == id && Positive(d)
  {}

  lemma BeginKeepsInvariant(s: System, id: int, encoding: Encoding)
    requires Inv(s) && s.stage.Idle?
    ensures Inv(Resume(s, BeginStage(s, id, encoding)))
  {
    if BeginStage(s, id, encoding).Ok? {
      ReadBaselineReads(s.tables, id, encoding);
      StageMayChange(s, Resume(s, BeginStage(s, id, encoding)));
    } else {
      AbortKeepsInvariant(s);
    }
  }

  lemma CompareKeepsInvariant(s: System)
    requires Inv(s) && s.stage.Based?
    ensures Inv(Resume(s, CompareStage(s)))
  {
    if CompareStage(s).Ok? {
      AuthorityIsPositive(s, s.stage.base.musicId);
      StageMayChange(s, Resume(s, CompareStage(s)));
    } else {
      AbortKeepsInvariant(s);
    }
  }

  lemma RetiringKeepsInvariant(s: System)
    requires Inv(s)
    ensures Inv(RetireStep(s))
  {
    StageMayChange(s, RetireStep(s));
  }

  lemma CloseRoomKeepsInvariant(s: System)
    requires Inv(s)
    ensures Inv(CloseStep(s))
  {
    if s.stage.Retiring? {
      ClosingKeepsInvariant(s, RoomOf(s.stage.base));
      var (closed, ok) := Closing(s, RoomOf(s.stage.base));
      if ok {
        StageMayChange(closed, CloseStep(s));
      } else {
        AbortKeepsInvariant(closed);
      }
    }
  }

  lemma RebaseKeepsInvariant(s: System, encoding: Encoding)
    requires Inv(s) && s.stage.Closed?
    ensures Inv(Resume(s, RebaseStage(s, encoding)))
  {
    if RebaseStage(s, encoding).Ok? {
      ReadBaselineReads(s.tables, s.stage.base.musicId, encoding);
      StageMayChange(s, Resume(s, RebaseStage(s, encoding)));
    } else {
      AbortKeepsInvariant(s);
    }
  }

  lemma TakeKeepsInvariant(s: System)
    requires Inv(s) && s.stage.Ready?
    ensures Inv(TakeStep(s))
  {
    StageMayChange(s, TakeStep(s));
  }

  /** The document of a frozen room is read after everything it heard became durable. */
  lemma RereadKeepsInvariant(s: System, encoding: Encoding)
    requires Inv(s) && s.stage.Absent?
    ensures Inv(Resume(s, RereadStage(s, encoding)))
  {
    var room := RoomOf(s.stage.base);
    if RereadStage(s, encoding).Ok? {
      ReadBaselineReads(s.tables, s.stage.base.musicId, encoding);
      assert Durable(s, room);
      StageMayChange(s, Resume(s, RereadStage(s, encoding)));
    } else {
      AbortKeepsInvariant(s);
    }
  }

  /** A first save can only be a legacy document, so it has a single edition. */
  lemma FirstSaveIsLegacy(s: System, draft: Document, valid: bool, choice: SaveChoice, encoded: Update, envelope: set<nat>,
                          reseed: Option<Update>, encoding: Encoding, actor: string)
    requires Inv(s) && s.stage.Taken? && s.stage.base.baseRevision == 0 && choice.Writes?
    requires SaveTx(s, draft, valid, choice, encoded, envelope, reseed, encoding, actor).Ok?
    ensures choice.after == choice.final
  {
    AuthorityIsPositive(s, s.stage.base.musicId);
  }

  lemma SavedKeepsInvariant(s: System, s': System)
    requires Inv(s) && s.stage.Taken? && s' == s.(authority := s'.authority, stage := s'.stage)
    requires s'.stage.Saved? && s'.stage.base == s.stage.base && s'.stage.frozen == s.stage.frozen
    requires forall id :: id in s'.authority.documents ==> s'.authority.documents[id].musicId == id && Positive(s'.authority.documents[id])
    ensures Inv(s')
  {
    forall room ensures Durable(s', room) {
      assert Durable(s, room);
    }
  }

  lemma SaveKeepsInvariant(s: System, draft: Document, valid: bool, choice: SaveChoice, encoded: Update, envelope: set<nat>,
                           reseed: Option<Update>, encoding: Encoding, actor: string)
    requires Inv(s) && s.stage.Taken?
    requires SaveTx(s, draft, valid, choice, encoded, envelope, reseed, encoding, actor).Ok?
    ensures Inv(SaveTx(s, draft, valid, choice, encoded, envelope, reseed, encoding, actor).value)
  {
    var p := s.stage;
    var s' := SaveTx(s, draft, valid, choice, encoded, envelope, reseed, encoding, actor).value;
    AuthorityIsPositive(s, p.base.musicId);
    var current := AuthoritativeDocument(s.authority, p.base.musicId).value;
    var after := if choice.Writes? then choice.after else current;
    if p.base.baseRevision == 0 && choice.Writes? {
      ReseedMayRun(s, p.base, choice.final, reseed, actor, true);
    } else {
      CommitMayRun(s, p.base, encoded.(ops := p.document + encoded.ops + envelope), after.revision, Fingerprint(after),
                   actor, choice.Writes?, encoding);
    }
    SavedKeepsInvariant(s.(tables := s'.tables), s');
  }

  lemma FinishKeepsInvariant(s: System)
    requires Inv(s)
    ensures Inv(FinishStep(s))
  {
    forall room ensures Durable(FinishStep(s), room) {
      assert Durable(s, room);
    }
  }

  predicate RoomEvent(event: Event) {
    event.StartLoad? || event.Admit? || event.PeerWrites? || event.Flush? || event.Evict?
  }

  lemma RoomEventKeepsInvariant(s: System, event: Event)
    requires Inv(s) && RoomEvent(event)
    ensures Inv(OtherStep(s, event))
  {
    if event.StartLoad? {
      LoadingKeepsInvariant(s, event.room, event.encoding);
    } else if event.Admit? {
      AdmittingKeepsInvariant(s, event.room);
    } else if event.PeerWrites? {
      WritingKeepsInvariant(s, event.room, event.update);
    } else if event.Evict? {
      ClosingKeepsInvariant(s, event.room);
    } else if CanFlush(s, event.room) {
      FlushMayRun(s, event.room);
    }
  }

  lemma OtherStepKeepsInvariant(s: System, event: Event)
    requires Inv(s) && Admissible(s, event) && !OwnStage(event)
    ensures Inv(OtherStep(s, event))
  {
    if RoomEvent(event) {
      RoomEventKeepsInvariant(s, event);
    } else if event.CompactLog? {
      CompactMayRun(s, event.room, event.encoding);
    } else if event.EnsureSong? {
      InsertMayRun(s, event.musicId, event.document, event.seed);
    } else if event.SaveElsewhere? {
      SavingElsewhereKeepsInvariant(s, event.document);
    } else if event.BumpElsewhere? {
      BumpMayRun(s, event.songs);
    } else if s.stage.Idle? {
      ReplaceMayRun(s, event.musicId, event.document, event.reseed);
    }
  }

  lemma StageStepKeepsInvariant(s: System, event: Event)
    requires Inv(s) && OwnStage(event)
    ensures Inv(StageStep(s, event))
  {
    match event
    case Begin(id, e) =>
      if s.stage.Idle? {
        BeginKeepsInvariant(s, id, e);
      }
    case Compare =>
      if s.stage.Based? {
        CompareKeepsInvariant(s);
      }
    case BeginRetiring => RetiringKeepsInvariant(s);
    case CloseRoom => CloseRoomKeepsInvariant(s);
    case Rebase(e) =>
      if s.stage.Closed? {
        RebaseKeepsInvariant(s, e);
      }
    case TakeDocument =>
      if s.stage.Ready? {
        TakeKeepsInvariant(s);
      }
    case Reread(e) =>
      if s.stage.Absent? {
        RereadKeepsInvariant(s, e);
      }
    case Save(d, v, c, u, env, seed, e, actor) =>
      if s.stage.Taken? {
        if SaveTx(s, d, v, c, u, env, seed, e, actor).Ok? {
          SaveKeepsInvariant(s, d, v, c, u, env, seed, e, actor);
        } else {
          AbortKeepsInvariant(s);
        }
      }
    case Finish => FinishKeepsInvariant(s);
  }

  lemma StepKeepsInvariant(s: System, event: Event)
    requires Inv(s) && Admissible(s, event)
    ensures Inv(Step(s, event))
  {
    if OwnStage(event) {
      StageStepKeepsInvariant(s, event);
    } else {
      OtherStepKeepsInvariant(s, event);
    }
  }

  function Start(catalog: set<int>): System {
    System(Tables(map[], map[], []), Authority(map[], catalog), map[], map[], {}, Idle, map[])
  }

  lemma {:induction false} RunKeepsInvariant(catalog: set<int>, events: seq<Event>)
    requires AdmissibleRun(Start(catalog), events)
    ensures Inv(Run(Start(catalog), events))
  {
    if events != [] {
      var init, last := events[..|events| - 1], events[|events| - 1];
      forall n | 0 <= n < |init| ensures Admissible(Run(Start(catalog), init[..n]), init[n]) {
        assert init[..n] == events[..n];
      }
      RunKeepsInvariant(catalog, init);
      StepKeepsInvariant(Run(Start(catalog), init), last);
    }
  }

  /** A state some run of the protocol reaches. */
  ghost predicate Reachable(s: System) {
    exists catalog, events :: AdmissibleRun(Start(catalog), events) && s == Run(Start(catalog), events)
  }

  // ---- main results ----

  /** Atomicity. The save either changes neither the lyrics nor the room's
      tables, or moves both: the row then carries exactly the revision and
      fingerprint of the document now authoritative, and the ledger gained one
      row from the old pair to the new one. */
  lemma SaveMovesBothOrNeither(s: System, draft: Document, valid: bool, choice: SaveChoice, encoded: Update, envelope: set<nat>,
                               reseed: Option<Update>, encoding: Encoding, actor: string)
    requires Inv(s) && s.stage.Taken?
    ensures var s' := Step(s, Save(draft, valid, choice, encoded, envelope, reseed, encoding, actor));
            var id := s.stage.base.musicId;
            if SaveTx(s, draft, valid, choice, encoded, envelope, reseed, encoding, actor).Err? then
              s'.tables == s.tables && s'.authority == s.authority && (s'.stage.Idle? || s'.stage.Leaving?)
            else
              && id in s.tables.documents && id in s'.tables.documents
              && AuthoritativeDocument(s'.authority, id).Ok?
              && var row, row' := s.tables.documents[id], s'.tables.documents[id];
                 var document := AuthoritativeDocument(s'.authority, id).value;
                 && row'.authority == Fingerprint(document) && row'.baseRevision == document.revision
                 && row'.epoch == row.epoch + (if row.baseRevision == 0 && choice.Writes? then 1 else 0)
                 && s'.tables.ledger == s.tables.ledger
                      + [LedgerRow(id, row.epoch, row.baseRevision, row'.baseRevision, row.authority, row'.authority, actor, choice.Writes?)]
                 && (choice.Same? ==> s'.authority == s.authority)
  {
    if SaveTx(s, draft, valid, choice, encoded, envelope, reseed, encoding, actor).Ok? {
      AuthorityIsPositive(s, s.stage.base.musicId);
    }
  }

  /** A finished checkpoint has taken its mark back, whatever way it ended. */
  lemma NothingStaysRetiring(catalog: set<int>, events: seq<Event>)
    requires AdmissibleRun(Start(catalog), events) && Run(Start(catalog), events).stage.Idle?
    ensures Run(Start(catalog), events).retiring == {}
  {
    RunKeepsInvariant(catalog, events);
  }

  predicate FrozenFor(s: System, room: RoomIdentity) {
    FrozenStage(s.stage) && RoomOf(s.stage.base) == room
  }

  lemma OnlyResidentRoomsHear(s: System, event: Event, room: RoomIdentity)
    requires room !in s.rooms
    ensures Heard(Step(s, event), room) == Heard(s, room)
  {
    if event.Evict? {
      FlushRoomKeepsHeard(s, event.room);
    } else if event.CloseRoom? && s.stage.Retiring? {
      FlushRoomKeepsHeard(s, RoomOf(s.stage.base));
    }
  }

  lemma {:induction false} FlushRoomKeepsHeard(s: System, room: RoomIdentity)
    ensures FlushRoom(s, room).heard == s.heard
    decreases if room in s.rooms then |s.rooms[room].pending| else 0
  {
    if CanFlush(s, room) {
      FlushRoomKeepsHeard(Flushed(s, room), room);
    }
  }

  /** While a first save holds its room frozen, nothing is written into it. */
  lemma FrozenRoomHearsNothing(s: System, event: Event, room: RoomIdentity)
    requires Inv(s) && Admissible(s, event) && FrozenFor(s, room)
    ensures Heard(Step(s, event), room) == Heard(s, room)
    ensures FrozenFor(Step(s, event), room) ==> room !in Step(s, event).rooms && room in Step(s, event).retiring
  {
    OnlyResidentRoomsHear(s, event, room);
    StepKeepsInvariant(s, event);
  }

  /** A first save is made from a document holding everything the old room's
      peers ever wrote; once it is written the room's epoch is over, so every
      later store into it is refused. */
  lemma FirstSaveMissesNothing(catalog: set<int>, before: seq<Event>, save: Event, after: seq<CollabHistory.Event>, update: Update)
    requires AdmissibleRun(Start(catalog), before) && save.Save? && save.choice.Writes?
    requires var s := Run(Start(catalog), before);
             && s.stage.Taken? && s.stage.base.baseRevision == 0
             && SaveTx(s, save.draft, save.valid, save.choice, save.encoded, save.envelope, save.reseed, save.encoding, save.actor).Ok?
             && CollabHistory.AdmissibleRun(CollabHistory.World(Step(s, save).tables, map[]), after)
    requires 0 < update.size <= MAX_UPDATE_BYTES
    ensures var s := Run(Start(catalog), before);
            var room := RoomOf(s.stage.base);
            && Heard(s, room) <= s.stage.document
            && room !in s.rooms
            && var t := CollabHistory.Run(CollabHistory.World(Step(s, save).tables, map[]), after).tables;
               StoreUpdate(t, Some(room), update) == Outcome(t, Err(RetiredRoom))
  {
    RunKeepsInvariant(catalog, before);
    var s := Run(Start(catalog), before);
    SaveMovesBothOrNeither(s, save.draft, save.valid, save.choice, save.encoded, save.envelope, save.reseed, save.encoding, save.actor);
    var w := CollabHistory.World(Step(s, save).tables, map[]);
    RetiredRoomStaysShut(w, after, RoomOf(s.stage.base), update, Malformed, s.stage.base, 0, s.stage.base.authority, "", false);
  }

  /** A checkpoint of a live room adds its document and envelope to what the
      room holds by the time of the commit; what peers wrote meanwhile stays. */
  lemma LaterSaveKeepsTheRoom(s: System, draft: Document, valid: bool, choice: SaveChoice, encoded: Update, envelope: set<nat>,
                              reseed: Option<Update>, encoding: Encoding, actor: string)
    requires Inv(s) && s.stage.Taken? && (s.stage.base.baseRevision != 0 || choice.Same?)
    requires SaveTx(s, draft, valid, choice, encoded, envelope, reseed, encoding, actor).Ok?
    ensures var s' := SaveTx(s, draft, valid, choice, encoded, envelope, reseed, encoding, actor).value;
            var id := s.stage.base.musicId;
            && id in s.tables.documents && id in s'.tables.documents
            && Contents(s'.tables, id) == Contents(s.tables, id) + s.stage.document + encoded.ops + envelope
            && s'.rooms == s.rooms
  {
    var p := s.stage;
    var current := AuthoritativeDocument(s.authority, p.base.musicId).value;
    var after := if choice.Writes? then choice.after else current;
    CommitAddsItsUpdate(s.tables, p.base, encoded.(ops := p.document + encoded.ops + envelope), after.revision,
                        Fingerprint(after), actor, choice.Writes?, encoding);
  }
}
