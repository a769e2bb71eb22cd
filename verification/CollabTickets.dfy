/** Issuing tickets and admitting connections (service.go) as the locked
    sections they are made of. The operation mutex is held over a whole issue,
    admission, checkpoint or replacement; the ticket map, the gate, the
    registries and the database each change in one section at a time; and a
    presented ticket is consumed before its request waits for the mutex. */
module CollabTickets {

  import Sets
  import opened Wrappers
  import opened RoomNames
  import opened EditorGate
  import opened CollabRegistries

  const MAX_TICKETS: nat := 1024
  const TICKET_TTL: int := 45

  datatype Claims = Claims(username: string, role: string, tokenVersion: int)

  datatype Grant = Grant(claims: Claims, bearer: string, musicId: int, epoch: int, room: string,
                         producer: Status, expiresAt: int)

  /** What IssueTicket knows when it takes the mutex. */
  datatype Draft = Draft(claims: Claims, bearer: string, musicId: int, producer: Status)

  datatype IssueStage = Begun | GateSeen | Drifted | Replaced | Cleared | RoomSeen(epoch: int)

  /** A request whose ticket was consumed and looked good. */
  datatype Request = Request(ticket: string, grant: Grant)

  datatype AdmitStage =
    | Locked | NotRetiring | BearerSeen | StatusSeen | SlotTaken(handle: nat) | RoomRead(handle: nat) | Refusing(handle: nat)

  /** Who holds the operation mutex, and how far it got. Maintaining is a
      checkpoint, a replacement or a retirement of all rooms; `frozen` is the
      room a first save retires meanwhile. */
  datatype Op =
    | Free
    | Issuing(draft: Draft, issue: IssueStage)
    | Admitting(request: Request, admit: AdmitStage)
    | Maintaining(frozen: Option<string>)

  /** `epochs` is the current epoch of every song with a collaboration row,
      `waiting` the consumed grants whose requests have yet to get the mutex.
      `drawn` are the random ticket values so far, `admitted` the tickets that
      led to a connection, `taken` the slots ever taken by an admission. */
  datatype System = System(
    tickets: map<string, Grant>,
    retiring: set<string>,
    registry: Registry,
    gate: Gate,
    epochs: map<int, int>,
    op: Op,
    waiting: map<string, Grant>,
    connections: seq<Connection>,
    drawn: set<string>,
    admitted: seq<string>,
    taken: set<nat>)

  /** ensureRoom: an error, authority drift, or the row, created when missing. */
  datatype Reading = Fails | Drifts | Reads

  datatype Event =
    | BeginIssue(claims: Claims, bearer: string, musicId: int, accepted: seq<Status>, verified: Option<Claims>)
    | IssueStep(reading: Reading, value: string, now: int)
    | Consume(values: seq<string>, wellFormed: bool, pathMusicId: Option<int>, now: int)
    | BeginAdmit(ticket: string)
    | AdmitStep(verified: Option<Claims>, reading: Reading)
    | BeginMaintenance
    | Freeze(room: string, musicId: int)
    | DropSong(musicId: int)
    | DropTickets
    | NewEpoch(musicId: int)
    | EndMaintenance
    | Fence(musicId: int)
    | Restore
    | Hangup(index: nat)
    | Forget(index: nat)
    | OnGate(event: EditorGate.Event)

  // ---- tickets ----

  function Unexpired(tickets: map<string, Grant>, now: int): map<string, Grant> {
    map t | t in tickets && tickets[t].expiresAt > now :: tickets[t]
  }

  function WithoutSong(tickets: map<string, Grant>, musicId: int): map<string, Grant> {
    map t | t in tickets && tickets[t].musicId != musicId :: tickets[t]
  }

  /** Every ticket value of the query is consumed, whatever else it contains. */
  function Consumed(tickets: map<string, Grant>, values: seq<string>): map<string, Grant> {
    map t | t in tickets && (t == "" || t !in values) :: tickets[t]
  }

  predicate Blank(c: char) {
    c == ' ' || c == '\t' || c == '\r' || c == '\n'
  }

  /** The request goes on to the mutex with the one ticket it named. */
  predicate Presentable(tickets: map<string, Grant>, values: seq<string>, wellFormed: bool, pathMusicId: Option<int>, now: int) {
    && wellFormed && |values| == 1 && values[0] != "" && values[0] in tickets
    && (forall i :: 0 <= i < |values[0]| ==> !Blank(values[0][i]))
    && tickets[values[0]].expiresAt > now
    && pathMusicId == Some(tickets[values[0]].musicId)
  }

  function ConsumeTickets(s: System, values: seq<string>, wellFormed: bool, pathMusicId: Option<int>, now: int): System {
    var consumed := s.(tickets := Consumed(s.tickets, values));
    if Presentable(s.tickets, values, wellFormed, pathMusicId, now)
    then consumed.(waiting := s.waiting[values[0] := s.tickets[values[0]]])
    else consumed
  }

  // ---- rows ----

  function EpochOf(epochs: map<int, int>, musicId: int): int {
    if musicId in epochs then epochs[musicId] else 1
  }

  function Ensured(s: System, musicId: int): System {
    s.(epochs := s.epochs[musicId := EpochOf(s.epochs, musicId)])
  }

  /** One song enters its next epoch; a song without a row enters its first. */
  function Advanced(s: System, musicId: int): System {
    s.(epochs := s.epochs[musicId := if musicId in s.epochs then s.epochs[musicId] + 1 else 1])
  }

  // ---- issuing ----

  function Unlocked(s: System): System {
    s.(op := Free)
  }

  function StartIssue(s: System, claims: Claims, bearer: string, musicId: int, accepted: seq<Status>, verified: Option<Claims>): System {
    if bearer == "" || musicId <= 0 || verified != Some(claims) || !s.op.Free? then s
    else if |accepted| != 1 || accepted[0].running then s
    else s.(op := Issuing(Draft(claims, bearer, musicId, accepted[0]), Begun))
  }

  function ReachIssue(s: System, stage: IssueStage): System
    requires s.op.Issuing?
  {
    s.(op := Issuing(s.op.draft, stage))
  }

  function GrantOf(draft: Draft, epoch: int, now: int): Grant {
    Grant(draft.claims, draft.bearer, draft.musicId, epoch, RoomName(draft.musicId, epoch), draft.producer, now + TICKET_TTL)
  }

  function InsertTicket(s: System, value: string, now: int): System
    requires s.op.Issuing? && s.op.issue.RoomSeen?
  {
    var tickets := Unexpired(s.tickets, now);
    if |tickets| >= MAX_TICKETS || value in s.drawn || value == "" then Unlocked(s.(tickets := tickets))
    else Unlocked(s.(tickets := tickets[value := GrantOf(s.op.draft, s.op.issue.epoch, now)], drawn := s.drawn + {value}))
  }

  /** The next locked section of IssueTicket. */
  function IssueNext(s: System, reading: Reading, value: string, now: int): System
    requires s.op.Issuing?
  {
    var draft := s.op.draft;
    match s.op.issue
    case Begun => if s.gate.status != draft.producer then Unlocked(s) else ReachIssue(s, GateSeen)
    case GateSeen =>
      if reading.Reads? then ReachIssue(Ensured(s, draft.musicId), RoomSeen(EpochOf(s.epochs, draft.musicId)))
      else if reading.Drifts? then ReachIssue(s, Drifted)
      else Unlocked(s)
    case Drifted => if reading.Reads? then ReachIssue(Advanced(s, draft.musicId), Replaced) else Unlocked(s)
    case Replaced => ReachIssue(s.(tickets := WithoutSong(s.tickets, draft.musicId)), Cleared)
    case Cleared =>
      if reading.Reads? then ReachIssue(Ensured(s, draft.musicId), RoomSeen(EpochOf(s.epochs, draft.musicId)))
      else Unlocked(s)
    case RoomSeen(_) => InsertTicket(s, value, now)
  }

  // ---- admitting ----

  function StartAdmit(s: System, ticket: string): System {
    if s.op.Free? && ticket in s.waiting
    then s.(op := Admitting(Request(ticket, s.waiting[ticket]), Locked), waiting := s.waiting - {ticket})
    else s
  }

  function ReachAdmit(s: System, stage: AdmitStage): System
    requires s.op.Admitting?
  {
    s.(op := Admitting(s.op.request, stage))
  }

  /** BeginStrictEditor and the comparison after it. A slot taken under another
      status than the ticket's would be nobody's. */
  function TakeSlot(s: System): System
    requires s.op.Admitting?
  {
    var p := s.op.request.grant.producer;
    if !StrictMatch(s.gate, p.instanceId, p.revision, p.completedGeneration) then Unlocked(s)
    else
      var admitted := s.(gate := Admitted(s.gate), taken := s.taken + {s.gate.issued});
      if s.gate.status != p then Unlocked(admitted) else ReachAdmit(admitted, SlotTaken(s.gate.issued))
  }

  /** ensureRoom once more, under the slot. */
  function ReadRoom(s: System, handle: nat, reading: Reading): System
    requires s.op.Admitting?
  {
    var grant := s.op.request.grant;
    if !reading.Reads? then ReachAdmit(s, Refusing(handle))
    else
      var epoch := EpochOf(s.epochs, grant.musicId);
      ReachAdmit(Ensured(s, grant.musicId),
                 if epoch == grant.epoch && RoomName(grant.musicId, epoch) == grant.room then RoomRead(handle) else Refusing(handle))
  }

  function ConnectionOf(grant: Grant, handle: nat): Connection {
    Connection(grant.musicId, grant.epoch, grant.room, grant.claims.username, handle, true)
  }

  /** The capture is filled in, the connection counted and the mutex released. */
  function TrackRequest(s: System, handle: nat): System
    requires s.op.Admitting?
  {
    var request := s.op.request;
    Unlocked(s.(registry := Track(s.registry, request.grant.room, request.grant.claims.username),
                connections := s.connections + [ConnectionOf(request.grant, handle)],
                admitted := s.admitted + [request.ticket]))
  }

  /** The next locked section of authorize. */
  function AdmitNext(s: System, verified: Option<Claims>, reading: Reading): System
    requires s.op.Admitting?
  {
    var grant := s.op.request.grant;
    match s.op.admit
    case Locked => if grant.room in s.retiring then Unlocked(s) else ReachAdmit(s, NotRetiring)
    case NotRetiring => if verified != Some(grant.claims) then Unlocked(s) else ReachAdmit(s, BearerSeen)
    case BearerSeen => if s.gate.status != grant.producer then Unlocked(s) else ReachAdmit(s, StatusSeen)
    case StatusSeen => TakeSlot(s)
    case SlotTaken(h) => ReadRoom(s, h, reading)
    case RoomRead(h) => TrackRequest(s, h)
    case Refusing(h) => Unlocked(s.(gate := Step(s.gate, ReleaseEditor(h))))
  }

  // ---- connections ----

  /** The request's release closure runs when its connection is over. */
  function HangUp(s: System, index: nat): System
    requires index < |s.connections|
  {
    var c := s.connections[index];
    if c.open then s.(gate := Step(s.gate, ReleaseEditor(c.handle)), connections := s.connections[index := c.(open := false)])
    else s
  }

  /** Then it is taken out of the registries. */
  function ForgetConnection(s: System, index: nat): System
    requires index < |s.connections|
  {
    var c := s.connections[index];
    if c.open then s
    else s.(registry := Untrack(s.registry, c.room, c.username), connections := s.connections[..index] + s.connections[index + 1..])
  }

  /** The slot the admission under way has taken. */
  function OpSlot(op: Op): Option<nat> {
    if op.Admitting? && (op.admit.SlotTaken? || op.admit.RoomRead? || op.admit.Refusing?) then Some(op.admit.handle) else None
  }

  /** The closure of this slot belongs to a request that has not run it. */
  predicate Owned(connections: seq<Connection>, slot: Option<nat>, handle: nat) {
    || slot == Some(handle)
    || exists i :: 0 <= i < |connections| && connections[i].open && connections[i].handle == handle
  }

  // ---- maintenance ----

  function Maintain(s: System, event: Event): System
    requires s.op.Maintaining?
  {
    match event
    case Freeze(room, id) =>
      if s.op.frozen.Some? then s
      else s.(op := Maintaining(Some(room)), retiring := s.retiring + {room}, tickets := WithoutSong(s.tickets, id))
    case DropSong(id) => s.(tickets := WithoutSong(s.tickets, id))
    case DropTickets => s.(tickets := map[])
    case NewEpoch(id) => Advanced(s, id)
    case EndMaintenance => Unlocked(if s.op.frozen.Some? then s.(retiring := s.retiring - {s.op.frozen.value}) else s)
    case _ => s
  }

  /** The next locked section of the mutex's holder. A step that is not the
      holder's does nothing: the mutex keeps it out. */
  function Hold(s: System, event: Event): System {
    match s.op
    case Free => s
    case Issuing(_, _) => if event.IssueStep? then IssueNext(s, event.reading, event.value, event.now) else s
    case Admitting(_, _) => if event.AdmitStep? then AdmitNext(s, event.verified, event.reading) else s
    case Maintaining(_) => Maintain(s, event)
  }

  /** Callers that arrive: at the mutex, or with a ticket that is consumed before it. */
  function Arrive(s: System, event: Event): System {
    match event
    case BeginIssue(c, b, id, a, v) => StartIssue(s, c, b, id, a, v)
    case Consume(values, w, path, now) => ConsumeTickets(s, values, w, path, now)
    case BeginAdmit(ticket) => StartAdmit(s, ticket)
    case BeginMaintenance => if s.op.Free? then s.(op := Maintaining(None)) else s
    case _ => s
  }

  /** What does not take the mutex: a document's fence, a restore, which is a
      producer job, the ends of connections, and the gate's other callers. A
      request's release closure is run by that request only. */
  function Elsewhere(s: System, event: Event): System {
    match event
    case Fence(id) => if id in s.epochs then Advanced(s, id) else s
    case Restore => if s.gate.producer.Holding? then s.(epochs := map id | id in s.epochs :: s.epochs[id] + 1) else s
    case Hangup(i) => if i < |s.connections| then HangUp(s, i) else s
    case Forget(i) => if i < |s.connections| then ForgetConnection(s, i) else s
    case OnGate(e) =>
      if e.ReleaseEditor? && Owned(s.connections, OpSlot(s.op), e.handle) then s else s.(gate := Step(s.gate, e))
    case _ => s
  }

  datatype Kind = Arriving | Held | Outside

  function KindOf(event: Event): Kind {
    match event
    case BeginIssue(_, _, _, _, _) | Consume(_, _, _, _) | BeginAdmit(_) | BeginMaintenance => Arriving
    case Fence(_) | Restore | Hangup(_) | Forget(_) | OnGate(_) => Outside
    case _ => Held
  }

  function Next(s: System, event: Event): System {
    match KindOf(event)
    case Arriving => Arrive(s, event)
    case Held => Hold(s, event)
    case Outside => Elsewhere(s, event)
  }

  function Run(s: System, events: seq<Event>): System {
    if events == [] then s else Next(Run(s, events[..|events| - 1]), events[|events| - 1])
  }

  function Initial(instanceId: string): System {
    System(map[], {}, Registry(map[], map[]), New(instanceId), map[], Free, map[], [], {}, [], {})
  }

  lemma RunSnoc(s: System, events: seq<Event>, event: Event)
    ensures Run(s, events + [event]) == Next(Run(s, events), event)
  {
    assert (events + [event])[..|events|] == events;
  }

  lemma {:induction false} RunConcat(s: System, a: seq<Event>, b: seq<Event>)
    ensures Run(s, a + b) == Run(Run(s, a), b)
  {
    if b == [] {
      assert a + b == a;
    } else {
      assert (a + b)[..|a + b| - 1] == a + b[..|b| - 1];
      RunConcat(s, a, b[..|b| - 1]);
    }
  }

  // ---- the invariant ----

  function OpTicket(op: Op): set<string> {
    if op.Admitting? then {op.request.ticket} else {}
  }

  /** A drawn ticket value is in one place only. */
  ghost predicate TicketInv(issued: set<string>, waiting: set<string>, admitting: set<string>, drawn: set<string>, admitted: seq<string>) {
    && (forall t :: t in issued ==> t in drawn && t !in waiting && t !in admitting && t !in admitted)
    && (forall t :: t in waiting ==> t in drawn && t !in admitting && t !in admitted)
    && (forall t :: t in admitting ==> t in drawn && t !in admitted)
    && (forall t :: t in admitted ==> t in drawn)
    && (forall i, j :: 0 <= i < j < |admitted| ==> admitted[i] != admitted[j])
    && |issued| <= MAX_TICKETS
  }

  /** Every request has a slot of its own, and every slot an admission took and
      did not give back has a request. */
  ghost predicate SlotInv(held: set<nat>, issued: nat, taken: set<nat>, connections: seq<Connection>, slot: Option<nat>) {
    && (forall i :: 0 <= i < |connections| ==> connections[i].handle in taken && slot != Some(connections[i].handle))
    && (forall i :: 0 <= i < |connections| && connections[i].open ==> connections[i].handle in held)
    && (forall i, j :: 0 <= i < j < |connections| ==> connections[i].handle != connections[j].handle)
    && (slot.Some? ==> slot.value in taken && slot.value in held)
    && (forall h :: h in taken ==> h < issued)
    && (forall h :: h in taken && h in held ==> Owned(connections, slot, h))
  }

  /** Grants name rooms of epochs their songs have had. */
  predicate RowInv(epochs: map<int, int>, grant: Grant) {
    && grant.musicId > 0 && grant.room == RoomName(grant.musicId, grant.epoch)
    && grant.musicId in epochs && 1 <= grant.epoch <= epochs[grant.musicId]
  }

  ghost predicate RowsInv(epochs: map<int, int>, grants: map<string, Grant>) {
    forall t :: t in grants ==> RowInv(epochs, grants[t])
  }

  predicate OpRowInv(epochs: map<int, int>, op: Op) {
    && (op.Admitting? ==> RowInv(epochs, op.request.grant))
    && (op.Issuing? ==> op.draft.musicId > 0)
    && (op.Issuing? && op.issue.RoomSeen? ==> op.draft.musicId in epochs && 1 <= op.issue.epoch <= epochs[op.draft.musicId])
  }

  predicate SeatInv(epochs: map<int, int>, c: Connection) {
    c.musicId > 0 && c.room == RoomName(c.musicId, c.epoch) && c.musicId in epochs && 1 <= c.epoch <= epochs[c.musicId]
  }

  ghost predicate SeatsInv(epochs: map<int, int>, connections: seq<Connection>) {
    forall i :: 0 <= i < |connections| ==> SeatInv(epochs, connections[i])
  }

  ghost predicate EpochsInv(epochs: map<int, int>) {
    forall id :: id in epochs ==> epochs[id] >= 1
  }

  /** A status the gate has had, when it now has `current`. */
  predicate Had(current: Status, status: Status) {
    status.revision <= current.revision && (status.revision == current.revision ==> status == current)
  }

  ghost predicate HadAll(current: Status, grants: map<string, Grant>) {
    forall t :: t in grants ==> Had(current, grants[t].producer)
  }

  predicate OpHad(current: Status, op: Op) {
    && (op.Admitting? ==> Had(current, op.request.grant.producer))
    && (op.Issuing? && !op.issue.Begun? ==> Had(current, op.draft.producer))
  }

  /** A room is retiring only while the save that froze it holds the mutex. */
  predicate RetiringInv(retiring: set<string>, op: Op) {
    retiring == if op.Maintaining? && op.frozen.Some? then {op.frozen.value} else {}
  }

  ghost predicate GrantsInv(epochs: map<int, int>, current: Status, grants: map<string, Grant>) {
    RowsInv(epochs, grants) && HadAll(current, grants)
  }

  ghost predicate OpInv(epochs: map<int, int>, current: Status, retiring: set<string>, op: Op) {
    OpRowInv(epochs, op) && OpHad(current, op) && RetiringInv(retiring, op)
  }

  ghost predicate Inv(s: System) {
    && TicketInv(s.tickets.Keys, s.waiting.Keys, OpTicket(s.op), s.drawn, s.admitted)
    && EditorGate.Inv(s.gate) && SlotInv(s.gate.held, s.gate.issued, s.taken, s.connections, OpSlot(s.op))
    && EpochsInv(s.epochs) && SeatsInv(s.epochs, s.connections)
    && GrantsInv(s.epochs, s.gate.status, s.tickets) && GrantsInv(s.epochs, s.gate.status, s.waiting)
    && OpInv(s.epochs, s.gate.status, s.retiring, s.op)
    && Counted(s.registry, s.connections)
  }

  // ---- tickets ----

  /** Sub-maps of a good map are good. */
  lemma FewerGrants(epochs: map<int, int>, current: Status, grants: map<string, Grant>, fewer: map<string, Grant>)
    requires GrantsInv(epochs, current, grants)
    requires forall t :: t in fewer ==> t in grants && fewer[t] == grants[t]
    ensures GrantsInv(epochs, current, fewer)
  {}

  lemma OneGrantMore(epochs: map<int, int>, current: Status, grants: map<string, Grant>, ticket: string, grant: Grant)
    requires GrantsInv(epochs, current, grants) && RowInv(epochs, grant) && Had(current, grant.producer)
    ensures GrantsInv(epochs, current, grants[ticket := grant])
  {}

  lemma FewerTickets(issued: set<string>, waiting: set<string>, admitting: set<string>, drawn: set<string>, admitted: seq<string>,
                     fewer: set<string>)
    requires TicketInv(issued, waiting, admitting, drawn, admitted) && fewer <= issued
    ensures TicketInv(fewer, waiting, admitting, drawn, admitted)
  {
    Sets.SubsetSize(fewer, issued);
  }

  /** Dropping tickets, and nothing else. */
  lemma DroppingKeepsInv(s: System, tickets: map<string, Grant>)
    requires Inv(s) && tickets.Keys <= s.tickets.Keys
    requires forall t :: t in tickets ==> t in s.tickets && tickets[t] == s.tickets[t]
    ensures Inv(s.(tickets := tickets))
  {
    FewerGrants(s.epochs, s.gate.status, s.tickets, tickets);
    FewerTickets(s.tickets.Keys, s.waiting.Keys, OpTicket(s.op), s.drawn, s.admitted, tickets.Keys);
  }

  // ---- epochs ----

  ghost predicate Later(epochs: map<int, int>, later: map<int, int>) {
    && (forall id :: id in epochs ==> id in later && later[id] >= epochs[id])
    && (forall id :: id in later ==> later[id] >= 1)
  }

  lemma LaterGrants(epochs: map<int, int>, later: map<int, int>, current: Status, grants: map<string, Grant>)
    requires Later(epochs, later) && GrantsInv(epochs, current, grants)
    ensures GrantsInv(later, current, grants)
  {
    forall t | t in grants ensures RowInv(later, grants[t]) {
      assert RowInv(epochs, grants[t]);
    }
  }

  lemma LaterSeats(epochs: map<int, int>, later: map<int, int>, connections: seq<Connection>)
    requires Later(epochs, later) && SeatsInv(epochs, connections)
    ensures SeatsInv(later, connections)
  {
    forall i | 0 <= i < |connections| ensures SeatInv(later, connections[i]) {
      assert SeatInv(epochs, connections[i]);
    }
  }

  lemma AdvancingKeepsInv(s: System, later: map<int, int>)
    requires Inv(s) && Later(s.epochs, later)
    ensures Inv(s.(epochs := later))
  {
    LaterGrants(s.epochs, later, s.gate.status, s.tickets);
    LaterGrants(s.epochs, later, s.gate.status, s.waiting);
    LaterSeats(s.epochs, later, s.connections);
  }

  lemma EnsuredIsLater(s: System, id: int)
    requires EpochsInv(s.epochs)
    ensures Later(s.epochs, Ensured(s, id).epochs) && Later(s.epochs, Advanced(s, id).epochs)
  {}

  // ---- the gate ----

  lemma HadStays(before: Status, after: Status, grants: map<string, Grant>)
    requires HadAll(before, grants)
    requires after == before || after.revision > before.revision
    ensures HadAll(after, grants)
  {
    forall t | t in grants ensures Had(after, grants[t].producer) {
      assert Had(before, grants[t].producer);
    }
  }

  /** The gate moves, its status to a later one, and the requests keep their slots. */
  lemma GateKeepsInv(s: System, gate: Gate)
    requires Inv(s) && EditorGate.Inv(gate)
    requires gate.status == s.gate.status || gate.status.revision > s.gate.status.revision
    requires SlotInv(gate.held, gate.issued, s.taken, s.connections, OpSlot(s.op))
    ensures Inv(s.(gate := gate))
  {
    HadStays(s.gate.status, gate.status, s.tickets);
    HadStays(s.gate.status, gate.status, s.waiting);
  }

  lemma ReleasedOnly(g: Gate, handle: nat)
    requires EditorGate.Inv(g) && handle in g.held
    ensures var g' := Step(g, ReleaseEditor(handle));
            && EditorGate.Inv(g') && g'.held == g.held - {handle} && g'.editors == g.editors - 1
            && g'.status == g.status && g'.issued == g.issued
  {
    EditorGate.StepKeepsInvariant(g, ReleaseEditor(handle));
    assert |g.held| > 0;
  }

  lemma HeldMoves(g: Gate, e: EditorGate.Event)
    ensures var g' := Step(g, e);
            && g'.issued >= g.issued
            && (forall h :: h in g'.held ==> h in g.held || h >= g.issued)
            && (forall h :: h in g.held && (!e.ReleaseEditor? || e.handle != h) ==> h in g'.held)
  {}

  lemma SlotsSurvive(held: set<nat>, issued: nat, held': set<nat>, issued': nat, taken: set<nat>, connections: seq<Connection>, slot: Option<nat>)
    requires SlotInv(held, issued, taken, connections, slot) && issued' >= issued
    requires forall h :: h in held' ==> h in held || h >= issued
    requires forall h :: h in held && Owned(connections, slot, h) ==> h in held'
    ensures SlotInv(held', issued', taken, connections, slot)
  {
    forall i | 0 <= i < |connections| && connections[i].open ensures connections[i].handle in held' {
      assert Owned(connections, slot, connections[i].handle);
    }
    if slot.Some? {
      assert Owned(connections, slot, slot.value);
    }
  }

  lemma OnGateKeepsInv(s: System, e: EditorGate.Event)
    requires Inv(s) && !(e.ReleaseEditor? && Owned(s.connections, OpSlot(s.op), e.handle))
    ensures Inv(s.(gate := Step(s.gate, e)))
  {
    var gate := Step(s.gate, e);
    EditorGate.StepKeepsInvariant(s.gate, e);
    StatusMovesWithItsRevision(s.gate, e);
    HeldMoves(s.gate, e);
    SlotsSurvive(s.gate.held, s.gate.issued, gate.held, gate.issued, s.taken, s.connections, OpSlot(s.op));
    GateKeepsInv(s, gate);
  }

  // ---- slots ----

  lemma SlotAdded(held: set<nat>, issued: nat, taken: set<nat>, connections: seq<Connection>)
    requires SlotInv(held, issued, taken, connections, None)
    ensures SlotInv(held + {issued}, issued + 1, taken + {issued}, connections, Some(issued))
  {
    forall h | h in taken + {issued} && h in held + {issued} ensures Owned(connections, Some(issued), h) {
      if h != issued {
        assert Owned(connections, None, h);
      }
    }
  }

  lemma SlotGivenBack(held: set<nat>, issued: nat, taken: set<nat>, connections: seq<Connection>, slot: nat)
    requires SlotInv(held, issued, taken, connections, Some(slot))
    ensures SlotInv(held - {slot}, issued, taken, connections, None)
  {
    forall h | h in taken && h in held - {slot} ensures Owned(connections, None, h) {
      assert Owned(connections, Some(slot), h);
    }
  }

  lemma SlotSeated(held: set<nat>, issued: nat, taken: set<nat>, connections: seq<Connection>, c: Connection)
    requires SlotInv(held, issued, taken, connections, Some(c.handle)) && c.open
    ensures SlotInv(held, issued, taken, connections + [c], None)
  {
    var more := connections + [c];
    forall h | h in taken && h in held ensures Owned(more, None, h) {
      assert Owned(connections, Some(c.handle), h);
      if h == c.handle {
        assert more[|connections|] == c;
      } else {
        var i :| 0 <= i < |connections| && connections[i].open && connections[i].handle == h;
        assert more[i] == connections[i];
      }
    }
  }

  lemma SlotClosed(held: set<nat>, issued: nat, taken: set<nat>, connections: seq<Connection>, slot: Option<nat>, index: nat)
    requires SlotInv(held, issued, taken, connections, slot) && index < |connections|
    ensures SlotInv(held - {connections[index].handle}, issued, taken, connections[index := connections[index].(open := false)], slot)
  {
    var closed := connections[index := connections[index].(open := false)];
    forall h | h in taken && h in held - {connections[index].handle} ensures Owned(closed, slot, h) {
      assert Owned(connections, slot, h);
      if slot != Some(h) {
        var i :| 0 <= i < |connections| && connections[i].open && connections[i].handle == h;
        assert closed[i] == connections[i];
      }
    }
  }

  lemma SlotForgotten(held: set<nat>, issued: nat, taken: set<nat>, connections: seq<Connection>, slot: Option<nat>, index: nat)
    requires SlotInv(held, issued, taken, connections, slot) && index < |connections| && !connections[index].open
    ensures SlotInv(held, issued, taken, connections[..index] + connections[index + 1..], slot)
  {
    var rest := connections[..index] + connections[index + 1..];
    assert forall i :: 0 <= i < |rest| ==> rest[i] == connections[if i < index then i else i + 1];
    forall h | h in taken && h in held ensures Owned(rest, slot, h) {
      assert Owned(connections, slot, h);
      if slot != Some(h) {
        var i :| 0 <= i < |connections| && connections[i].open && connections[i].handle == h;
        assert rest[if i < index then i else i - 1] == connections[i];
      }
    }
  }

  // ---- every step keeps the invariant ----

  /** The mutex changes hands or its holder goes on; the rest stays. */
  lemma OpKeepsInv(s: System, op: Op)
    requires Inv(s) && OpSlot(op) == OpSlot(s.op) && OpTicket(op) == OpTicket(s.op)
    requires OpInv(s.epochs, s.gate.status, s.retiring, op)
    ensures Inv(s.(op := op))
  {}

  lemma TicketDone(issued: set<string>, waiting: set<string>, admitting: set<string>, drawn: set<string>, admitted: seq<string>)
    requires TicketInv(issued, waiting, admitting, drawn, admitted)
    ensures TicketInv(issued, waiting, {}, drawn, admitted)
  {}

  /** The holder gives the mutex up, with no slot and no room frozen. */
  lemma UnlockKeepsInv(s: System)
    requires Inv(s) && OpSlot(s.op).None? && s.retiring == {}
    ensures Inv(Unlocked(s))
  {
    TicketDone(s.tickets.Keys, s.waiting.Keys, OpTicket(s.op), s.drawn, s.admitted);
  }

  lemma TicketInserted(issued: set<string>, waiting: set<string>, drawn: set<string>, admitted: seq<string>, value: string)
    requires TicketInv(issued, waiting, {}, drawn, admitted) && value !in drawn && |issued| < MAX_TICKETS
    ensures TicketInv(issued + {value}, waiting, {}, drawn + {value}, admitted)
  {}

  lemma NewTicketKeepsInv(s: System, value: string, grant: Grant)
    requires Inv(s) && OpTicket(s.op) == {} && |s.tickets| < MAX_TICKETS && value !in s.drawn
    requires RowInv(s.epochs, grant) && Had(s.gate.status, grant.producer)
    ensures Inv(s.(tickets := s.tickets[value := grant], drawn := s.drawn + {value}))
  {
    OneGrantMore(s.epochs, s.gate.status, s.tickets, value, grant);
    TicketInserted(s.tickets.Keys, s.waiting.Keys, s.drawn, s.admitted, value);
    assert s.tickets[value := grant].Keys == s.tickets.Keys + {value};
  }

  lemma InsertKeepsInv(s: System, value: string, now: int)
    requires Inv(s) && s.op.Issuing? && s.op.issue.RoomSeen?
    ensures Inv(InsertTicket(s, value, now))
  {
    var pruned := s.(tickets := Unexpired(s.tickets, now));
    DroppingKeepsInv(s, pruned.tickets);
    UnlockKeepsInv(pruned);
    if InsertTicket(s, value, now) != Unlocked(pruned) {
      NewTicketKeepsInv(Unlocked(pruned), value, GrantOf(s.op.draft, s.op.issue.epoch, now));
    }
  }

  lemma IssueKeepsInv(s: System, reading: Reading, value: string, now: int)
    requires Inv(s) && s.op.Issuing?
    ensures Inv(IssueNext(s, reading, value, now))
  {
    UnlockKeepsInv(s);
    match s.op.issue
    case Begun =>
      if s.gate.status == s.op.draft.producer {
        OpKeepsInv(s, Issuing(s.op.draft, GateSeen));
      }
    case GateSeen =>
      RowSeenKeepsInv(s);
      OpKeepsInv(s, Issuing(s.op.draft, Drifted));
    case Drifted => ReplacedKeepsInv(s);
    case Replaced => ClearedKeepsInv(s);
    case Cleared => RowSeenKeepsInv(s);
    case RoomSeen(_) => InsertKeepsInv(s, value, now);
  }

  lemma ReplacedKeepsInv(s: System)
    requires Inv(s) && s.op.Issuing? && s.op.issue.Drifted?
    ensures Inv(ReachIssue(Advanced(s, s.op.draft.musicId), Replaced))
  {
    var id := s.op.draft.musicId;
    EnsuredIsLater(s, id);
    AdvancingKeepsInv(s, Advanced(s, id).epochs);
    OpKeepsInv(Advanced(s, id), Issuing(s.op.draft, Replaced));
  }

  lemma ClearedKeepsInv(s: System)
    requires Inv(s) && s.op.Issuing? && s.op.issue.Replaced?
    ensures Inv(ReachIssue(s.(tickets := WithoutSong(s.tickets, s.op.draft.musicId)), Cleared))
  {
    var dropped := s.(tickets := WithoutSong(s.tickets, s.op.draft.musicId));
    DroppingKeepsInv(s, dropped.tickets);
    OpKeepsInv(dropped, Issuing(s.op.draft, Cleared));
  }

  lemma RowSeenKeepsInv(s: System)
    requires Inv(s) && s.op.Issuing? && (s.op.issue.GateSeen? || s.op.issue.Cleared?)
    ensures Inv(ReachIssue(Ensured(s, s.op.draft.musicId), RoomSeen(EpochOf(s.epochs, s.op.draft.musicId))))
  {
    EnsuredIsLater(s, s.op.draft.musicId);
    AdvancingKeepsInv(s, Ensured(s, s.op.draft.musicId).epochs);
  }

  lemma TicketWaits(issued: set<string>, fewer: set<string>, waiting: set<string>, admitting: set<string>, drawn: set<string>,
                    admitted: seq<string>, ticket: string)
    requires TicketInv(issued, waiting, admitting, drawn, admitted) && ticket in issued && fewer <= issued - {ticket}
    ensures TicketInv(fewer, waiting + {ticket}, admitting, drawn, admitted)
  {
    Sets.SubsetSize(fewer, issued);
  }

  lemma WaitersAreGood(s: System, fewer: map<string, Grant>, ticket: string)
    requires Inv(s) && ticket in s.tickets && fewer.Keys <= s.tickets.Keys - {ticket}
    ensures var waiting := s.waiting[ticket := s.tickets[ticket]];
            TicketInv(fewer.Keys, waiting.Keys, OpTicket(s.op), s.drawn, s.admitted) && GrantsInv(s.epochs, s.gate.status, waiting)
  {
    var grant := s.tickets[ticket];
    TicketWaits(s.tickets.Keys, fewer.Keys, s.waiting.Keys, OpTicket(s.op), s.drawn, s.admitted, ticket);
    OneGrantMore(s.epochs, s.gate.status, s.waiting, ticket, grant);
    assert s.waiting[ticket := grant].Keys == s.waiting.Keys + {ticket};
  }

  lemma WaitersChange(s: System, waiting: map<string, Grant>)
    requires Inv(s) && TicketInv(s.tickets.Keys, waiting.Keys, OpTicket(s.op), s.drawn, s.admitted)
    requires GrantsInv(s.epochs, s.gate.status, waiting)
    ensures Inv(s.(waiting := waiting))
  {}

  lemma ConsumeKeepsInv(s: System, values: seq<string>, wellFormed: bool, pathMusicId: Option<int>, now: int)
    requires Inv(s)
    ensures Inv(ConsumeTickets(s, values, wellFormed, pathMusicId, now))
  {
    var fewer := Consumed(s.tickets, values);
    DroppingKeepsInv(s, fewer);
    if Presentable(s.tickets, values, wellFormed, pathMusicId, now) {
      assert values[0] in values && values[0] !in fewer;
      WaitersAreGood(s, fewer, values[0]);
      WaitersChange(s.(tickets := fewer), s.waiting[values[0] := s.tickets[values[0]]]);
    }
  }

  lemma TicketTaken(issued: set<string>, waiting: set<string>, drawn: set<string>, admitted: seq<string>, ticket: string)
    requires TicketInv(issued, waiting, {}, drawn, admitted) && ticket in waiting
    ensures TicketInv(issued, waiting - {ticket}, {ticket}, drawn, admitted)
  {}

  lemma StartAdmitKeepsInv(s: System, ticket: string)
    requires Inv(s)
    ensures Inv(StartAdmit(s, ticket))
  {
    if s.op.Free? && ticket in s.waiting {
      TicketTaken(s.tickets.Keys, s.waiting.Keys, s.drawn, s.admitted, ticket);
      FewerGrants(s.epochs, s.gate.status, s.waiting, s.waiting - {ticket});
      assert (s.waiting - {ticket}).Keys == s.waiting.Keys - {ticket};
      assert RowInv(s.epochs, s.waiting[ticket]) && Had(s.gate.status, s.waiting[ticket].producer);
    }
  }

  /** A status the gate has had matches strictly only when it is the gate's
      still, so no slot is taken for nobody. */
  lemma StrictMatchIsSame(s: System)
    requires Inv(s) && s.op.Admitting?
    ensures var p := s.op.request.grant.producer;
            StrictMatch(s.gate, p.instanceId, p.revision, p.completedGeneration) ==> s.gate.status == p
  {}

  lemma AdmittedKeepsInv(g: Gate)
    requires EditorGate.Inv(g) && !g.status.running
    ensures EditorGate.Inv(Admitted(g))
  {
    EditorGate.StepKeepsInvariant(g, BeginEditor(false));
  }

  lemma TakeSlotKeepsInv(s: System)
    requires Inv(s) && s.op.Admitting? && s.op.admit.StatusSeen?
    ensures Inv(TakeSlot(s))
  {
    if TakeSlot(s) == Unlocked(s) {
      UnlockKeepsInv(s);
    } else {
      StrictMatchIsSame(s);
      SlotTakenKeepsInv(s);
    }
  }

  lemma SlotTakenKeepsInv(s: System)
    requires Inv(s) && s.op.Admitting? && s.op.admit.StatusSeen? && !s.gate.status.running
    ensures Inv(s.(gate := Admitted(s.gate), taken := s.taken + {s.gate.issued}, op := Admitting(s.op.request, SlotTaken(s.gate.issued))))
  {
    AdmittedKeepsInv(s.gate);
    SlotAdded(s.gate.held, s.gate.issued, s.taken, s.connections);
  }

  lemma TicketAdmitted(issued: set<string>, waiting: set<string>, drawn: set<string>, admitted: seq<string>, ticket: string)
    requires TicketInv(issued, waiting, {ticket}, drawn, admitted)
    ensures TicketInv(issued, waiting, {}, drawn, admitted + [ticket])
  {
    assert ticket in {ticket};
  }

  lemma TrackKeepsInv(s: System, handle: nat)
    requires Inv(s) && s.op.Admitting? && s.op.admit == RoomRead(handle)
    ensures Inv(TrackRequest(s, handle))
  {
    var request := s.op.request;
    var c := ConnectionOf(request.grant, handle);
    TicketAdmitted(s.tickets.Keys, s.waiting.Keys, s.drawn, s.admitted, request.ticket);
    SlotSeated(s.gate.held, s.gate.issued, s.taken, s.connections, c);
    TrackKeepsCounted(s.registry, s.connections, c);
    assert SeatInv(s.epochs, c);
  }

  lemma RefuseKeepsInv(s: System, handle: nat)
    requires Inv(s) && s.op.Admitting? && s.op.admit == Refusing(handle)
    ensures Inv(Unlocked(s.(gate := Step(s.gate, ReleaseEditor(handle)))))
  {
    ReleasedOnly(s.gate, handle);
    SlotGivenBack(s.gate.held, s.gate.issued, s.taken, s.connections, handle);
    TicketDone(s.tickets.Keys, s.waiting.Keys, OpTicket(s.op), s.drawn, s.admitted);
  }

  lemma ReadRoomKeepsInv(s: System, handle: nat, reading: Reading)
    requires Inv(s) && s.op.Admitting? && s.op.admit == SlotTaken(handle)
    ensures Inv(ReadRoom(s, handle, reading))
  {
    var id := s.op.request.grant.musicId;
    EnsuredIsLater(s, id);
    AdvancingKeepsInv(s, Ensured(s, id).epochs);
    OpKeepsInv(Ensured(s, id), ReadRoom(s, handle, reading).op);
    OpKeepsInv(s, Admitting(s.op.request, Refusing(handle)));
  }

  /** A check passes, or the request is refused. */
  lemma CheckKeepsInv(s: System, passed: bool, stage: AdmitStage)
    requires Inv(s) && s.op.Admitting? && OpSlot(s.op).None? && OpSlot(Admitting(s.op.request, stage)).None?
    ensures Inv(if passed then ReachAdmit(s, stage) else Unlocked(s))
  {
    if passed {
      OpKeepsInv(s, Admitting(s.op.request, stage));
    } else {
      UnlockKeepsInv(s);
    }
  }

  lemma AdmitKeepsInv(s: System, verified: Option<Claims>, reading: Reading)
    requires Inv(s) && s.op.Admitting?
    ensures Inv(AdmitNext(s, verified, reading))
  {
    match s.op.admit
    case StatusSeen => TakeSlotKeepsInv(s);
    case SlotTaken(h) => ReadRoomKeepsInv(s, h, reading);
    case RoomRead(h) => TrackKeepsInv(s, h);
    case Refusing(h) => RefuseKeepsInv(s, h);
    case Locked => CheckKeepsInv(s, s.op.request.grant.room !in s.retiring, NotRetiring);
    case NotRetiring => CheckKeepsInv(s, verified == Some(s.op.request.grant.claims), BearerSeen);
    case BearerSeen => CheckKeepsInv(s, s.gate.status == s.op.request.grant.producer, StatusSeen);
  }

  lemma ClosedCounted(registry: Registry, connections: seq<Connection>, index: nat)
    requires Counted(registry, connections) && index < |connections|
    ensures Counted(registry, connections[index := connections[index].(open := false)])
  {
    var closed := connections[index := connections[index].(open := false)];
    forall u, room ensures OfUser(closed, u, room) == OfUser(connections, u, room) {
      ClosingKeepsCounts(connections, index, u, room);
    }
    forall room ensures InRoom(closed, room) == InRoom(connections, room) {
      ClosingKeepsCounts(connections, index, "", room);
    }
  }

  lemma HangUpKeepsInv(s: System, index: nat)
    requires Inv(s) && index < |s.connections|
    ensures Inv(HangUp(s, index))
  {
    var c := s.connections[index];
    if c.open {
      ReleasedOnly(s.gate, c.handle);
      ClosedCounted(s.registry, s.connections, index);
      SlotClosed(s.gate.held, s.gate.issued, s.taken, s.connections, OpSlot(s.op), index);
      assert SeatInv(s.epochs, c);
    }
  }

  lemma ForgetKeepsInv(s: System, index: nat)
    requires Inv(s) && index < |s.connections|
    ensures Inv(ForgetConnection(s, index))
  {
    if !s.connections[index].open {
      UntrackKeepsCounted(s.registry, s.connections, index);
      SlotForgotten(s.gate.held, s.gate.issued, s.taken, s.connections, OpSlot(s.op), index);
    }
  }

  lemma FrozenKeepsInv(s: System, room: string)
    requires Inv(s) && s.op == Maintaining(None)
    ensures Inv(s.(op := Maintaining(Some(room)), retiring := s.retiring + {room}))
  {}

  lemma FreezeKeepsInv(s: System, room: string, id: int)
    requires Inv(s) && s.op.Maintaining?
    ensures Inv(Maintain(s, Freeze(room, id)))
  {
    if s.op.frozen.None? {
      var dropped := s.(tickets := WithoutSong(s.tickets, id));
      DroppingKeepsInv(s, dropped.tickets);
      FrozenKeepsInv(dropped, room);
    }
  }

  lemma EndKeepsInv(s: System)
    requires Inv(s) && s.op.Maintaining?
    ensures Inv(Maintain(s, EndMaintenance))
  {}

  lemma MaintenanceKeepsInv(s: System, event: Event)
    requires Inv(s) && s.op.Maintaining?
    ensures Inv(Maintain(s, event))
  {
    match event
    case Freeze(room, id) => FreezeKeepsInv(s, room, id);
    case DropSong(id) => DroppingKeepsInv(s, WithoutSong(s.tickets, id));
    case DropTickets => DroppingKeepsInv(s, map[]);
    case NewEpoch(id) =>
      EnsuredIsLater(s, id);
      AdvancingKeepsInv(s, Advanced(s, id).epochs);
    case EndMaintenance => EndKeepsInv(s);
    case _ =>
  }

  lemma EpochsMoveKeepsInv(s: System, event: Event)
    requires Inv(s) && (event.Fence? || event.Restore?)
    ensures Inv(Elsewhere(s, event))
  {
    if event.Fence? {
      EnsuredIsLater(s, event.musicId);
    }
    AdvancingKeepsInv(s, Elsewhere(s, event).epochs);
  }

  lemma HangupEventKeepsInv(s: System, index: nat)
    requires Inv(s)
    ensures Inv(Elsewhere(s, Hangup(index)))
  {
    if index < |s.connections| {
      HangUpKeepsInv(s, index);
    }
  }

  lemma ForgetEventKeepsInv(s: System, index: nat)
    requires Inv(s)
    ensures Inv(Elsewhere(s, Forget(index)))
  {
    if index < |s.connections| {
      ForgetKeepsInv(s, index);
    }
  }

  lemma ElsewhereKeepsInv(s: System, event: Event)
    requires Inv(s)
    ensures Inv(Elsewhere(s, event))
  {
    match event
    case Fence(_) => EpochsMoveKeepsInv(s, event);
    case Restore => EpochsMoveKeepsInv(s, event);
    case Hangup(i) => HangupEventKeepsInv(s, i);
    case Forget(i) => ForgetEventKeepsInv(s, i);
    case OnGate(e) =>
      if !(e.ReleaseEditor? && Owned(s.connections, OpSlot(s.op), e.handle)) {
        OnGateKeepsInv(s, e);
      }
    case _ =>
  }

  lemma BeginKeepsInv(s: System, event: Event)
    requires Inv(s) && (event.BeginIssue? || event.BeginMaintenance?)
    ensures Inv(Arrive(s, event))
  {
    if Arrive(s, event) != s {
      OpKeepsInv(s, Arrive(s, event).op);
    }
  }

  lemma ArriveKeepsInv(s: System, event: Event)
    requires Inv(s)
    ensures Inv(Arrive(s, event))
  {
    match event
    case Consume(values, w, path, now) => ConsumeKeepsInv(s, values, w, path, now);
    case BeginAdmit(ticket) => StartAdmitKeepsInv(s, ticket);
    case BeginIssue(_, _, _, _, _) => BeginKeepsInv(s, event);
    case BeginMaintenance => BeginKeepsInv(s, event);
    case _ =>
  }

  lemma HoldKeepsInv(s: System, event: Event)
    requires Inv(s)
    ensures Inv(Hold(s, event))
  {
    match s.op
    case Issuing(_, _) =>
      if event.IssueStep? {
        IssueKeepsInv(s, event.reading, event.value, event.now);
      }
    case Admitting(_, _) =>
      if event.AdmitStep? {
        AdmitKeepsInv(s, event.verified, event.reading);
      }
    case Maintaining(_) => MaintenanceKeepsInv(s, event);
    case Free =>
  }

  lemma NextKeepsInvariant(s: System, event: Event)
    requires Inv(s)
    ensures Inv(Next(s, event))
  {
    match KindOf(event)
    case Arriving => ArriveKeepsInv(s, event);
    case Held => HoldKeepsInv(s, event);
    case Outside => ElsewhereKeepsInv(s, event);
  }

  lemma {:induction false} RunKeepsInvariant(instanceId: string, events: seq<Event>)
    ensures Inv(Run(Initial(instanceId), events))
  {
    if events != [] {
      RunKeepsInvariant(instanceId, events[..|events| - 1]);
      NextKeepsInvariant(Run(Initial(instanceId), events[..|events| - 1]), events[|events| - 1]);
    }
  }
}
