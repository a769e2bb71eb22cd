/** What issuing and admission guarantee over every interleaving of their locked
    sections with those of everyone else, and where a connection can still end
    up in a room whose epoch is over. */
module CollabAdmission {

  import EditorGate
  import opened Wrappers
  import opened RoomNames
  import opened CollabRegistries
  import opened CollabTickets

  // ---- main results ----

  /** Each ticket admits at most one connection, over any run and however the
      requests that present it are interleaved. */
  lemma TicketsAdmitOnce(instanceId: string, events: seq<Event>)
    ensures var s := Run(Initial(instanceId), events);
            && (forall i, j :: 0 <= i < j < |s.admitted| ==> s.admitted[i] != s.admitted[j])
            && (forall t :: t in s.admitted ==> t in s.drawn && t !in s.tickets && t !in s.waiting && t !in OpTicket(s.op))
            && (forall t :: t in s.waiting ==> t !in s.tickets && t !in OpTicket(s.op))
            && |s.tickets| <= MAX_TICKETS
  {
    RunKeepsInvariant(instanceId, events);
  }

  /** authorize's look at the retiring rooms never finds any: whoever retires a
      room holds the operation mutex until it is done. */
  lemma NothingRetiresDuringAnAdmission(instanceId: string, events: seq<Event>)
    ensures var s := Run(Initial(instanceId), events);
            (s.op.Admitting? || s.op.Issuing? ==> s.retiring == {})
            && (forall v, r :: s.op.Admitting? && s.op.admit.Locked? ==> AdmitNext(s, v, r) == ReachAdmit(s, NotRetiring))
  {
    RunKeepsInvariant(instanceId, events);
  }

  /** No admission leaks a slot: what was ever taken and is still held belongs to
      an open connection or to the admission under way. In particular the
      comparison after BeginStrictEditor never fails once the slot is taken. */
  lemma EverySlotHasItsRequest(instanceId: string, events: seq<Event>, handle: nat)
    ensures var s := Run(Initial(instanceId), events);
            && (handle in s.taken && handle in s.gate.held <==> Owned(s.connections, OpSlot(s.op), handle))
            && (s.op.Admitting? && s.op.admit.StatusSeen? ==>
                  var p := s.op.request.grant.producer;
                  EditorGate.StrictMatch(s.gate, p.instanceId, p.revision, p.completedGeneration) ==> s.gate.status == p)
  {
    RunKeepsInvariant(instanceId, events);
    var s := Run(Initial(instanceId), events);
    if s.op.Admitting? {
      StrictMatchIsSame(s);
    }
  }

  /** The slot is taken under the very status the ticket was issued for, with no
      producer about, and it is a new one. */
  lemma SlotIsStrict(instanceId: string, events: seq<Event>)
    requires var s := Run(Initial(instanceId), events); s.op.Admitting? && s.op.admit.StatusSeen?
    ensures var s := Run(Initial(instanceId), events);
            var s' := Next(s, AdmitStep(None, Fails));
            && (s.gate.status == s.op.request.grant.producer && !s.gate.status.running <==> s'.op.Admitting?)
            && (s'.op.Admitting? ==>
                  && s'.op == Admitting(s.op.request, SlotTaken(s.gate.issued)) && s.gate.issued !in s.gate.held
                  && s'.gate.held == s.gate.held + {s.gate.issued} && s'.gate.editors == s.gate.editors + 1
                  && s'.gate.status == s.gate.status && s.gate.producer.Absent?)
            && (!s'.op.Admitting? ==> s' == Unlocked(s))
  {
    RunKeepsInvariant(instanceId, events);
    var s := Run(Initial(instanceId), events);
    StrictMatchIsSame(s);
  }

  /** From the slot to the connection no producer holds the gate, whatever runs
      in between, so no restore does either. */
  lemma NoProducerHoldsBesideASlot(instanceId: string, events: seq<Event>)
    requires OpSlot(Run(Initial(instanceId), events).op).Some?
    ensures var s := Run(Initial(instanceId), events);
            && !s.gate.producer.Holding? && OpSlot(s.op).value in s.gate.held && s.gate.editors > 0
            && Next(s, Restore) == s
  {
    RunKeepsInvariant(instanceId, events);
    var s := Run(Initial(instanceId), events);
    assert |s.gate.held| > 0;
  }

  // ---- between a locked section and the next of the same request ----

  /** Steps of others while the mutex is held: not the holder's own. */
  predicate ByOthers(events: seq<Event>) {
    forall i :: 0 <= i < |events| ==> !events[i].IssueStep? && !events[i].AdmitStep?
  }

  /** A fence of the song commits among these events. */
  predicate Fenced(events: seq<Event>, id: int) {
    exists i :: 0 <= i < |events| && events[i] == Fence(id)
  }

  lemma FencedSnoc(events: seq<Event>, event: Event, id: int)
    ensures Fenced(events + [event], id) <==> Fenced(events, id) || event == Fence(id)
  {
    var all := events + [event];
    if Fenced(events, id) {
      var i :| 0 <= i < |events| && events[i] == Fence(id);
      assert all[i] == Fence(id);
    }
    if event == Fence(id) {
      assert all[|events|] == Fence(id);
    }
    if Fenced(all, id) {
      var i :| 0 <= i < |all| && all[i] == Fence(id);
      if i < |events| {
        assert events[i] == Fence(id);
      }
    }
  }

  /** While an admission holds its slot, others can move a song's epoch only by
      fencing that song. */
  lemma OthersBesideASlot(s: System, event: Event, id: int)
    requires s.op.Admitting? && !s.gate.producer.Holding? && !event.AdmitStep? && id in s.epochs
    ensures var s' := Next(s, event);
            && s'.op == s.op && id in s'.epochs
            && s'.epochs[id] == s.epochs[id] + (if event == Fence(id) then 1 else 0)
  {}

  lemma {:induction false} RunKeepsInv(s: System, events: seq<Event>)
    requires Inv(s)
    ensures Inv(Run(s, events))
  {
    if events != [] {
      RunKeepsInv(s, events[..|events| - 1]);
      NextKeepsInvariant(Run(s, events[..|events| - 1]), events[|events| - 1]);
    }
  }

  lemma NotHoldingBesideASlot(s: System)
    requires Inv(s) && OpSlot(s.op).Some?
    ensures !s.gate.producer.Holding?
  {
    assert OpSlot(s.op).value in s.gate.held;
  }

  lemma NotHoldingLater(s: System, events: seq<Event>)
    requires Inv(s) && OpSlot(Run(s, events).op).Some?
    ensures !Run(s, events).gate.producer.Holding?
  {
    RunKeepsInv(s, events);
    NotHoldingBesideASlot(Run(s, events));
  }

  lemma {:induction false} SlotKeepsTheMutex(s: System, mid: seq<Event>, id: int)
    requires Inv(s) && OpSlot(s.op).Some? && ByOthers(mid) && id in s.epochs
    ensures var t := Run(s, mid);
            && t.op == s.op && id in t.epochs && t.epochs[id] >= s.epochs[id]
            && (t.epochs[id] == s.epochs[id] <==> !Fenced(mid, id))
  {
    if mid != [] {
      var init, last := mid[..|mid| - 1], mid[|mid| - 1];
      assert mid == init + [last];
      SlotKeepsTheMutex(s, init, id);
      FencedSnoc(init, last, id);
      NotHoldingLater(s, init);
      OthersBesideASlot(Run(s, init), last, id);
    }
  }

  /** The row read under the slot is the grant's, or the request is refused. */
  lemma ReadIsCurrent(s: System, handle: nat, reading: Reading)
    requires Inv(s) && s.op.Admitting? && s.op.admit == SlotTaken(handle)
    ensures var read, grant := ReadRoom(s, handle, reading), s.op.request.grant;
            && Inv(read) && read == s.(op := read.op, epochs := read.epochs)
            && read.op.Admitting? && read.op.request == s.op.request
            && grant.musicId in read.epochs && grant.room == RoomName(grant.musicId, grant.epoch)
            && (read.op.admit == RoomRead(handle) || read.op.admit == Refusing(handle))
            && (read.op.admit.RoomRead? ==> read.epochs[grant.musicId] == grant.epoch)
            && (read.op.admit.Refusing? && reading.Reads? ==> read.epochs[grant.musicId] != grant.epoch)
  {
    ReadRoomKeepsInv(s, handle, reading);
  }

  /** The room was read as current under the slot; when the connection is counted
      it still is, exactly if no fence of the song committed in between. Nothing
      else in the server can move the epoch there. */
  lemma CurrentAtTrackExactlyUnfenced(instanceId: string, events: seq<Event>, handle: nat, reading: Reading, mid: seq<Event>)
    requires var s := Run(Initial(instanceId), events);
             && s.op.Admitting? && s.op.admit == SlotTaken(handle)
             && ReadRoom(s, handle, reading).op.admit == RoomRead(handle)
    requires ByOthers(mid)
    ensures var s := Run(Initial(instanceId), events);
            var grant := s.op.request.grant;
            var before := Run(ReadRoom(s, handle, reading), mid);
            && before.op == Admitting(s.op.request, RoomRead(handle))
            && grant.room == RoomName(grant.musicId, grant.epoch) && grant.musicId in before.epochs
            && (before.epochs[grant.musicId] == grant.epoch <==> !Fenced(mid, grant.musicId))
            && TrackRequest(before, handle).epochs == before.epochs
            && TrackRequest(before, handle).connections == before.connections + [ConnectionOf(grant, handle)]
  {
    RunKeepsInvariant(instanceId, events);
    var s := Run(Initial(instanceId), events);
    ReadIsCurrent(s, handle, reading);
    SlotKeepsTheMutex(ReadRoom(s, handle, reading), mid, s.op.request.grant.musicId);
  }

  // ---- a connection to a room that is no longer current ----

  const CLAIMS := Claims("a", "editor", 1)

  const IDLE := EditorGate.New("i").status
  const GRANT := GrantOf(Draft(CLAIMS, "b", 7, IDLE), 1, 0)

  /** A ticket is issued; it is consumed and its request passes every check; the
      song's document is replaced; the connection is counted. */
  const ISSUED: seq<Event> :=
    [BeginIssue(CLAIMS, "b", 7, [IDLE], Some(CLAIMS)), IssueStep(Reads, "", 0), IssueStep(Reads, "", 0), IssueStep(Reads, "t", 0)]
  const CHECKED: seq<Event> :=
    [Consume(["t"], true, Some(7), 1), BeginAdmit("t"), AdmitStep(None, Reads), AdmitStep(Some(CLAIMS), Reads)]
  const SLOTTED: seq<Event> := [AdmitStep(None, Reads), AdmitStep(None, Reads), AdmitStep(None, Reads), Fence(7)]
  const STALE: seq<Event> := ISSUED + CHECKED + SLOTTED + [AdmitStep(None, Reads)]

  lemma FourSteps(s: System, a: Event, b: Event, c: Event, d: Event)
    ensures Run(s, [a, b, c, d]) == Next(Next(Next(Next(s, a), b), c), d)
  {
    RunSnoc(s, [], a);
    RunSnoc(s, [a], b);
    RunSnoc(s, [a, b], c);
    RunSnoc(s, [a, b, c], d);
    assert [] + [a] == [a] && [a] + [b] == [a, b] && [a, b] + [c] == [a, b, c] && [a, b, c] + [d] == [a, b, c, d];
  }

  lemma IssuedPart()
    ensures Run(Initial("i"), ISSUED) == Initial("i").(tickets := map["t" := GRANT], epochs := map[7 := 1], drawn := {"t"})
  {
    var s0 := Initial("i");
    FourSteps(s0, ISSUED[0], ISSUED[1], ISSUED[2], ISSUED[3]);
    var s1 := Next(s0, ISSUED[0]);
    assert s1 == s0.(op := Issuing(Draft(CLAIMS, "b", 7, IDLE), Begun));
    var s2 := Next(s1, ISSUED[1]);
    assert s2 == ReachIssue(s1, GateSeen);
    var s3 := Next(s2, ISSUED[2]);
    assert s3 == ReachIssue(s2.(epochs := map[7 := 1]), RoomSeen(1));
    assert Unexpired(s3.tickets, 0) == map[];
  }

  lemma CheckedPart(s: System)
    requires s.tickets == map["t" := GRANT] && s.waiting == map[] && s.op.Free? && s.retiring == {}
    ensures Run(s, CHECKED) == s.(tickets := map[], op := Admitting(Request("t", GRANT), BearerSeen))
  {
    FourSteps(s, CHECKED[0], CHECKED[1], CHECKED[2], CHECKED[3]);
    assert !Blank("t"[0]);
    var s1 := Next(s, CHECKED[0]);
    assert s1 == s.(tickets := map[], waiting := map["t" := GRANT]);
    var s2 := Next(s1, CHECKED[1]);
    assert map["t" := GRANT] - {"t"} == map[];
    assert s2 == s.(tickets := map[], op := Admitting(Request("t", GRANT), Locked));
  }

  lemma SlotOpened(s: System)
    requires s.gate == EditorGate.New("i") && s.op == Admitting(Request("t", GRANT), BearerSeen)
    ensures Next(Next(s, AdmitStep(None, Reads)), AdmitStep(None, Reads))
         == s.(op := Admitting(Request("t", GRANT), SlotTaken(0)), gate := EditorGate.Admitted(s.gate), taken := s.taken + {0})
  {}

  lemma RoomReadThenFenced(s: System)
    requires s.epochs == map[7 := 1] && s.op == Admitting(Request("t", GRANT), SlotTaken(0))
    ensures Next(Next(s, AdmitStep(None, Reads)), Fence(7))
         == s.(op := Admitting(Request("t", GRANT), RoomRead(0)), epochs := map[7 := 2])
  {
    assert map[7 := 1][7 := 1] == map[7 := 1] && map[7 := 1][7 := 2] == map[7 := 2];
  }

  lemma SlottedPart(s: System)
    requires s.gate == EditorGate.New("i") && s.epochs == map[7 := 1] && s.op == Admitting(Request("t", GRANT), BearerSeen)
    ensures var s' := Run(s, SLOTTED);
            s' == s.(op := Admitting(Request("t", GRANT), RoomRead(0)), epochs := map[7 := 2], gate := s'.gate, taken := s'.taken)
  {
    FourSteps(s, SLOTTED[0], SLOTTED[1], SLOTTED[2], SLOTTED[3]);
    SlotOpened(s);
    RoomReadThenFenced(Next(Next(s, SLOTTED[0]), SLOTTED[1]));
  }

  lemma TrackedPart(s: System)
    requires s.op == Admitting(Request("t", GRANT), RoomRead(0)) && s.connections == [] && s.admitted == []
    ensures var s' := Next(s, AdmitStep(None, Reads));
            s'.connections == [Connection(7, 1, RoomName(7, 1), "a", 0, true)] && s'.admitted == ["t"] && s'.epochs == s.epochs
  {}

  /** From a new server to a connection in a room whose epoch is over, with every
      check passed. */
  lemma StaleAdmission()
    ensures var s := Run(Initial("i"), STALE);
            && s.connections == [Connection(7, 1, RoomName(7, 1), "a", 0, true)] && s.admitted == ["t"]
            && s.epochs == map[7 := 2]
  {
    IssuedPart();
    RunConcat(Initial("i"), ISSUED, CHECKED);
    var issued := Run(Initial("i"), ISSUED);
    CheckedPart(issued);
    RunConcat(Initial("i"), ISSUED + CHECKED, SLOTTED);
    var checked := Run(issued, CHECKED);
    SlottedPart(checked);
    TrackedPart(Run(checked, SLOTTED));
    RunSnoc(Initial("i"), ISSUED + CHECKED + SLOTTED, AdmitStep(None, Reads));
  }

  // ---- such connections are within reach of the replacement that follows ----

  /** musicRooms: the song's rooms among those that have connections, and `extra`. */
  function MusicRooms(active: Counts, musicId: int, extra: string): set<string> {
    set room | room in active.Keys + (if extra != "" then {extra} else {}) && ParseRoom(room).Some?
               && ParseRoom(room).value.musicId == musicId
  }

  lemma {:induction false} SeatedIsCounted(connections: seq<Connection>, i: nat)
    requires i < |connections|
    ensures InRoom(connections, connections[i].room) > 0
  {
    if i > 0 {
      SeatedIsCounted(connections[1..], i - 1);
    }
  }

  /** A replacement of the song finds the room of every one of its connections,
      however stale, to close it (ids and epochs within the name's ranges). */
  lemma ReplacementFindsEveryRoom(instanceId: string, events: seq<Event>, i: nat, extra: string)
    requires i < |Run(Initial(instanceId), events).connections|
    requires var c := Run(Initial(instanceId), events).connections[i]; ValidIdentity(RoomIdentity(c.musicId, c.epoch))
    ensures var s := Run(Initial(instanceId), events);
            s.connections[i].room in MusicRooms(s.registry.active, s.connections[i].musicId, extra)
  {
    RunKeepsInvariant(instanceId, events);
    var s := Run(Initial(instanceId), events);
    var c := s.connections[i];
    SeatedIsCounted(s.connections, i);
    assert CountOf(s.registry.active, c.room) == InRoom(s.connections, c.room);
    assert SeatInv(s.epochs, c);
    ParseOfRoomName(c.musicId, c.epoch);
  }

  // ---- after the fence ----

  /** The admissions that began to hold a slot since `mark`, while the song's
      epoch stood still, are to its current room. */
  ghost predicate SinceCurrent(s: System, id: int, epoch: int, mark: nat) {
    && id in s.epochs && s.epochs[id] == epoch && mark <= s.gate.issued
    && (s.op.Admitting? && s.op.admit.RoomRead? && s.op.request.grant.musicId == id ==> s.op.request.grant.epoch == epoch)
    && (forall i :: 0 <= i < |s.connections| && s.connections[i].musicId == id && s.connections[i].handle >= mark ==>
          s.connections[i].epoch == epoch)
  }

  predicate Grown(epochs: map<int, int>, later: map<int, int>, id: int) {
    id in epochs ==> id in later && later[id] >= epochs[id]
  }

  lemma IssueGrows(s: System, reading: Reading, value: string, now: int, id: int)
    requires s.op.Issuing?
    ensures Grown(s.epochs, IssueNext(s, reading, value, now).epochs, id)
  {
    match s.op.issue
    case GateSeen =>
    case Drifted =>
    case Cleared =>
    case _ =>
  }

  lemma AdmitGrows(s: System, verified: Option<Claims>, reading: Reading, id: int)
    requires s.op.Admitting?
    ensures Grown(s.epochs, AdmitNext(s, verified, reading).epochs, id)
  {
    match s.op.admit
    case SlotTaken(h) =>
    case _ =>
  }

  lemma HoldGrows(s: System, event: Event, id: int)
    ensures Grown(s.epochs, Hold(s, event).epochs, id)
  {
    match s.op
    case Issuing(_, _) =>
      if event.IssueStep? {
        IssueGrows(s, event.reading, event.value, event.now, id);
      }
    case Admitting(_, _) =>
      if event.AdmitStep? {
        AdmitGrows(s, event.verified, event.reading, id);
      }
    case _ =>
  }

  lemma EpochsOnlyGrow(s: System, event: Event, id: int)
    ensures Grown(s.epochs, Next(s, event).epochs, id)
  {
    match KindOf(event)
    case Held => HoldGrows(s, event, id);
    case _ =>
  }

  lemma {:induction false} RunEpochsOnlyGrow(s: System, events: seq<Event>, id: int)
    ensures Grown(s.epochs, Run(s, events).epochs, id)
  {
    if events != [] {
      RunEpochsOnlyGrow(s, events[..|events| - 1], id);
      EpochsOnlyGrow(Run(s, events[..|events| - 1]), events[|events| - 1], id);
    }
  }

  /** What the other steps leave alone. */
  lemma SinceQuiet(s: System, s': System, id: int, epoch: int, mark: nat)
    requires SinceCurrent(s, id, epoch, mark) && id in s'.epochs && s'.epochs[id] == epoch
    requires s'.gate.issued >= s.gate.issued && s'.connections == s.connections
    requires s'.op.Admitting? && s'.op.admit.RoomRead? ==> s'.op == s.op
    ensures SinceCurrent(s', id, epoch, mark)
  {}

  lemma SinceRead(s: System, handle: nat, reading: Reading, id: int, epoch: int, mark: nat)
    requires Inv(s) && s.op.Admitting? && s.op.admit == SlotTaken(handle) && SinceCurrent(s, id, epoch, mark)
    ensures SinceCurrent(ReadRoom(s, handle, reading), id, epoch, mark)
  {
    ReadIsCurrent(s, handle, reading);
  }

  lemma SinceTrack(s: System, handle: nat, id: int, epoch: int, mark: nat)
    requires s.op.Admitting? && s.op.admit == RoomRead(handle) && SinceCurrent(s, id, epoch, mark)
    ensures SinceCurrent(TrackRequest(s, handle), id, epoch, mark)
  {}

  lemma AdmitIsQuiet(s: System, verified: Option<Claims>, reading: Reading)
    requires s.op.Admitting? && !s.op.admit.SlotTaken? && !s.op.admit.RoomRead?
    ensures var s' := AdmitNext(s, verified, reading);
            && s'.connections == s.connections && s'.gate.issued >= s.gate.issued && s'.epochs == s.epochs
            && !(s'.op.Admitting? && s'.op.admit.RoomRead?)
  {
    match s.op.admit
    case StatusSeen =>
    case Refusing(h) =>
    case _ =>
  }

  lemma SinceAdmit(s: System, verified: Option<Claims>, reading: Reading, id: int, epoch: int, mark: nat)
    requires Inv(s) && s.op.Admitting? && SinceCurrent(s, id, epoch, mark)
    ensures SinceCurrent(AdmitNext(s, verified, reading), id, epoch, mark)
  {
    match s.op.admit
    case SlotTaken(h) => SinceRead(s, h, reading, id, epoch, mark);
    case RoomRead(h) => SinceTrack(s, h, id, epoch, mark);
    case _ =>
      AdmitIsQuiet(s, verified, reading);
      SinceQuiet(s, AdmitNext(s, verified, reading), id, epoch, mark);
  }

  lemma SinceHangup(s: System, index: nat, id: int, epoch: int, mark: nat)
    requires SinceCurrent(s, id, epoch, mark) && index < |s.connections|
    ensures SinceCurrent(HangUp(s, index), id, epoch, mark)
  {
    HeldMoves(s.gate, EditorGate.ReleaseEditor(s.connections[index].handle));
  }

  lemma SinceForget(s: System, index: nat, id: int, epoch: int, mark: nat)
    requires SinceCurrent(s, id, epoch, mark) && index < |s.connections|
    ensures SinceCurrent(ForgetConnection(s, index), id, epoch, mark)
  {
    var rest := s.connections[..index] + s.connections[index + 1..];
    assert forall i :: 0 <= i < |rest| ==> rest[i] == s.connections[if i < index then i else i + 1];
  }

  ghost predicate SeatsStay(s: System, s': System) {
    && s'.connections == s.connections && s'.gate.issued >= s.gate.issued
    && (s'.op.Admitting? && s'.op.admit.RoomRead? ==> s'.op == s.op)
  }

  lemma IssueIsQuiet(s: System, reading: Reading, value: string, now: int)
    requires s.op.Issuing?
    ensures SeatsStay(s, IssueNext(s, reading, value, now))
  {}

  lemma MaintenanceIsQuiet(s: System, event: Event)
    requires s.op.Maintaining?
    ensures SeatsStay(s, Maintain(s, event))
  {}

  lemma ArrivingIsQuiet(s: System, event: Event)
    ensures SeatsStay(s, Arrive(s, event))
  {}

  lemma SinceHold(s: System, event: Event, id: int, epoch: int, mark: nat)
    requires Inv(s) && SinceCurrent(s, id, epoch, mark)
    requires id in Hold(s, event).epochs && Hold(s, event).epochs[id] == epoch
    ensures SinceCurrent(Hold(s, event), id, epoch, mark)
  {
    match s.op
    case Issuing(_, _) =>
      if event.IssueStep? {
        IssueIsQuiet(s, event.reading, event.value, event.now);
        SinceQuiet(s, Hold(s, event), id, epoch, mark);
      }
    case Admitting(_, _) =>
      if event.AdmitStep? {
        SinceAdmit(s, event.verified, event.reading, id, epoch, mark);
      }
    case Maintaining(_) =>
      MaintenanceIsQuiet(s, event);
      SinceQuiet(s, Hold(s, event), id, epoch, mark);
    case Free =>
  }

  lemma SinceElsewhere(s: System, event: Event, id: int, epoch: int, mark: nat)
    requires SinceCurrent(s, id, epoch, mark)
    requires id in Elsewhere(s, event).epochs && Elsewhere(s, event).epochs[id] == epoch
    ensures SinceCurrent(Elsewhere(s, event), id, epoch, mark)
  {
    match event
    case Hangup(i) =>
      if i < |s.connections| {
        SinceHangup(s, i, id, epoch, mark);
      }
    case Forget(i) =>
      if i < |s.connections| {
        SinceForget(s, i, id, epoch, mark);
      }
    case OnGate(e) => HeldMoves(s.gate, e);
    case _ =>
  }

  lemma SinceStep(s: System, event: Event, id: int, epoch: int, mark: nat)
    requires Inv(s) && SinceCurrent(s, id, epoch, mark)
    requires id in Next(s, event).epochs && Next(s, event).epochs[id] == epoch
    ensures SinceCurrent(Next(s, event), id, epoch, mark)
  {
    match KindOf(event)
    case Arriving =>
      ArrivingIsQuiet(s, event);
      SinceQuiet(s, Next(s, event), id, epoch, mark);
    case Held => SinceHold(s, event, id, epoch, mark);
    case Outside => SinceElsewhere(s, event, id, epoch, mark);
  }

  lemma {:induction false} SinceRun(s: System, later: seq<Event>, id: int)
    requires Inv(s) && !s.op.Admitting? && id in s.epochs
    requires id in Run(s, later).epochs && Run(s, later).epochs[id] == s.epochs[id]
    ensures Inv(Run(s, later)) && SinceCurrent(Run(s, later), id, s.epochs[id], s.gate.issued)
  {
    if later != [] {
      var init, last := later[..|later| - 1], later[|later| - 1];
      RunEpochsOnlyGrow(s, init, id);
      EpochsOnlyGrow(Run(s, init), last, id);
      SinceRun(s, init, id);
      NextKeepsInvariant(Run(s, init), last);
      SinceStep(Run(s, init), last, id, s.epochs[id], s.gate.issued);
    }
  }

  /** From any moment at which no admission holds the mutex, such as a
      replacement's listing of rooms, every connection admitted later is to the
      song's current room for as long as its epoch stands still. */
  lemma AdmittedSinceIsCurrent(instanceId: string, events: seq<Event>, later: seq<Event>, id: int, i: nat)
    requires var s := Run(Initial(instanceId), events); !s.op.Admitting? && id in s.epochs
    requires var s, t := Run(Initial(instanceId), events), Run(Run(Initial(instanceId), events), later);
             && id in t.epochs && t.epochs[id] == s.epochs[id]
             && i < |t.connections| && t.connections[i].musicId == id && t.connections[i].handle >= s.gate.issued
    ensures var t := Run(Run(Initial(instanceId), events), later);
            t.connections[i].epoch == t.epochs[id] && t.connections[i].room == RoomName(id, t.epochs[id])
  {
    RunKeepsInvariant(instanceId, events);
    var s := Run(Initial(instanceId), events);
    SinceRun(s, later, id);
    var t := Run(s, later);
    assert SeatInv(t.epochs, t.connections[i]);
  }

  // ---- issuing ----

  /** The song's epoch is moved by one of these events, run from `s`: by a fence,
      or by a restore, which only a producer that holds the gate makes. */
  predicate EpochMoved(s: System, mid: seq<Event>, id: int) {
    exists i :: 0 <= i < |mid| && Moves(Run(s, mid[..i]), mid[i], id)
  }

  predicate Moves(s: System, event: Event, id: int) {
    event == Fence(id) || (event.Restore? && s.gate.producer.Holding?)
  }

  lemma MovedSnoc(s: System, mid: seq<Event>, event: Event, id: int)
    ensures EpochMoved(s, mid + [event], id) <==> EpochMoved(s, mid, id) || Moves(Run(s, mid), event, id)
  {
    var all := mid + [event];
    assert all[..|mid|] == mid;
    assert forall i :: 0 <= i < |mid| ==> all[..i] == mid[..i];
    if EpochMoved(s, mid, id) {
      var i :| 0 <= i < |mid| && Moves(Run(s, mid[..i]), mid[i], id);
      assert Moves(Run(s, all[..i]), all[i], id);
    }
    if Moves(Run(s, mid), event, id) {
      assert Moves(Run(s, all[..|mid|]), all[|mid|], id);
    }
    if EpochMoved(s, all, id) {
      var i :| 0 <= i < |all| && Moves(Run(s, all[..i]), all[i], id);
      if i < |mid| {
        assert Moves(Run(s, mid[..i]), mid[i], id);
      }
    }
  }

  lemma OthersDuringAnIssue(s: System, event: Event, id: int)
    requires s.op.Issuing? && !event.IssueStep? && id in s.epochs
    ensures var s' := Next(s, event);
            && s'.op == s.op && id in s'.epochs
            && s'.epochs[id] == s.epochs[id] + (if Moves(s, event, id) then 1 else 0)
  {}

  lemma {:induction false} IssueKeepsTheMutex(s: System, mid: seq<Event>, id: int)
    requires Inv(s) && s.op.Issuing? && ByOthers(mid) && id in s.epochs
    ensures var t := Run(s, mid);
            && Inv(t) && t.op == s.op && id in t.epochs && t.epochs[id] >= s.epochs[id]
            && (t.epochs[id] == s.epochs[id] <==> !EpochMoved(s, mid, id))
  {
    if mid != [] {
      var init, last := mid[..|mid| - 1], mid[|mid| - 1];
      assert mid == init + [last];
      IssueKeepsTheMutex(s, init, id);
      MovedSnoc(s, init, last, id);
      NextKeepsInvariant(Run(s, init), last);
      OthersDuringAnIssue(Run(s, init), last, id);
    }
  }

  lemma RowSeen(s: System, value: string, now: int)
    requires Inv(s) && s.op.Issuing? && (s.op.issue.GateSeen? || s.op.issue.Cleared?)
    ensures var read, id := IssueNext(s, Reads, value, now), s.op.draft.musicId;
            Inv(read) && id in read.epochs && read.op == Issuing(s.op.draft, RoomSeen(read.epochs[id]))
  {
    IssueKeepsInv(s, Reads, value, now);
  }

  lemma Inserted(s: System, value: string, now: int)
    requires Inv(s) && s.op.Issuing? && s.op.issue.RoomSeen?
    ensures var s' := InsertTicket(s, value, now);
            && s'.op.Free? && s'.epochs == s.epochs && s'.gate == s.gate
            && (value !in s.drawn && value in s'.tickets ==>
                  && s'.tickets[value] == GrantOf(s.op.draft, s.op.issue.epoch, now) && value in s'.drawn
                  && Had(s.gate.status, s'.tickets[value].producer))
  {}

  /** The row a ticket is issued against was current when it was read; when the
      ticket is handed out it still is, exactly if neither a fence of the song
      nor a restore came in between. */
  lemma IssuedCurrentExactlyUnmoved(instanceId: string, events: seq<Event>, mid: seq<Event>, value: string, now: int)
    requires var s := Run(Initial(instanceId), events); s.op.Issuing? && (s.op.issue.GateSeen? || s.op.issue.Cleared?)
    requires ByOthers(mid)
    ensures var s := Run(Initial(instanceId), events);
            var draft := s.op.draft;
            var read := IssueNext(s, Reads, value, now);
            var before := Run(read, mid);
            && before.op == read.op && read.op.Issuing? && read.op.issue.RoomSeen? && draft.musicId in before.epochs
            && var after, epoch := InsertTicket(before, value, now), read.op.issue.epoch;
               && after.op.Free? && after.epochs == before.epochs
               && (before.epochs[draft.musicId] == epoch <==> !EpochMoved(read, mid, draft.musicId))
               && (value in after.tickets && value !in before.drawn ==> after.tickets[value] == GrantOf(draft, epoch, now))
  {
    RunKeepsInvariant(instanceId, events);
    var s := Run(Initial(instanceId), events);
    RowSeen(s, value, now);
    var read := IssueNext(s, Reads, value, now);
    IssueKeepsTheMutex(read, mid, s.op.draft.musicId);
    Inserted(Run(read, mid), value, now);
  }

  // ---- the gate from issue to admission ----

  predicate Turned(s: System, event: Event) {
    Next(s, event).gate.status.running != s.gate.status.running
  }

  /** Requests take and give back slots, which leaves the status alone. */
  lemma AdmitKeepsStatus(s: System, verified: Option<Claims>, reading: Reading)
    requires s.op.Admitting?
    ensures AdmitNext(s, verified, reading).gate.status == s.gate.status
  {
    match s.op.admit
    case StatusSeen =>
    case Refusing(h) =>
    case _ =>
  }

  lemma StatusStays(s: System, event: Event)
    requires !event.OnGate?
    ensures Next(s, event).gate.status == s.gate.status
  {
    match KindOf(event)
    case Held =>
      if s.op.Admitting? && event.AdmitStep? {
        AdmitKeepsStatus(s, event.verified, event.reading);
      }
    case _ =>
  }

  lemma GateMoves(s: System, event: Event)
    requires EditorGate.Inv(s.gate)
    ensures Next(s, event).gate.status.revision >= s.gate.status.revision + (if Turned(s, event) then 1 else 0)
  {
    if event.OnGate? {
      EditorGate.StatusMovesWithItsRevision(s.gate, event.event);
    } else {
      StatusStays(s, event);
    }
  }

  lemma {:induction false} RevisionGrows(s: System, events: seq<Event>, n: nat)
    requires Inv(s) && n <= |events|
    ensures Inv(Run(s, events)) && Run(s, events[..n]).gate.status.revision <= Run(s, events).gate.status.revision
    decreases |events|
  {
    if n == |events| {
      assert events[..n] == events;
      if events != [] {
        RevisionGrows(s, events[..|events| - 1], 0);
        NextKeepsInvariant(Run(s, events[..|events| - 1]), events[|events| - 1]);
      }
    } else {
      var init, last := events[..|events| - 1], events[|events| - 1];
      assert init[..n] == events[..n];
      RevisionGrows(s, init, n);
      NextKeepsInvariant(Run(s, init), last);
      GateMoves(Run(s, init), last);
    }
  }

  lemma SlotMeansSameStatus(s: System)
    requires Inv(s) && s.op.Admitting? && s.op.admit.StatusSeen? && OpSlot(Next(s, AdmitStep(None, Fails)).op).Some?
    ensures s.gate.status == s.op.request.grant.producer
  {
    StrictMatchIsSame(s);
  }

  lemma QuietBetween(s: System, events: seq<Event>, n: nat)
    requires Inv(s) && n < |events| && Run(s, events).gate.status == s.gate.status
    ensures !Turned(Run(s, events[..n]), events[n])
  {
    RevisionGrows(s, events, n + 1);
    RevisionGrows(s, events[..n], 0);
    assert events[..n][..0] == [];
    assert events[..n + 1][..n] == events[..n];
    GateMoves(Run(s, events[..n]), events[n]);
  }

  /** From the status a ticket was issued under to the slot its request takes no
      producer began or finished, whatever ran in between. */
  lemma NoProducerBetween(instanceId: string, events: seq<Event>, later: seq<Event>, n: nat)
    requires var s := Run(Initial(instanceId), events); s.op.Issuing? && s.op.issue.Begun? && s.gate.status == s.op.draft.producer
    requires var s, t := Run(Initial(instanceId), events), Run(Run(Initial(instanceId), events), later);
             && t.op.Admitting? && t.op.admit.StatusSeen? && t.op.request.grant.producer == s.op.draft.producer
             && OpSlot(Next(t, AdmitStep(None, Fails)).op).Some?
    requires n < |later|
    ensures !Turned(Run(Run(Initial(instanceId), events), later[..n]), later[n])
  {
    RunKeepsInvariant(instanceId, events);
    var s := Run(Initial(instanceId), events);
    RunKeepsInv(s, later);
    SlotMeansSameStatus(Run(s, later));
    QuietBetween(s, later, n);
  }

  // ---- refusals and hangups ----

  lemma RefusedByCheck(s: System, verified: Option<Claims>, reading: Reading)
    requires Inv(s) && s.op.Admitting? && OpSlot(s.op).None? && AdmitNext(s, verified, reading).op.Free?
    ensures AdmitNext(s, verified, reading) == s.(op := Free)
  {
    StrictMatchIsSame(s);
  }

  lemma RefusedBesideSlot(s: System, verified: Option<Claims>, reading: Reading)
    requires Inv(s) && s.op.Admitting? && OpSlot(s.op).Some? && !s.op.admit.RoomRead? && AdmitNext(s, verified, reading).op.Free?
    ensures var s' := AdmitNext(s, verified, reading);
            && s' == s.(op := Free, gate := s'.gate)
            && s'.gate.held == s.gate.held - {OpSlot(s.op).value} && s'.gate.editors == s.gate.editors - 1
  {
    match s.op.admit
    case SlotTaken(h) => assert false;
    case Refusing(h) => ReleasedOnly(s.gate, h);
  }

  /** A section that refuses an admission ends it: it changes the mutex, and
      gives back exactly the slot the request had taken, if any; its ticket is
      gone for good. */
  lemma RefusalGivesBackItsSlot(instanceId: string, events: seq<Event>, verified: Option<Claims>, reading: Reading)
    requires var s := Run(Initial(instanceId), events);
             s.op.Admitting? && !s.op.admit.RoomRead? && AdmitNext(s, verified, reading).op.Free?
    ensures var s := Run(Initial(instanceId), events);
            var s' := AdmitNext(s, verified, reading);
            && s' == s.(op := Free, gate := s'.gate)
            && (if OpSlot(s.op).Some?
                then s'.gate.held == s.gate.held - {OpSlot(s.op).value} && s'.gate.editors == s.gate.editors - 1
                else s'.gate == s.gate)
            && s.op.request.ticket in s'.drawn && s.op.request.ticket !in s'.tickets
            && s.op.request.ticket !in s'.waiting && s.op.request.ticket !in s'.admitted
  {
    RunKeepsInvariant(instanceId, events);
    var s := Run(Initial(instanceId), events);
    assert s.op.request.ticket in OpTicket(s.op);
    if OpSlot(s.op).Some? {
      RefusedBesideSlot(s, verified, reading);
    } else {
      RefusedByCheck(s, verified, reading);
    }
  }

  /** The end of a connection gives back its own slot and then its counts. */
  lemma HangupReleasesOneSlot(instanceId: string, events: seq<Event>, index: nat)
    requires index < |Run(Initial(instanceId), events).connections| && Run(Initial(instanceId), events).connections[index].open
    ensures var s := Run(Initial(instanceId), events);
            var c, s' := s.connections[index], HangUp(s, index);
            && s'.gate.editors == s.gate.editors - 1 && s'.gate.held == s.gate.held - {c.handle}
            && (forall i :: 0 <= i < |s'.connections| && s'.connections[i].open ==> s'.connections[i].handle in s'.gate.held)
            && ForgetConnection(s', index).registry == Untrack(s.registry, c.room, c.username)
            && ForgetConnection(s', index).gate == s'.gate
  {
    RunKeepsInvariant(instanceId, events);
    var s := Run(Initial(instanceId), events);
    HangUpKeepsInv(s, index);
    ReleasedOnly(s.gate, s.connections[index].handle);
  }

  /** Over every run the two registries agree with the connections, and so with
      each other: active[room] is the sum over all users. */
  lemma RegistriesAgree(instanceId: string, events: seq<Event>, room: string, username: string)
    ensures var s := Run(Initial(instanceId), events);
            && CountOf(s.registry.active, room) == InRoom(s.connections, room)
            && PairCount(s.registry.userRooms, username, room) == OfUser(s.connections, username, room)
            && CountOf(s.registry.active, room) == RoomSum(s.registry, room)
  {
    RunKeepsInvariant(instanceId, events);
    var s := Run(Initial(instanceId), events);
    CountedMeansSum(s.registry, s.connections, room);
  }

  // ---- what the registries list ----

  lemma AdmitKeepsTight(s: System, verified: Option<Claims>, reading: Reading)
    requires s.op.Admitting? && Tight(s.registry)
    ensures Tight(AdmitNext(s, verified, reading).registry)
  {
    match s.op.admit
    case RoomRead(h) => TrackKeepsTight(s.registry, s.op.request.grant.room, s.op.request.grant.claims.username);
    case _ =>
  }

  lemma HoldKeepsTight(s: System, event: Event)
    requires Tight(s.registry)
    ensures Tight(Hold(s, event).registry)
  {
    match s.op
    case Admitting(_, _) =>
      if event.AdmitStep? {
        AdmitKeepsTight(s, event.verified, event.reading);
      }
    case _ =>
  }

  lemma StepKeepsTight(s: System, event: Event)
    requires Tight(s.registry)
    ensures Tight(Next(s, event).registry)
  {
    match KindOf(event)
    case Held => HoldKeepsTight(s, event);
    case Outside =>
      if event.Forget? && event.index < |s.connections| {
        UntrackKeepsTight(s.registry, s.connections[event.index].room, s.connections[event.index].username);
      }
    case Arriving =>
  }

  lemma {:induction false} RunKeepsTight(instanceId: string, events: seq<Event>)
    ensures Tight(Run(Initial(instanceId), events).registry)
  {
    if events != [] {
      RunKeepsTight(instanceId, events[..|events| - 1]);
      StepKeepsTight(Run(Initial(instanceId), events[..|events| - 1]), events[|events| - 1]);
    }
  }

  /** Over every run a room is listed exactly while it has a connection that was
      counted and not yet forgotten, and a user likewise. */
  lemma ListedExactlyWhileConnected(instanceId: string, events: seq<Event>, username: string, room: string)
    ensures var s := Run(Initial(instanceId), events);
            && (room in s.registry.active <==> exists i :: 0 <= i < |s.connections| && s.connections[i].room == room)
            && (username in s.registry.userRooms && room in s.registry.userRooms[username]
                <==> exists i :: 0 <= i < |s.connections| && s.connections[i].room == room && s.connections[i].username == username)
            && (username in s.registry.userRooms <==> exists i :: 0 <= i < |s.connections| && s.connections[i].username == username)
  {
    RunKeepsInvariant(instanceId, events);
    RunKeepsTight(instanceId, events);
    var s := Run(Initial(instanceId), events);
    ListedExactly(s.registry, s.connections, username, room);
  }
}
