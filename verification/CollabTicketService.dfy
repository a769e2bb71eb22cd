/** IssueTicket and authorize as the code runs them: each locked section is a
    method on the service's own maps and gate, and other callers act in between. */
module CollabTicketService {

  import EditorGate
  import opened EditorGateObject
  import opened Wrappers
  import opened RoomNames
  import opened CollabRegistries
  import opened CollabTickets
  import opened CollabAdmission

  /** The section of an issue that asks nothing of its surroundings. */
  const PLAIN: Event := IssueStep(Reads, "", 0)

  const LOOK: Event := AdmitStep(None, Reads)

  /** Nobody else acts in between. */
  predicate Silent(pauses: seq<seq<Event>>) {
    forall i :: 0 <= i < |pauses| ==> pauses[i] == []
  }

  /** The room of the grant can be had: the row reads, and is at the grant's epoch. */
  predicate RoomStands(epochs: map<int, int>, grant: Grant, reading: Reading) {
    reading.Reads? && EpochOf(epochs, grant.musicId) == grant.epoch && grant.room == RoomName(grant.musicId, grant.epoch)
  }

  /** What authorize asks for before it takes the slot. */
  predicate Welcome(s: System, grant: Grant, verified: Option<Claims>) {
    grant.room !in s.retiring && verified == Some(grant.claims) && s.gate.status == grant.producer
  }

  /** The epoch IssueTicket finds or, after drift, begins. */
  function FoundEpoch(epochs: map<int, int>, musicId: int, first: Reading): int {
    if first.Reads? then EpochOf(epochs, musicId) else if musicId in epochs then epochs[musicId] + 1 else 1
  }

  predicate RowFound(first: Reading, replacing: Reading, second: Reading) {
    first.Reads? || (first.Drifts? && replacing.Reads? && second.Reads?)
  }

  /** A new ticket finds room beside those that count: not the expired ones, nor
      the song's after a replacement. */
  predicate TicketFits(s: System, musicId: int, first: Reading, value: string, now: int) {
    && |Unexpired(if first.Reads? then s.tickets else WithoutSong(s.tickets, musicId), now)| < MAX_TICKETS
    && value !in s.drawn && value != ""
  }

  predicate Issuable(s: System, draft: Draft, first: Reading, replacing: Reading, second: Reading, value: string, now: int) {
    s.gate.status == draft.producer && RowFound(first, replacing, second) && TicketFits(s, draft.musicId, first, value, now)
  }

  /** The connection counted last is the grant's. */
  predicate LastIsOf(connections: seq<Connection>, grant: Grant) {
    connections != [] && connections[|connections| - 1] == ConnectionOf(grant, connections[|connections| - 1].handle)
  }

  predicate Admissible(s: System, grant: Grant, verified: Option<Claims>, reading: Reading) {
    Welcome(s, grant, verified) && !grant.producer.running && RoomStands(s.epochs, grant, reading)
  }

  class Service {
    const gate: GateObject
    var tickets: map<string, Grant>
    var retiring: set<string>
    var active: Counts
    var userRooms: map<string, Counts>
    var epochs: map<int, int>
    var op: Op
    var waiting: map<string, Grant>
    var connections: seq<Connection>
    // what has happened, which no decision reads
    var drawn: set<string>
    var admitted: seq<string>
    var taken: set<nat>

    function State(): System
      reads this, gate
    {
      System(tickets, retiring, Registry(active, userRooms), gate.State(), epochs, op, waiting, connections, drawn, admitted, taken)
    }

    constructor (instanceId: string)
      ensures State() == Initial(instanceId) && fresh(gate)
    {
      gate := new GateObject(instanceId);
      tickets, retiring, active, userRooms := map[], {}, map[], map[];
      epochs, op, waiting, connections, drawn, admitted, taken := map[], Free, map[], [], {}, [], {};
    }

    /** What other callers do while this one is between two locked sections. */
    method Others(events: seq<Event>)
      modifies this, gate
      ensures State() == Run(old(State()), events)
    {
      var s := Run(State(), events);
      gate.Become(s.gate);
      tickets, retiring, epochs, op, waiting, connections := s.tickets, s.retiring, s.epochs, s.op, s.waiting, s.connections;
      active, userRooms := s.registry.active, s.registry.userRooms;
      drawn, admitted, taken := s.drawn, s.admitted, s.taken;
    }

    // ---- registries ----

    method TrackConnection(room: string, username: string)
      modifies this`active, this`userRooms
      ensures Registry(active, userRooms) == Track(old(Registry(active, userRooms)), room, username)
    {
      active := active[room := (if room in active then active[room] else 0) + 1];
      var rooms := if username in userRooms then userRooms[username] else map[];
      rooms := rooms[room := (if room in rooms then rooms[room] else 0) + 1];
      userRooms := userRooms[username := rooms];
    }

    method UntrackConnection(room: string, username: string)
      modifies this`active, this`userRooms
      ensures Registry(active, userRooms) == Untrack(old(Registry(active, userRooms)), room, username)
    {
      if room !in active || active[room] <= 1 {
        active := active - {room};
      } else {
        active := active[room := active[room] - 1];
      }
      if username in userRooms {
        var rooms := userRooms[username];
        if room !in rooms || rooms[room] <= 1 {
          rooms := rooms - {room};
        } else {
          rooms := rooms[room := rooms[room] - 1];
        }
        if rooms == map[] {
          userRooms := userRooms - {username};
        } else {
          userRooms := userRooms[username := rooms];
        }
      }
    }

    // ---- the ticket map ----

    method BeginRetiringRoom(room: string, musicId: int)
      requires op == Maintaining(None)
      modifies this`op, this`retiring, this`tickets
      ensures State() == Next(old(State()), Freeze(room, musicId))
    {
      op := Maintaining(Some(room));
      retiring := retiring + {room};
      InvalidateTickets(musicId);
    }

    method InvalidateTickets(musicId: int)
      modifies this`tickets
      ensures tickets == WithoutSong(old(tickets), musicId)
    {
      tickets := map t | t in tickets && tickets[t].musicId != musicId :: tickets[t];
    }

    /** The first locked section of authorize, and the checks that need no lock. */
    method ConsumeTicket(values: seq<string>, wellFormed: bool, pathMusicId: Option<int>, now: int) returns (found: Option<Grant>)
      modifies this`tickets, this`waiting
      ensures State() == Next(old(State()), Consume(values, wellFormed, pathMusicId, now))
      ensures found == if Presentable(old(tickets), values, wellFormed, pathMusicId, now) then Some(old(tickets)[values[0]]) else None
    {
      found := None;
      ghost var before := tickets;
      for i := 0 to |values|
        invariant tickets == Consumed(before, values[..i]) && waiting == old(waiting)
        invariant found == if i == 1 && |values| == 1 && values[0] != "" && values[0] in before then Some(before[values[0]]) else None
      {
        var candidate := values[i];
        assert values[..i + 1] == values[..i] + [candidate];
        if candidate != "" && candidate in tickets {
          if |values| == 1 {
            found := Some(tickets[candidate]);
          }
          tickets := tickets - {candidate};
        }
      }
      assert values[..|values|] == values;
      if !wellFormed || |values| != 1 || found.None? || exists i :: 0 <= i < |values[0]| && Blank(values[0][i]) {
        return None;
      }
      if found.value.expiresAt <= now || pathMusicId != Some(found.value.musicId) {
        return None;
      }
      waiting := waiting[values[0] := found.value];
    }

    // ---- rows ----

    /** ensureRoom: the row's epoch, when there is no error and no drift. */
    method EnsureRoomRow(musicId: int, reading: Reading) returns (epoch: Option<int>)
      modifies this`epochs
      ensures reading.Reads? ==> epoch == Some(EpochOf(old(epochs), musicId)) && epochs == Ensured(old(State()), musicId).epochs
      ensures !reading.Reads? ==> epoch == None && epochs == old(epochs)
    {
      if !reading.Reads? {
        return None;
      }
      if musicId !in epochs {
        epochs := epochs[musicId := 1];
      }
      epoch := Some(epochs[musicId]);
    }

    // ---- IssueTicket ----

    method SeeGate() returns (ok: bool)
      requires op.Issuing? && op.issue.Begun?
      modifies this`op
      ensures State() == Next(old(State()), IssueStep(Reads, "", 0))
      ensures op == if ok then Issuing(old(op).draft, GateSeen) else Free
      ensures ok <==> gate.status == old(op).draft.producer
    {
      ok := gate.status == op.draft.producer;
      op := if ok then Issuing(op.draft, GateSeen) else Free;
    }

    method SeeRow(reading: Reading) returns (epoch: Option<int>)
      requires op.Issuing? && (op.issue.GateSeen? || op.issue.Cleared?)
      modifies this`op, this`epochs
      ensures State() == Next(old(State()), IssueStep(reading, "", 0))
      ensures epoch == if reading.Reads? then Some(EpochOf(old(epochs), old(op).draft.musicId)) else None
      ensures epoch.Some? ==> op == Issuing(old(op).draft, RoomSeen(epoch.value))
      ensures epoch.None? ==> op == if reading.Drifts? && old(op).issue.GateSeen? then Issuing(old(op).draft, Drifted) else Free
    {
      epoch := EnsureRoomRow(op.draft.musicId, reading);
      if epoch.Some? {
        op := Issuing(op.draft, RoomSeen(epoch.value));
      } else if reading.Drifts? && op.issue.GateSeen? {
        op := Issuing(op.draft, Drifted);
      } else {
        op := Free;
      }
    }

    /** The transaction of replaceFromAuthoritative. */
    method ReplaceRow(reading: Reading) returns (ok: bool)
      requires op.Issuing? && op.issue.Drifted?
      modifies this`op, this`epochs
      ensures State() == Next(old(State()), IssueStep(reading, "", 0))
      ensures op == if ok then Issuing(old(op).draft, Replaced) else Free
      ensures ok <==> reading.Reads?
      ensures ok ==> var id := op.draft.musicId; epochs == old(epochs)[id := FoundEpoch(old(epochs), id, Drifts)]
    {
      ok := reading.Reads?;
      if ok {
        var id := op.draft.musicId;
        epochs := epochs[id := (if id in epochs then epochs[id] else 0) + 1];
        op := Issuing(op.draft, Replaced);
      } else {
        op := Free;
      }
    }

    method ClearTickets()
      requires op.Issuing? && op.issue.Replaced?
      modifies this`op, this`tickets
      ensures State() == Next(old(State()), IssueStep(Reads, "", 0)) && op == Issuing(old(op).draft, Cleared)
      ensures tickets == WithoutSong(old(tickets), op.draft.musicId)
    {
      InvalidateTickets(op.draft.musicId);
      op := Issuing(op.draft, Cleared);
    }

    /** Expired tickets go first; a full map refuses. */
    method InsertGrant(value: string, now: int) returns (grant: Option<Grant>)
      requires op.Issuing? && op.issue.RoomSeen?
      modifies this`op, this`tickets, this`drawn
      ensures State() == Next(old(State()), IssueStep(Reads, value, now))
      ensures grant.Some? ==> value in tickets && value !in old(drawn) && tickets[value] == grant.value
                              && grant.value == GrantOf(old(op).draft, old(op).issue.epoch, now)
      ensures grant.Some? <==> |Unexpired(old(tickets), now)| < MAX_TICKETS && value !in old(drawn) && value != ""
      ensures grant.None? ==> tickets == Unexpired(old(tickets), now)
      ensures op.Free?
    {
      var draft, epoch := op.draft, op.issue.epoch;
      op := Free;
      tickets := map t | t in tickets && tickets[t].expiresAt > now :: tickets[t];
      // a value drawn before, or none, would be a failure of the random source
      if |tickets| >= MAX_TICKETS || value in drawn || value == "" {
        return None;
      }
      var g := Grant(draft.claims, draft.bearer, draft.musicId, epoch, RoomName(draft.musicId, epoch), draft.producer, now + TICKET_TTL);
      tickets := tickets[value := g];
      drawn := drawn + {value};
      grant := Some(g);
    }

    /** Between two sections of the mutex's holder. */
    method Pause(events: seq<Event>, ghost start: System, ghost ran: seq<Event>) returns (ghost after: seq<Event>)
      requires ByOthers(events) && (op.Issuing? || op.Admitting?) && State() == Run(start, ran) && Reachable(start)
      modifies this, gate
      ensures State() == Run(start, after) && op == old(op) && after == ran + events
      ensures events == [] ==> State() == old(State())
      ensures EditorGate.Inv(gate.State()) && (op.Admitting? ==> op.request.ticket !in admitted)
    {
      OthersKeepTheMutex(State(), events);
      RunConcat(start, ran, events);
      Others(events);
      after := ran + events;
      TicketNotAdmitted(start, after);
    }

    /** IssueTicket once the mutex is free for it. `pauses` are what others do
        before each of its sections, `ran` everything that happened, in order. */
    method Issue(claims: Claims, bearer: string, musicId: int, accepted: seq<EditorGate.Status>, verified: Option<Claims>,
                 first: Reading, replacing: Reading, second: Reading, value: string, now: int, pauses: seq<seq<Event>>)
        returns (grant: Option<Grant>, ghost ran: seq<Event>)
      requires op.Free? && Reachable(State()) && |pauses| == 6 && forall i :: 0 <= i < 6 ==> ByOthers(pauses[i])
      modifies this, gate
      ensures State() == Run(old(State()), ran) && op.Free?
      ensures [BeginIssue(claims, bearer, musicId, accepted, verified)] <= ran
      ensures grant.Some? ==>
                && value in tickets && tickets[value] == grant.value
                && |accepted| == 1 && grant.value == GrantOf(Draft(claims, bearer, musicId, accepted[0]), grant.value.epoch, now)
      ensures grant.Some? ==> verified == Some(claims) && bearer != "" && musicId > 0 && !accepted[0].running
      ensures Silent(pauses) ==>
                (grant.Some? <==>
                   && bearer != "" && musicId > 0 && verified == Some(claims) && |accepted| == 1 && !accepted[0].running
                   && Issuable(old(State()), Draft(claims, bearer, musicId, accepted[0]), first, replacing, second, value, now))
      ensures Silent(pauses) && grant.Some? ==> grant.value.epoch == FoundEpoch(old(epochs), musicId, first)
    {
      ghost var start := State();
      ghost var begin := BeginIssue(claims, bearer, musicId, accepted, verified);
      RunSnoc(start, [], begin);
      ran := [begin];
      assert [] + [begin] == ran;
      if bearer == "" || musicId <= 0 || verified != Some(claims) {
        return None, ran;
      }
      if |accepted| != 1 || accepted[0].running {
        return None, ran;
      }
      op := Issuing(Draft(claims, bearer, musicId, accepted[0]), Begun);
      grant, ran := IssueHeld(first, replacing, second, value, now, pauses, start, ran);
    }

    /** IssueTicket from its look at the gate to the ticket. */
    method IssueHeld(first: Reading, replacing: Reading, second: Reading, value: string, now: int, pauses: seq<seq<Event>>,
                     ghost start: System, ghost before: seq<Event>)
        returns (grant: Option<Grant>, ghost ran: seq<Event>)
      requires op.Issuing? && op.issue.Begun? && State() == Run(start, before) && Reachable(start)
      requires |pauses| == 6 && forall i :: 0 <= i < 6 ==> ByOthers(pauses[i])
      modifies this, gate
      ensures State() == Run(start, ran) && op.Free? && before <= ran
      ensures grant.Some? ==>
                value in tickets && tickets[value] == grant.value && grant.value == GrantOf(old(op).draft, grant.value.epoch, now)
      ensures Silent(pauses) ==>
                (grant.Some? <==> Issuable(old(State()), old(op).draft, first, replacing, second, value, now))
      ensures Silent(pauses) && grant.Some? ==>
                grant.value.epoch == FoundEpoch(old(epochs), old(op).draft.musicId, first)
    {
      var sameGate;
      sameGate, ran := LookAtProducer(pauses[0], pauses[1], start, before);
      if !sameGate {
        return None, ran;
      }
      grant, ran := IssueOnRow(first, replacing, second, value, now, pauses[2], pauses[3], pauses[4], pauses[5], start, ran);
    }

    method LookAtProducer(pause: seq<Event>, next: seq<Event>, ghost start: System, ghost before: seq<Event>)
        returns (ok: bool, ghost ran: seq<Event>)
      requires op.Issuing? && op.issue.Begun? && State() == Run(start, before) && Reachable(start) && ByOthers(pause) && ByOthers(next)
      modifies this, gate
      ensures State() == Run(start, ran) && before <= ran && op == if ok then Issuing(old(op).draft, GateSeen) else Free
      ensures pause == [] && next == [] ==>
                (ok <==> old(gate.status) == old(op).draft.producer) && State() == old(State()).(op := op)
    {
      ran := Pause(pause, start, before);
      RunSnoc(start, ran, PLAIN);
      ran := ran + [PLAIN];
      ok := SeeGate();
      if ok {
        ran := Pause(next, start, ran);
      }
    }

    /** The row, then the ticket. */
    method IssueOnRow(first: Reading, replacing: Reading, second: Reading, value: string, now: int, pause: seq<Event>, next: seq<Event>,
                      third: seq<Event>, last: seq<Event>, ghost start: System, ghost before: seq<Event>)
        returns (grant: Option<Grant>, ghost ran: seq<Event>)
      requires op.Issuing? && op.issue.GateSeen? && State() == Run(start, before) && Reachable(start)
      requires ByOthers(pause) && ByOthers(next) && ByOthers(third) && ByOthers(last)
      modifies this, gate
      ensures State() == Run(start, ran) && op.Free? && before <= ran
      ensures grant.Some? ==>
                value in tickets && tickets[value] == grant.value && grant.value == GrantOf(old(op).draft, grant.value.epoch, now)
      ensures pause == [] && next == [] && third == [] && last == [] ==>
                && (grant.Some? <==> RowFound(first, replacing, second) && TicketFits(old(State()), old(op).draft.musicId, first, value, now))
                && (grant.Some? ==> grant.value.epoch == FoundEpoch(old(epochs), old(op).draft.musicId, first))
    {
      var rowed;
      rowed, ran := FindRow(first, replacing, second, pause, next, third, start, before);
      if !rowed {
        return None, ran;
      }
      ran := Pause(last, start, ran);
      RunSnoc(start, ran, IssueStep(Reads, value, now));
      ran := ran + [IssueStep(Reads, value, now)];
      grant := InsertGrant(value, now);
    }

    /** ensureRoom, with the replacement and the second look after a drift. */
    method FindRow(first: Reading, replacing: Reading, second: Reading, pause: seq<Event>, next: seq<Event>, last: seq<Event>, ghost start: System, ghost before: seq<Event>)
        returns (found: bool, ghost ran: seq<Event>)
      requires op.Issuing? && op.issue.GateSeen? && State() == Run(start, before) && Reachable(start)
      requires ByOthers(pause) && ByOthers(next) && ByOthers(last)
      modifies this, gate
      ensures State() == Run(start, ran) && before <= ran
      ensures if found then op.Issuing? && op.draft == old(op).draft && op.issue.RoomSeen? else op.Free?
      ensures pause == [] && next == [] && last == [] ==> (found <==> RowFound(first, replacing, second))
      ensures pause == [] && next == [] && last == [] && found ==>
                && op.issue.epoch == FoundEpoch(old(epochs), op.draft.musicId, first) && drawn == old(drawn)
                && tickets == if first.Reads? then old(tickets) else WithoutSong(old(tickets), op.draft.musicId)
    {
      RunSnoc(start, before, IssueStep(first, "", 0));
      ran := before + [IssueStep(first, "", 0)];
      var epoch := SeeRow(first);
      if epoch.Some? || op.Free? {
        return epoch.Some?, ran;
      }
      found, ran := ReplaceDrifted(replacing, second, pause, next, last, start, ran);
    }

    /** replaceFromAuthoritativeLocked and the second ensureRoom. */
    method ReplaceDrifted(replacing: Reading, second: Reading, pause: seq<Event>, next: seq<Event>, last: seq<Event>, ghost start: System, ghost before: seq<Event>)
        returns (found: bool, ghost ran: seq<Event>)
      requires op.Issuing? && op.issue.Drifted? && State() == Run(start, before) && Reachable(start)
      requires ByOthers(pause) && ByOthers(next) && ByOthers(last)
      modifies this, gate
      ensures State() == Run(start, ran) && before <= ran
      ensures if found then op.Issuing? && op.draft == old(op).draft && op.issue.RoomSeen? else op.Free?
      ensures pause == [] && next == [] && last == [] ==> (found <==> replacing.Reads? && second.Reads?)
      ensures pause == [] && next == [] && last == [] && found ==>
                && op.issue.epoch == FoundEpoch(old(epochs), op.draft.musicId, Drifts) && drawn == old(drawn)
                && tickets == WithoutSong(old(tickets), op.draft.musicId)
    {
      ran := Pause(pause, start, before);
      RunSnoc(start, ran, IssueStep(replacing, "", 0));
      ran := ran + [IssueStep(replacing, "", 0)];
      var replaced := ReplaceRow(replacing);
      if !replaced {
        return false, ran;
      }
      found, ran := LookAgain(second, next, last, start, ran);
    }

    method LookAgain(second: Reading, pause: seq<Event>, last: seq<Event>, ghost start: System, ghost before: seq<Event>)
        returns (found: bool, ghost ran: seq<Event>)
      requires op.Issuing? && op.issue.Replaced? && State() == Run(start, before) && Reachable(start) && ByOthers(pause) && ByOthers(last)
      modifies this, gate
      ensures State() == Run(start, ran) && before <= ran
      ensures if found then op.Issuing? && op.draft == old(op).draft && op.issue.RoomSeen? else op.Free?
      ensures pause == [] && last == [] ==> (found <==> second.Reads?)
      ensures pause == [] && last == [] && found ==>
                && op.issue.epoch == EpochOf(old(epochs), op.draft.musicId) && drawn == old(drawn)
                && tickets == WithoutSong(old(tickets), op.draft.musicId)
    {
      ran := ClearAfter(pause, start, before);
      found, ran := SeeRowAfter(second, last, start, ran);
    }

    method ClearAfter(pause: seq<Event>, ghost start: System, ghost before: seq<Event>) returns (ghost ran: seq<Event>)
      requires op.Issuing? && op.issue.Replaced? && State() == Run(start, before) && Reachable(start) && ByOthers(pause)
      modifies this, gate
      ensures State() == Run(start, ran) && before <= ran && op == Issuing(old(op).draft, Cleared)
      ensures pause == [] ==> tickets == WithoutSong(old(tickets), op.draft.musicId) && epochs == old(epochs) && drawn == old(drawn)
    {
      ran := Pause(pause, start, before);
      RunSnoc(start, ran, PLAIN);
      ran := ran + [PLAIN];
      ClearTickets();
    }

    method SeeRowAfter(reading: Reading, pause: seq<Event>, ghost start: System, ghost before: seq<Event>)
        returns (found: bool, ghost ran: seq<Event>)
      requires op.Issuing? && op.issue.Cleared? && State() == Run(start, before) && Reachable(start) && ByOthers(pause)
      modifies this, gate
      ensures State() == Run(start, ran) && before <= ran && (found <==> reading.Reads?)
      ensures if found then op.Issuing? && op.draft == old(op).draft && op.issue.RoomSeen? else op.Free?
      ensures pause == [] ==> tickets == old(tickets) && drawn == old(drawn)
      ensures pause == [] && found ==> op.issue.epoch == EpochOf(old(epochs), op.draft.musicId)
    {
      ran := Pause(pause, start, before);
      RunSnoc(start, ran, IssueStep(reading, "", 0));
      ran := ran + [IssueStep(reading, "", 0)];
      var epoch := SeeRow(reading);
      found := epoch.Some?;
    }

    // ---- authorize, under the mutex ----

    method SeeRetiring() returns (ok: bool)
      requires op.Admitting? && op.admit.Locked?
      modifies this`op
      ensures State() == Next(old(State()), AdmitStep(None, Reads))
      ensures op == if ok then Admitting(old(op).request, NotRetiring) else Free
      ensures ok <==> old(op).request.grant.room !in retiring
    {
      ok := op.request.grant.room !in retiring;
      op := if ok then Admitting(op.request, NotRetiring) else Free;
    }

    method SeeBearer(verified: Option<Claims>) returns (ok: bool)
      requires op.Admitting? && op.admit.NotRetiring?
      modifies this`op
      ensures State() == Next(old(State()), AdmitStep(verified, Reads))
      ensures op == if ok then Admitting(old(op).request, BearerSeen) else Free
      ensures ok <==> verified == Some(old(op).request.grant.claims)
    {
      var claims := op.request.grant.claims;
      ok := verified.Some? && verified.value.username == claims.username && verified.value.role == claims.role
        && verified.value.tokenVersion == claims.tokenVersion;
      op := if ok then Admitting(op.request, BearerSeen) else Free;
    }

    method SeeStatus() returns (ok: bool)
      requires op.Admitting? && op.admit.BearerSeen?
      modifies this`op
      ensures State() == Next(old(State()), AdmitStep(None, Reads))
      ensures op == if ok then Admitting(old(op).request, StatusSeen) else Free
      ensures ok <==> gate.status == old(op).request.grant.producer
    {
      ok := gate.status == op.request.grant.producer;
      op := if ok then Admitting(op.request, StatusSeen) else Free;
    }

    /** BeginStrictEditor, then the comparison of the status it returned. */
    method TakeStrictSlot() returns (ok: bool)
      requires op.Admitting? && op.admit.StatusSeen?
      modifies this`op, this`taken, gate
      ensures State() == Next(old(State()), AdmitStep(None, Reads))
      ensures op == if ok then Admitting(old(op).request, SlotTaken(old(gate.issued))) else Free
      ensures ok <==> old(gate.status) == old(op).request.grant.producer && !old(gate.status).running
    {
      var request := op.request;
      var producer := request.grant.producer;
      var handle, accepted := gate.BeginStrictEditor(producer.instanceId, producer.revision, producer.completedGeneration);
      if handle.Some? {
        taken := taken + {handle.value};
      }
      ok := handle.Some? && accepted == producer;
      op := if ok then Admitting(request, SlotTaken(handle.value)) else Free;
    }

    method SeeRoom(reading: Reading) returns (ok: bool)
      requires op.Admitting? && op.admit.SlotTaken?
      modifies this`op, this`epochs
      ensures State() == Next(old(State()), AdmitStep(None, reading))
      ensures op == Admitting(old(op).request, if ok then RoomRead(old(op).admit.handle) else Refusing(old(op).admit.handle))
      ensures ok <==> RoomStands(old(epochs), old(op).request.grant, reading)
    {
      var grant, handle := op.request.grant, op.admit.handle;
      var epoch := EnsureRoomRow(grant.musicId, reading);
      ok := epoch.Some? && epoch.value == grant.epoch && RoomName(grant.musicId, epoch.value) == grant.room;
      op := Admitting(op.request, if ok then RoomRead(handle) else Refusing(handle));
    }

    /** The deferred release of a refused request. */
    method GiveBack()
      requires op.Admitting? && op.admit.Refusing? && EditorGate.Inv(gate.State())
      modifies this`op, gate
      ensures State() == Next(old(State()), AdmitStep(None, Reads)) && op.Free?
    {
      gate.Release(op.admit.handle);
      op := Free;
    }

    method AdmitConnection()
      requires op.Admitting? && op.admit.RoomRead?
      modifies this`op, this`active, this`userRooms, this`connections, this`admitted
      ensures State() == Next(old(State()), AdmitStep(None, Reads)) && op.Free?
      ensures connections == old(connections) + [ConnectionOf(old(op).request.grant, old(op).admit.handle)]
      ensures admitted == old(admitted) + [old(op).request.ticket]
    {
      var request, handle := op.request, op.admit.handle;
      var grant := request.grant;
      connections := connections + [Connection(grant.musicId, grant.epoch, grant.room, grant.claims.username, handle, true)];
      admitted := admitted + [request.ticket];
      TrackConnection(grant.room, grant.claims.username);
      op := Free;
    }

    /** The three looks before the slot. */
    method LookAround(verified: Option<Claims>, pause: seq<Event>, next: seq<Event>, last: seq<Event>, ghost start: System,
                      ghost before: seq<Event>) returns (ok: bool, ghost ran: seq<Event>)
      requires op.Admitting? && op.admit.Locked? && State() == Run(start, before) && Reachable(start)
      requires ByOthers(pause) && ByOthers(next) && ByOthers(last)
      modifies this, gate
      ensures State() == Run(start, ran) && before <= ran && old(op).request.ticket !in admitted
      ensures op == if ok then Admitting(old(op).request, StatusSeen) else Free
      ensures ok ==> verified == Some(old(op).request.grant.claims)
      ensures pause == [] && next == [] && last == [] ==>
                (ok <==> Welcome(old(State()), old(op).request.grant, verified)) && State() == old(State()).(op := op)
    {
      ran := Pause(pause, start, before);
      RunSnoc(start, ran, LOOK);
      ran := ran + [LOOK];
      ok := SeeRetiring();
      if ok {
        ok, ran := LookAtBearer(verified, next, last, start, ran);
      }
    }

    method LookAtBearer(verified: Option<Claims>, pause: seq<Event>, last: seq<Event>, ghost start: System, ghost before: seq<Event>)
        returns (ok: bool, ghost ran: seq<Event>)
      requires op.Admitting? && op.admit.NotRetiring? && State() == Run(start, before) && Reachable(start)
      requires ByOthers(pause) && ByOthers(last)
      modifies this, gate
      ensures State() == Run(start, ran) && before <= ran && old(op).request.ticket !in admitted
      ensures op == if ok then Admitting(old(op).request, StatusSeen) else Free
      ensures ok ==> verified == Some(old(op).request.grant.claims)
      ensures pause == [] && last == [] ==>
                && (ok <==> verified == Some(old(op).request.grant.claims) && old(gate.status) == old(op).request.grant.producer)
                && State() == old(State()).(op := op)
    {
      ran := Pause(pause, start, before);
      RunSnoc(start, ran, AdmitStep(verified, Reads));
      ran := ran + [AdmitStep(verified, Reads)];
      ok := SeeBearer(verified);
      if ok {
        ok, ran := LookAtGate(last, start, ran);
      }
    }

    method LookAtGate(pause: seq<Event>, ghost start: System, ghost before: seq<Event>) returns (ok: bool, ghost ran: seq<Event>)
      requires op.Admitting? && op.admit.BearerSeen? && State() == Run(start, before) && Reachable(start) && ByOthers(pause)
      modifies this, gate
      ensures State() == Run(start, ran) && before <= ran && old(op).request.ticket !in admitted
      ensures op == if ok then Admitting(old(op).request, StatusSeen) else Free
      ensures pause == [] ==> (ok <==> old(gate.status) == old(op).request.grant.producer) && State() == old(State()).(op := op)
    {
      ran := Pause(pause, start, before);
      RunSnoc(start, ran, LOOK);
      ran := ran + [LOOK];
      ok := SeeStatus();
    }

    method TakeSlotAfter(pause: seq<Event>, ghost start: System, ghost before: seq<Event>) returns (ok: bool, ghost ran: seq<Event>)
      requires op.Admitting? && op.admit.StatusSeen? && State() == Run(start, before) && Reachable(start) && ByOthers(pause)
      modifies this, gate
      ensures State() == Run(start, ran) && before <= ran && old(op).request.ticket !in admitted
      ensures if ok then op.Admitting? && op.request == old(op).request && op.admit.SlotTaken? else op.Free?
      ensures pause == [] ==>
                && (ok <==> old(gate.status) == old(op).request.grant.producer && !old(gate.status).running) && epochs == old(epochs)
    {
      ran := Pause(pause, start, before);
      RunSnoc(start, ran, LOOK);
      ran := ran + [LOOK];
      ok := TakeStrictSlot();
    }

    /** BeginStrictEditor, and what follows when it admits. */
    method AdmitUnderSlot(reading: Reading, pause: seq<Event>, next: seq<Event>, last: seq<Event>, ghost start: System, ghost before: seq<Event>)
        returns (ok: bool, ghost ran: seq<Event>)
      requires op.Admitting? && op.admit.StatusSeen? && State() == Run(start, before) && Reachable(start)
      requires ByOthers(pause) && ByOthers(next) && ByOthers(last)
      modifies this, gate
      ensures State() == Run(start, ran) && op.Free? && before <= ran
      ensures ok <==> old(op).request.ticket in admitted
      ensures ok ==> LastIsOf(connections, old(op).request.grant)
      ensures ok ==> reading.Reads?
      ensures pause == [] && next == [] && last == [] ==>
                (ok <==> var grant := old(op).request.grant;
                         old(gate.status) == grant.producer && !grant.producer.running && RoomStands(old(epochs), grant, reading))
    {
      ok, ran := TakeSlotAfter(pause, start, before);
      if ok {
        ok, ran := SettleSlot(reading, next, last, start, ran);
      }
    }

    /** From the slot to the connection, or to the slot's return. */
    method SettleSlot(reading: Reading, pause: seq<Event>, last: seq<Event>, ghost start: System, ghost before: seq<Event>)
        returns (ok: bool, ghost ran: seq<Event>)
      requires op.Admitting? && op.admit.SlotTaken? && State() == Run(start, before) && Reachable(start)
      requires ByOthers(pause) && ByOthers(last)
      modifies this, gate
      ensures State() == Run(start, ran) && op.Free? && before <= ran
      ensures ok <==> old(op).request.ticket in admitted
      ensures ok ==> LastIsOf(connections, old(op).request.grant)
      ensures ok ==> reading.Reads?
      ensures pause == [] ==> (ok <==> RoomStands(old(epochs), old(op).request.grant, reading))
    {
      ran := Pause(pause, start, before);
      RunSnoc(start, ran, AdmitStep(None, reading));
      ran := ran + [AdmitStep(None, reading)];
      ok := SeeRoom(reading);
      ran := Conclude(ok, last, start, ran);
    }

    /** The connection is counted, or the slot given back. */
    method Conclude(ok: bool, pause: seq<Event>, ghost start: System, ghost before: seq<Event>) returns (ghost ran: seq<Event>)
      requires op.Admitting? && (if ok then op.admit.RoomRead? else op.admit.Refusing?)
      requires State() == Run(start, before) && Reachable(start) && ByOthers(pause)
      modifies this, gate
      ensures State() == Run(start, ran) && op.Free? && before <= ran
      ensures ok <==> old(op).request.ticket in admitted
      ensures ok ==> LastIsOf(connections, old(op).request.grant)
    {
      ran := Pause(pause, start, before);
      RunSnoc(start, ran, LOOK);
      ran := ran + [LOOK];
      if ok {
        AdmitConnection();
      } else {
        GiveBack();
      }
    }

    /** authorize, for a request that ServeHTTP gave a capture. `queue` is what
        others do before the mutex is free for it; None when it still is not.
        No other request has this one's ticket. */
    method Authorize(values: seq<string>, wellFormed: bool, pathMusicId: Option<int>, now: int, queue: seq<Event>,
                     verified: Option<Claims>, reading: Reading, pauses: seq<seq<Event>>) returns (r: Option<bool>, ghost ran: seq<Event>)
      requires Reachable(State())
      requires forall i :: 0 <= i < |queue| ==> !(queue[i].BeginAdmit? && queue[i].ticket in values)
      requires |pauses| == 6 && forall i :: 0 <= i < 6 ==> ByOthers(pauses[i])
      modifies this, gate
      ensures State() == Run(old(State()), ran) && [Consume(values, wellFormed, pathMusicId, now)] <= ran
      ensures r == Some(true) ==>
                && Presentable(old(tickets), values, wellFormed, pathMusicId, now) && values[0] in admitted && op.Free?
                && LastIsOf(connections, old(tickets)[values[0]])
      ensures r == Some(true) ==> verified == Some(old(tickets)[values[0]].claims) && reading.Reads?
      ensures queue == [] && Silent(pauses) && old(op).Free? ==>
                r == Some(Presentable(old(tickets), values, wellFormed, pathMusicId, now)
                          && Admissible(old(State()), old(tickets)[values[0]], verified, reading))
      ensures r != Some(true) && |values| == 1 && values[0] in old(tickets) ==> values[0] !in admitted
    {
      ghost var start := State();
      ghost var consume := Consume(values, wellFormed, pathMusicId, now);
      RunSnoc(start, [], consume);
      ran := [consume];
      assert [] + [consume] == ran;
      KnownNotAdmitted(start);
      var found := ConsumeTicket(values, wellFormed, pathMusicId, now);
      if found.None? {
        return Some(false), ran;
      }
      ran := Queue(values[0], queue, start, ran);
      if !op.Free? {
        return None, ran;
      }
      var ok;
      ok, ran := AdmitWaiting(values[0], found.value, verified, reading, pauses, start, ran);
      r := Some(ok);
    }

    /** The wait for the mutex. */
    method Queue(ticket: string, queue: seq<Event>, ghost start: System, ghost before: seq<Event>) returns (ghost ran: seq<Event>)
      requires State() == Run(start, before) && Reachable(start) && ticket in waiting
      requires forall i :: 0 <= i < |queue| ==> !(queue[i].BeginAdmit? && queue[i].ticket == ticket)
      modifies this, gate
      ensures State() == Run(start, ran) && before <= ran
      ensures queue == [] ==> State() == old(State())
      ensures ticket in waiting && waiting[ticket] == old(waiting[ticket]) && ticket !in admitted
    {
      ReachableRun(start, before);
      WaitingStays(State(), queue, ticket);
      WaitingIsConsumed(State(), queue, ticket);
      RunConcat(start, before, queue);
      Others(queue);
      ran := before + queue;
    }

    method Enter(ticket: string, grant: Grant, ghost start: System, ghost before: seq<Event>) returns (ghost ran: seq<Event>)
      requires op.Free? && ticket in waiting && waiting[ticket] == grant && State() == Run(start, before)
      modifies this`op, this`waiting
      ensures State() == Run(start, ran) && before <= ran && op == Admitting(Request(ticket, grant), Locked)
    {
      RunSnoc(start, before, BeginAdmit(ticket));
      ran := before + [BeginAdmit(ticket)];
      op := Admitting(Request(ticket, grant), Locked);
      waiting := waiting - {ticket};
    }

    /** authorize from the moment it gets the mutex. */
    method AdmitWaiting(ticket: string, grant: Grant, verified: Option<Claims>, reading: Reading, pauses: seq<seq<Event>>,
                        ghost start: System, ghost before: seq<Event>) returns (ok: bool, ghost ran: seq<Event>)
      requires op.Free? && ticket in waiting && waiting[ticket] == grant && State() == Run(start, before) && Reachable(start)
      requires |pauses| == 6 && forall i :: 0 <= i < 6 ==> ByOthers(pauses[i])
      modifies this, gate
      ensures State() == Run(start, ran) && op.Free? && before <= ran
      ensures ok <==> ticket in admitted
      ensures ok ==> verified == Some(grant.claims) && reading.Reads?
      ensures Silent(pauses) ==> (ok <==> Admissible(old(State()), grant, verified, reading))
      ensures ok ==> LastIsOf(connections, grant)
    {
      ran := Enter(ticket, grant, start, before);
      ok, ran := LookAround(verified, pauses[0], pauses[1], pauses[2], start, ran);
      if ok {
        ok, ran := AdmitUnderSlot(reading, pauses[3], pauses[4], pauses[5], start, ran);
      }
    }

    // ---- ServeHTTP after the connection ended ----

    method HangUpConnection(index: nat)
      requires index < |connections| && EditorGate.Inv(gate.State())
      modifies this`connections, gate
      ensures State() == Next(old(State()), Hangup(index))
    {
      var c := connections[index];
      if c.open {
        gate.Release(c.handle);
        connections := connections[index := c.(open := false)];
      }
    }

    method ForgetConnectionAt(index: nat)
      requires index < |connections|
      modifies this`connections, this`active, this`userRooms
      ensures State() == Next(old(State()), Forget(index))
    {
      var c := connections[index];
      if !c.open {
        connections := connections[..index] + connections[index + 1..];
        UntrackConnection(c.room, c.username);
      }
    }
  }

  /** Others cannot move the mutex's holder. */
  lemma {:induction false} OthersKeepTheMutex(s: System, events: seq<Event>)
    requires ByOthers(events) && (s.op.Issuing? || s.op.Admitting?)
    ensures Run(s, events).op == s.op
  {
    if events != [] {
      OthersKeepTheMutex(s, events[..|events| - 1]);
      OthersKeepOp(Run(s, events[..|events| - 1]), events[|events| - 1]);
    }
  }

  lemma OthersKeepOp(s: System, event: Event)
    requires (s.op.Issuing? || s.op.Admitting?) && !event.IssueStep? && !event.AdmitStep?
    ensures Next(s, event).op == s.op
  {}

  lemma HoldKeepsWaiting(s: System, event: Event)
    ensures Hold(s, event).waiting == s.waiting
  {
    match s.op
    case Issuing(_, _) =>
    case Admitting(_, _) =>
    case Maintaining(_) =>
    case Free =>
  }

  lemma ArriveKeepsWaiting(s: System, event: Event, ticket: string)
    requires ticket in s.waiting && ticket !in s.tickets && !(event.BeginAdmit? && event.ticket == ticket)
    ensures ticket in Arrive(s, event).waiting && Arrive(s, event).waiting[ticket] == s.waiting[ticket]
  {}

  /** A consumed ticket waits for its own request. */
  lemma WaitingStep(s: System, event: Event, ticket: string)
    requires ticket in s.waiting && ticket !in s.tickets && !(event.BeginAdmit? && event.ticket == ticket)
    ensures ticket in Next(s, event).waiting && Next(s, event).waiting[ticket] == s.waiting[ticket]
  {
    match KindOf(event)
    case Arriving => ArriveKeepsWaiting(s, event, ticket);
    case Held => HoldKeepsWaiting(s, event);
    case Outside =>
  }

  ghost predicate Reachable(s: System) {
    exists instanceId, events :: s == Run(Initial(instanceId), events)
  }

  lemma ReachableInv(s: System, events: seq<Event>)
    requires Reachable(s)
    ensures Inv(Run(s, events))
  {
    var instanceId, before :| s == Run(Initial(instanceId), before);
    RunKeepsInvariant(instanceId, before);
    RunKeepsInv(s, events);
  }

  lemma WaitingIsConsumed(s: System, events: seq<Event>, ticket: string)
    requires Reachable(s) && ticket in Run(s, events).waiting
    ensures ticket !in Run(s, events).tickets && ticket !in Run(s, events).admitted
  {
    ReachableInv(s, events);
    var t := Run(s, events);
    assert ticket in t.waiting.Keys && (ticket in t.tickets ==> ticket in t.tickets.Keys);
  }

  lemma ReachableRun(s: System, events: seq<Event>)
    requires Reachable(s)
    ensures Reachable(Run(s, events))
  {
    var instanceId, before :| s == Run(Initial(instanceId), before);
    RunConcat(Initial(instanceId), before, events);
  }

  lemma {:induction false} WaitingStays(s: System, events: seq<Event>, ticket: string)
    requires Reachable(s) && ticket in s.waiting
    requires forall i :: 0 <= i < |events| ==> !(events[i].BeginAdmit? && events[i].ticket == ticket)
    ensures var t := Run(s, events); ticket in t.waiting && t.waiting[ticket] == s.waiting[ticket]
  {
    if events != [] {
      var n := |events| - 1;
      WaitingStays(s, events[..n], ticket);
      WaitingIsConsumed(s, events[..n], ticket);
      WaitingStep(Run(s, events[..n]), events[n], ticket);
    }
  }

  lemma KnownNotAdmitted(s: System)
    requires Reachable(s)
    ensures forall t :: t in s.tickets ==> t !in s.admitted
  {
    ReachableInv(s, []);
    assert forall t :: t in s.tickets ==> t in s.tickets.Keys;
  }

  /** The ticket of the admission under way has not led to a connection. */
  lemma TicketNotAdmitted(s: System, events: seq<Event>)
    requires Reachable(s)
    ensures var t := Run(s, events);
            EditorGate.Inv(t.gate) && (t.op.Admitting? ==> t.op.request.ticket !in t.admitted)
  {
    ReachableInv(s, events);
    var t := Run(s, events);
    assert t.op.Admitting? ==> t.op.request.ticket in OpTicket(t.op);
  }
}
