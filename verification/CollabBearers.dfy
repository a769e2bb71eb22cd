/** What lies behind every connection, told by the events of its run: who asked
    for its ticket and when, how the ticket was presented, and that its bearer
    was verified again before the connection was counted (service.go). */
module CollabBearers {

  import opened Wrappers
  import opened RoomNames
  import opened CollabRegistries
  import opened CollabTickets

  /** The server before each event of a run, and after the last. */
  function Trace(instanceId: string, events: seq<Event>): (states: seq<System>)
    ensures |states| == |events| + 1
  {
    if events == [] then [Initial(instanceId)]
    else
      var n := |events| - 1;
      var before := Trace(instanceId, events[..n]);
      before + [Next(before[n], events[n])]
  }

  predicate Goes(states: seq<System>, events: seq<Event>, n: nat)
    requires |states| == |events| + 1 && n < |events|
  {
    states[n + 1] == Next(states[n], events[n])
  }

  /** A run of the server: it starts anew and goes step by step. */
  predicate Told(states: seq<System>, events: seq<Event>) {
    && |states| == |events| + 1
    && states[0] == Initial(states[0].gate.status.instanceId)
    && forall n :: 0 <= n < |events| ==> Goes(states, events, n)
  }

  lemma ToldOn(states: seq<System>, events: seq<Event>, e: Event)
    requires Told(states, events)
    ensures Told(states + [Next(states[|events|], e)], events + [e])
  {
    var states', events' := states + [Next(states[|events|], e)], events + [e];
    forall n | 0 <= n < |events'| ensures Goes(states', events', n) {
      if n < |events| {
        assert Goes(states, events, n);
      }
    }
  }

  lemma {:induction false} TraceIsTold(instanceId: string, events: seq<Event>)
    ensures var states := Trace(instanceId, events);
            Told(states, events) && states[|events|] == Run(Initial(instanceId), events)
  {
    if events != [] {
      var init, last := events[..|events| - 1], events[|events| - 1];
      TraceIsTold(instanceId, init);
      ToldOn(Trace(instanceId, init), init, last);
      assert events == init + [last];
    }
  }

  // ---- the chapters of a connection's story ----

  /** From event b on, an issue for this draft has the mutex: its caller's bearer
      was verified to be the caller's. */
  ghost predicate Asked(states: seq<System>, events: seq<Event>, b: nat, n: nat, draft: Draft)
    requires |states| == |events| + 1 && n <= |events|
  {
    && b < n && states[b].op.Free?
    && events[b] == BeginIssue(draft.claims, draft.bearer, draft.musicId, [draft.producer], Some(draft.claims))
    && forall m :: b < m <= n ==> states[m].op.Issuing? && states[m].op.draft == draft
  }

  /** Event i hands out the ticket, for the lifetime and the room of its grant. */
  ghost predicate HandsOut(states: seq<System>, events: seq<Event>, i: nat, ticket: string, grant: Grant)
    requires |states| == |events| + 1 && i < |events|
  {
    && events[i].IssueStep? && events[i].value == ticket && grant.expiresAt == events[i].now + TICKET_TTL
    && grant.room == RoomName(grant.musicId, grant.epoch)
    && ticket !in states[i].drawn
  }

  ghost predicate Issued(states: seq<System>, events: seq<Event>, b: nat, i: nat, ticket: string, grant: Grant)
    requires |states| == |events| + 1 && i < |events|
  {
    && Asked(states, events, b, i, Draft(grant.claims, grant.bearer, grant.musicId, grant.producer))
    && HandsOut(states, events, i, ticket, grant)
  }

  /** Event c presents the ticket alone, in time and on its song's path. */
  predicate Presents(events: seq<Event>, c: nat, ticket: string, grant: Grant)
    requires c < |events|
  {
    && events[c].Consume? && events[c].values == [ticket] && events[c].wellFormed
    && events[c].pathMusicId == Some(grant.musicId) && events[c].now < grant.expiresAt
  }

  /** From event k on, the request with this ticket has the mutex. */
  ghost predicate Enters(states: seq<System>, events: seq<Event>, k: nat, n: nat, request: Request)
    requires |states| == |events| + 1 && n <= |events|
  {
    && k < n && states[k].op.Free? && events[k] == BeginAdmit(request.ticket)
    && forall m :: k < m <= n ==> states[m].op.Admitting? && states[m].op.request == request
  }

  /** Event v is the answer to the request's verification of its bearer: that the
      bearer is good, and for just the claims the ticket was issued for. */
  ghost predicate Verifies(states: seq<System>, events: seq<Event>, v: nat, claims: Claims)
    requires |states| == |events| + 1 && v < |events|
  {
    && states[v].op.Admitting? && states[v].op.admit.NotRetiring?
    && events[v].AdmitStep? && events[v].verified == Some(claims)
  }

  /** Event n counts the connection and ends the request. */
  ghost predicate Seats(states: seq<System>, events: seq<Event>, n: nat, c: Connection)
    requires |states| == |events| + 1 && n < |events|
  {
    && events[n].AdmitStep? && states[n + 1].op.Free?
    && states[n + 1].connections == states[n].connections + [c]
  }

  ghost predicate Waited(states: seq<System>, events: seq<Event>, b: nat, i: nat, c: nat, ticket: string, grant: Grant)
    requires |states| == |events| + 1 && c < |events|
  {
    i < c && Issued(states, events, b, i, ticket, grant) && Presents(events, c, ticket, grant)
  }

  // ---- what one step can have done ----

  /** The ticket is this section's, issued for the draft at hand. */
  predicate Handing(s: System, e: Event, t: string, grant: Grant) {
    && s.op.Issuing? && s.op.draft == Draft(grant.claims, grant.bearer, grant.musicId, grant.producer)
    && e.IssueStep? && e.value == t && grant.expiresAt == e.now + TICKET_TTL
    && grant.room == RoomName(grant.musicId, grant.epoch) && t !in s.drawn
  }

  /** The request is this section's, and was verified if it is past that. */
  predicate Verifying(s: System, e: Event, request: Request) {
    && s.op.Admitting? && s.op.request == request
    && (Past(s.op.admit) || (s.op.admit.NotRetiring? && e.AdmitStep? && e.verified == Some(request.grant.claims)))
  }

  /** The connection is this section's. */
  predicate Seating(s: System, e: Event, c: Connection) {
    s.op.Admitting? && s.op.admit == RoomRead(c.handle) && e.AdmitStep? && c == ConnectionOf(s.op.request.grant, c.handle)
  }

  /** Past the verification. */
  predicate Past(stage: AdmitStage) {
    !stage.Locked? && !stage.NotRetiring?
  }

  lemma InsertMoves(s: System, value: string, now: int, t: string)
    requires s.op.Issuing? && s.op.issue.RoomSeen?
    ensures var s' := InsertTicket(s, value, now);
            && s' == s.(op := Free, tickets := s'.tickets, drawn := s'.drawn) && s.drawn <= s'.drawn
            && (t in s'.tickets && !(t in s.tickets && s'.tickets[t] == s.tickets[t]) ==>
                  value == t && t !in s.drawn && s'.tickets[t] == GrantOf(s.op.draft, s.op.issue.epoch, now))
  {}

  lemma IssueMoves(s: System, e: Event, t: string)
    requires s.op.Issuing? && e.IssueStep?
    ensures var s' := IssueNext(s, e.reading, e.value, e.now);
            && s'.waiting == s.waiting && s'.connections == s.connections && s'.admitted == s.admitted && s.drawn <= s'.drawn
            && (s'.op.Free? || (s'.op.Issuing? && s'.op.draft == s.op.draft))
            && (t in s'.tickets && !(t in s.tickets && s'.tickets[t] == s.tickets[t]) ==> Handing(s, e, t, s'.tickets[t]))
  {
    match s.op.issue
    case RoomSeen(_) => InsertMoves(s, e.value, e.now, t);
    case _ =>
  }

  lemma TakeSlotMoves(s: System)
    requires s.op.Admitting?
    ensures var s' := TakeSlot(s);
            && s' == s.(op := s'.op, gate := s'.gate, taken := s'.taken)
            && (s'.op.Free? || (s'.op.Admitting? && s'.op.request == s.op.request))
  {}

  lemma ReadRoomMoves(s: System, handle: nat, reading: Reading)
    requires s.op.Admitting?
    ensures var s' := ReadRoom(s, handle, reading);
            s' == s.(op := s'.op, epochs := s'.epochs) && s'.op.Admitting? && s'.op.request == s.op.request
  {}

  lemma AdmitKeeps(s: System, e: Event)
    requires s.op.Admitting? && e.AdmitStep?
    ensures var s' := AdmitNext(s, e.verified, e.reading);
            && s'.waiting == s.waiting && s'.tickets == s.tickets && s'.drawn == s.drawn
            && (s'.admitted == s.admitted || s'.admitted == s.admitted + [s.op.request.ticket])
  {
    match s.op.admit
    case StatusSeen => TakeSlotMoves(s);
    case SlotTaken(h) => ReadRoomMoves(s, h, e.reading);
    case _ =>
  }

  lemma AdmitHolder(s: System, e: Event)
    requires s.op.Admitting? && e.AdmitStep?
    ensures var s' := AdmitNext(s, e.verified, e.reading);
            && (s'.op.Free? || (s'.op.Admitting? && s'.op.request == s.op.request))
            && (s'.op.Admitting? && Past(s'.op.admit) ==> Verifying(s, e, s.op.request))
  {
    match s.op.admit
    case StatusSeen => TakeSlotMoves(s);
    case SlotTaken(h) => ReadRoomMoves(s, h, e.reading);
    case _ =>
  }

  lemma AdmitSeats(s: System, e: Event)
    requires s.op.Admitting? && e.AdmitStep?
    ensures var s' := AdmitNext(s, e.verified, e.reading);
            || s'.connections == s.connections
            || (s'.op.Free? && |s'.connections| == |s.connections| + 1 && s'.connections[..|s.connections|] == s.connections
                && Seating(s, e, s'.connections[|s.connections|]))
  {
    match s.op.admit
    case RoomRead(h) => assert s.connections + [ConnectionOf(s.op.request.grant, h)] == AdmitNext(s, e.verified, e.reading).connections;
    case _ =>
  }

  lemma MaintenanceMoves(s: System, e: Event)
    requires s.op.Maintaining?
    ensures var s' := Maintain(s, e);
            && s'.waiting == s.waiting && s'.connections == s.connections && s'.admitted == s.admitted && s'.drawn == s.drawn
            && (s'.op.Free? || s'.op.Maintaining?)
            && (forall t :: t in s'.tickets ==> t in s.tickets && s'.tickets[t] == s.tickets[t])
  {}

  /** A holder's section: what it leaves alone, and who holds the mutex afterwards. */
  lemma HeldMoves(s: System, e: Event, t: string)
    ensures var s' := Hold(s, e);
            && s'.waiting == s.waiting && s.drawn <= s'.drawn
            && (t in s'.admitted ==> t in s.admitted || t in OpTicket(s.op))
            && (t in s'.tickets && !(t in s.tickets && s'.tickets[t] == s.tickets[t]) ==> Handing(s, e, t, s'.tickets[t]))
  {
    if s.op.Issuing? && e.IssueStep? {
      IssueMoves(s, e, t);
    } else if s.op.Admitting? && e.AdmitStep? {
      AdmitKeeps(s, e);
    } else if s.op.Maintaining? {
      MaintenanceMoves(s, e);
    }
  }

  lemma HeldHolder(s: System, e: Event)
    ensures var s' := Hold(s, e);
            && (s'.op.Issuing? ==> s.op.Issuing? && s.op.draft == s'.op.draft)
            && (s'.op.Admitting? ==> s.op.Admitting? && s.op.request == s'.op.request)
            && (s'.op.Admitting? && Past(s'.op.admit) ==> Verifying(s, e, s'.op.request))
  {
    if s.op.Issuing? && e.IssueStep? {
      IssueMoves(s, e, "");
    } else if s.op.Admitting? && e.AdmitStep? {
      AdmitHolder(s, e);
    } else if s.op.Maintaining? {
      MaintenanceMoves(s, e);
    }
  }

  predicate Beginning(s: System, e: Event, draft: Draft) {
    s.op.Free? && e == BeginIssue(draft.claims, draft.bearer, draft.musicId, [draft.producer], Some(draft.claims))
  }

  predicate Entering(s: System, e: Event, request: Request) {
    s.op.Free? && e == BeginAdmit(request.ticket) && request.ticket in s.waiting && request.grant == s.waiting[request.ticket]
  }

  lemma ArrivedHolder(s: System, e: Event)
    ensures var s' := Arrive(s, e);
            && (s'.op.Issuing? ==> s'.op == s.op || Beginning(s, e, s'.op.draft))
            && (s'.op.Admitting? ==> s'.op == s.op || (Entering(s, e, s'.op.request) && s'.op.admit.Locked?))
  {
    if e.BeginIssue? && |e.accepted| == 1 {
      assert e.accepted == [e.accepted[0]];
    }
  }

  /** Who holds the mutex after a step. */
  lemma HolderFrom(s: System, e: Event)
    ensures var s' := Next(s, e);
            && (s'.op.Issuing? ==> (s.op.Issuing? && s.op.draft == s'.op.draft) || Beginning(s, e, s'.op.draft))
            && (s'.op.Admitting? ==> (s.op.Admitting? && s.op.request == s'.op.request) || Entering(s, e, s'.op.request))
            && (s'.op.Admitting? && Past(s'.op.admit) ==> Verifying(s, e, s'.op.request))
  {
    match KindOf(e)
    case Arriving => ArrivedHolder(s, e);
    case Held => HeldHolder(s, e);
    case Outside => OutsideMoves(s, e);
  }

  lemma OutsideMoves(s: System, e: Event)
    ensures var s' := Elsewhere(s, e);
            s'.op == s.op && s'.tickets == s.tickets && s'.waiting == s.waiting && s'.drawn == s.drawn && s'.admitted == s.admitted
  {}

  predicate Presenting(s: System, e: Event, t: string, grant: Grant) {
    && t in s.tickets && s.tickets[t] == grant && e.Consume? && e.values == [t] && e.wellFormed
    && e.pathMusicId == Some(grant.musicId) && e.now < grant.expiresAt
  }

  lemma ArrivedTickets(s: System, e: Event, t: string)
    ensures var s' := Arrive(s, e);
            && s'.drawn == s.drawn && s'.admitted == s.admitted && s'.connections == s.connections
            && (t in s'.tickets ==> t in s.tickets && s'.tickets[t] == s.tickets[t])
            && (t in s'.waiting ==> (t in s.waiting && s.waiting[t] == s'.waiting[t]) || Presenting(s, e, t, s'.waiting[t]))
  {
    if e.Consume? && |e.values| == 1 {
      assert e.values == [e.values[0]];
    }
  }

  /** Where a ticket was before a step. */
  lemma TicketFrom(s: System, e: Event, t: string)
    ensures var s' := Next(s, e);
            && s.drawn <= s'.drawn
            && (t in s'.tickets ==> (t in s.tickets && s.tickets[t] == s'.tickets[t]) || Handing(s, e, t, s'.tickets[t]))
            && (t in s'.waiting ==> (t in s.waiting && s.waiting[t] == s'.waiting[t]) || Presenting(s, e, t, s'.waiting[t]))
            && (t in s'.admitted ==> t in s.admitted || t in OpTicket(s.op))
  {
    match KindOf(e)
    case Arriving => ArrivedTickets(s, e, t);
    case Held => HeldMoves(s, e, t);
    case Outside => OutsideMoves(s, e);
  }

  /** The same connection, whether or not it is still open. */
  predicate Same(c: Connection, c': Connection) {
    c.(open := true) == c'.(open := true)
  }

  predicate Among(connections: seq<Connection>, c: Connection) {
    exists j :: 0 <= j < |connections| && Same(connections[j], c)
  }

  lemma HeldConnections(s: System, e: Event)
    ensures var s' := Hold(s, e);
            || s'.connections == s.connections
            || (s'.op.Free? && |s'.connections| == |s.connections| + 1 && s'.connections[..|s.connections|] == s.connections
                && Seating(s, e, s'.connections[|s.connections|]))
  {
    if s.op.Issuing? && e.IssueStep? {
      IssueMoves(s, e, "");
    } else if s.op.Admitting? && e.AdmitStep? {
      AdmitSeats(s, e);
    } else if s.op.Maintaining? {
      MaintenanceMoves(s, e);
    }
  }

  lemma OutsideConnections(s: System, e: Event, j: nat)
    requires j < |Elsewhere(s, e).connections|
    ensures Among(s.connections, Elsewhere(s, e).connections[j])
  {
    var connections := Elsewhere(s, e).connections;
    var j0 := if |connections| < |s.connections| && e.Forget? && j >= e.index then j + 1 else j;
    assert Same(s.connections[j0], connections[j]);
  }

  /** A connection is an earlier one, open or not, or has just been counted. */
  lemma ConnectionFrom(s: System, e: Event, j: nat)
    requires j < |Next(s, e).connections|
    ensures var s', c := Next(s, e), Next(s, e).connections[j];
            || Among(s.connections, c)
            || (Seating(s, e, c) && s'.op.Free? && s'.connections == s.connections + [c])
  {
    match KindOf(e)
    case Arriving =>
      ArrivedTickets(s, e, "");
      assert Same(s.connections[j], s.connections[j]);
    case Held =>
      HeldConnections(s, e);
      if j < |s.connections| {
        assert Next(s, e).connections[j] == Next(s, e).connections[..|s.connections|][j];
        assert Same(s.connections[j], Next(s, e).connections[j]);
      }
    case Outside => OutsideConnections(s, e, j);
  }

  // ---- the same, along a run ----

  lemma HolderAt(states: seq<System>, events: seq<Event>, m: nat)
    requires Told(states, events) && m < |events|
    ensures var s, op := states[m], states[m + 1].op;
            && (op.Issuing? ==> (s.op.Issuing? && s.op.draft == op.draft) || Beginning(s, events[m], op.draft))
            && (op.Admitting? ==> (s.op.Admitting? && s.op.request == op.request) || Entering(s, events[m], op.request))
            && (op.Admitting? && Past(op.admit) ==> Verifying(s, events[m], op.request))
  {
    assert Goes(states, events, m);
    HolderFrom(states[m], events[m]);
  }

  lemma TicketAt(states: seq<System>, events: seq<Event>, m: nat, t: string)
    requires Told(states, events) && m < |events|
    ensures var s, s' := states[m], states[m + 1];
            && (t in s'.tickets ==> (t in s.tickets && s.tickets[t] == s'.tickets[t]) || Handing(s, events[m], t, s'.tickets[t]))
            && (t in s'.waiting ==> (t in s.waiting && s.waiting[t] == s'.waiting[t]) || Presenting(s, events[m], t, s'.waiting[t]))
  {
    assert Goes(states, events, m);
    TicketFrom(states[m], events[m], t);
  }

  lemma ConnectionAt(states: seq<System>, events: seq<Event>, m: nat, j: nat)
    requires Told(states, events) && m < |events| && j < |states[m + 1].connections|
    ensures var s, s' := states[m], states[m + 1];
            || Among(s.connections, s'.connections[j])
            || (Seating(s, events[m], s'.connections[j]) && s'.op.Free? && s'.connections == s.connections + [s'.connections[j]])
  {
    assert Goes(states, events, m);
    ConnectionFrom(states[m], events[m], j);
  }

  // ---- finding the chapters ----

  lemma {:induction false} FindAsked(states: seq<System>, events: seq<Event>, n: nat) returns (b: nat)
    requires Told(states, events) && n <= |events| && states[n].op.Issuing?
    ensures Asked(states, events, b, n, states[n].op.draft)
    decreases n
  {
    if n > 0 {
      HolderAt(states, events, n - 1);
      if states[n - 1].op.Issuing? {
        b := FindAsked(states, events, n - 1);
      } else {
        b := n - 1;
      }
    }
  }

  lemma IssuedNow(states: seq<System>, events: seq<Event>, i: nat, t: string, grant: Grant) returns (b: nat)
    requires Told(states, events) && i < |events| && Handing(states[i], events[i], t, grant)
    ensures Issued(states, events, b, i, t, grant)
  {
    b := FindAsked(states, events, i);
  }

  lemma {:induction false} FindIssued(states: seq<System>, events: seq<Event>, n: nat, t: string, grant: Grant) returns (b: nat, i: nat)
    requires Told(states, events) && n <= |events| && t in states[n].tickets && states[n].tickets[t] == grant
    ensures i < n && Issued(states, events, b, i, t, grant)
    decreases n
  {
    if n > 0 {
      TicketAt(states, events, n - 1, t);
      if Handing(states[n - 1], events[n - 1], t, grant) {
        i := n - 1;
        b := IssuedNow(states, events, i, t, grant);
      } else {
        b, i := FindIssued(states, events, n - 1, t, grant);
      }
    }
  }

  lemma {:induction false} FindWaited(states: seq<System>, events: seq<Event>, n: nat, t: string, grant: Grant)
      returns (b: nat, i: nat, c: nat)
    requires Told(states, events) && n <= |events| && t in states[n].waiting && states[n].waiting[t] == grant
    ensures c < n && Waited(states, events, b, i, c, t, grant)
    decreases n
  {
    if n > 0 {
      TicketAt(states, events, n - 1, t);
      if Presenting(states[n - 1], events[n - 1], t, grant) {
        c := n - 1;
        b, i := FindIssued(states, events, c, t, grant);
      } else {
        b, i, c := FindWaited(states, events, n - 1, t, grant);
      }
    }
  }

  lemma {:induction false} FindEntered(states: seq<System>, events: seq<Event>, n: nat)
      returns (b: nat, i: nat, c: nat, k: nat)
    requires Told(states, events) && n <= |events| && states[n].op.Admitting?
    ensures var request := states[n].op.request;
            c < k < n && Waited(states, events, b, i, c, request.ticket, request.grant) && Enters(states, events, k, n, request)
    decreases n
  {
    if n > 0 {
      HolderAt(states, events, n - 1);
      if states[n - 1].op.Admitting? {
        b, i, c, k := FindEntered(states, events, n - 1);
      } else {
        k := n - 1;
        b, i, c := FindWaited(states, events, k, states[n].op.request.ticket, states[n].op.request.grant);
      }
    }
  }

  lemma {:induction false} FindVerified(states: seq<System>, events: seq<Event>, k: nat, n: nat) returns (v: nat)
    requires Told(states, events) && n <= |events| && states[n].op.Admitting? && Past(states[n].op.admit)
    requires Told(states, events) && Enters(states, events, k, n, states[n].op.request)
    ensures k < v < n && Verifies(states, events, v, states[n].op.request.grant.claims)
    decreases n
  {
    v := n - 1;
    HolderAt(states, events, v);
    if Past(states[v].op.admit) {
      v := FindVerified(states, events, k, v);
    }
  }

  lemma {:induction false} FindSeated(states: seq<System>, events: seq<Event>, n: nat, j: nat) returns (m: nat, c: Connection)
    requires Told(states, events) && n <= |events| && j < |states[n].connections|
    ensures m < n && Same(c, states[n].connections[j]) && Seats(states, events, m, c)
    ensures Seating(states[m], events[m], c)
    decreases n
  {
    if n > 0 {
      m := n - 1;
      ConnectionAt(states, events, m, j);
      c := states[n].connections[j];
      var earlier := states[m].connections;
      if j0 :| 0 <= j0 < |earlier| && Same(earlier[j0], c) {
        m, c := FindSeated(states, events, m, j0);
      }
    }
  }

  // ---- main results ----

  /** The whole story: b the issue's begin, i the ticket handed out, c the ticket
      consumed, k the mutex taken, v the verification, n the connection counted. */
  ghost predicate Story(states: seq<System>, events: seq<Event>, b: nat, i: nat, c: nat, k: nat, v: nat, n: nat,
                        request: Request, connection: Connection)
    requires |states| == |events| + 1
  {
    && b < i < c < k < v < n < |events|
    && Issued(states, events, b, i, request.ticket, request.grant)
    && Presents(events, c, request.ticket, request.grant)
    && Enters(states, events, k, n, request)
    && Verifies(states, events, v, request.grant.claims)
    && Seats(states, events, n, connection)
    && connection == ConnectionOf(request.grant, connection.handle)
  }

  ghost predicate HasStory(states: seq<System>, events: seq<Event>, connection: Connection)
    requires |states| == |events| + 1
  {
    exists b, i, c, k, v, n, request :: Story(states, events, b, i, c, k, v, n, request, connection)
  }

  /** Behind every connection of every run: its ticket was issued to a caller
      whose bearer was good for the caller's claims; it was presented alone, on
      its song's path, before its end; and, under the very hold of the mutex that
      counted the connection and after the ticket was consumed, its bearer was
      verified again and found good for exactly those claims. */
  lemma EveryBearerWasVerifiedAgain(instanceId: string, events: seq<Event>, j: nat)
    requires j < |Run(Initial(instanceId), events).connections|
    ensures var c := Run(Initial(instanceId), events).connections[j];
            HasStory(Trace(instanceId, events), events, c.(open := true))
  {
    var states := Trace(instanceId, events);
    TraceIsTold(instanceId, events);
    var n, connection := FindSeated(states, events, |events|, j);
    var b, i, c, k := FindEntered(states, events, n);
    var v := FindVerified(states, events, k, n);
    assert Story(states, events, b, i, c, k, v, n, states[n].op.request, connection);
  }

  /** A ticket that can admit nothing any more: drawn, and nowhere. */
  ghost predicate Spent(s: System, t: string) {
    t in s.drawn && t !in s.tickets && t !in s.waiting && t !in OpTicket(s.op) && t !in s.admitted
  }

  lemma SpentStep(s: System, e: Event, t: string)
    requires Spent(s, t)
    ensures Spent(Next(s, e), t)
  {
    TicketFrom(s, e, t);
    HolderFrom(s, e);
  }

  lemma {:induction false} SpentForEver(s: System, later: seq<Event>, t: string)
    requires Spent(s, t)
    ensures Spent(Run(s, later), t)
  {
    if later != [] {
      var n := |later| - 1;
      SpentForEver(s, later[..n], t);
      SpentStep(Run(s, later[..n]), later[n], t);
    }
  }

  /** The request goes on exactly when its bearer is found good for the ticket's
      claims. Any other answer ends it: the mutex is given up, nothing else
      changes, and the ticket admits nothing in any later run. */
  lemma OnlyTheSameClaimsGoOn(instanceId: string, events: seq<Event>, verified: Option<Claims>, reading: Reading,
                              later: seq<Event>)
    requires var s := Run(Initial(instanceId), events); s.op.Admitting? && s.op.admit.NotRetiring?
    ensures var s := Run(Initial(instanceId), events);
            var s', request := Next(s, AdmitStep(verified, reading)), s.op.request;
            && (verified == Some(request.grant.claims) ==> s' == s.(op := Admitting(request, BearerSeen)))
            && (verified != Some(request.grant.claims) ==>
                  s' == s.(op := Free) && Spent(s', request.ticket) && Spent(Run(s', later), request.ticket))
  {
    RunKeepsInvariant(instanceId, events);
    var s := Run(Initial(instanceId), events);
    assert s.op.request.ticket in OpTicket(s.op);
    if verified != Some(s.op.request.grant.claims) {
      SpentForEver(Next(s, AdmitStep(verified, reading)), later, s.op.request.ticket);
    }
  }

  /** A ticket presented late, on another song's path, beside another value or in
      a malformed query is spent: it waits for nothing and never admits anything. */
  lemma MispresentedIsSpent(instanceId: string, events: seq<Event>, e: Event, t: string, later: seq<Event>)
    requires var s := Run(Initial(instanceId), events); t in s.tickets && t != ""
    requires e.Consume? && t in e.values
    requires var grant := Run(Initial(instanceId), events).tickets[t];
             e.values != [t] || !e.wellFormed || e.pathMusicId != Some(grant.musicId) || grant.expiresAt <= e.now
    ensures Spent(Run(Next(Run(Initial(instanceId), events), e), later), t)
  {
    RunKeepsInvariant(instanceId, events);
    var s := Run(Initial(instanceId), events);
    assert t in s.tickets.Keys;
    TicketFrom(s, e, t);
    SpentForEver(Next(s, e), later, t);
  }

  // ---- every ticket operation, told by what it finds ----

  lemma BlankFree(t: string)
    ensures (forall i :: 0 <= i < |t| ==> !Blank(t[i])) <==> ' ' !in t && '\t' !in t && '\r' !in t && '\n' !in t
  {}

  lemma ConsumeMoves(s: System, e: Event, t: string)
    requires t in s.tickets && t !in s.waiting && t != "" && e.Consume?
    ensures var s', grant := Next(s, e), s.tickets[t];
            && (t in s'.waiting <==>
                  && e.wellFormed && e.values == [t] && (forall i :: 0 <= i < |t| ==> !Blank(t[i]))
                  && e.pathMusicId == Some(grant.musicId) && e.now < grant.expiresAt)
            && (t in s'.waiting ==> s'.waiting[t] == grant)
            && (t in s'.tickets <==> t !in e.values) && (t in s'.tickets ==> s'.tickets[t] == grant)
  {
    if |e.values| == 1 {
      assert e.values == [e.values[0]];
    }
  }

  /** A ticket waits for the mutex exactly when it is presented alone, in a
      well-formed query without blanks, on its song's path and in time. Presented
      in any way it is a ticket no more. */
  lemma PresentedExactly(instanceId: string, events: seq<Event>, e: Event, t: string)
    requires var s := Run(Initial(instanceId), events); t in s.tickets && t != "" && e.Consume?
    ensures var s := Run(Initial(instanceId), events);
            var s', grant := Next(s, e), s.tickets[t];
            && (t in s'.waiting <==>
                  && e.wellFormed && e.values == [t] && ' ' !in t && '\t' !in t && '\r' !in t && '\n' !in t
                  && e.pathMusicId == Some(grant.musicId) && e.now < grant.expiresAt)
            && (t in s'.waiting ==> s'.waiting[t] == grant)
            && (t in s'.tickets <==> t !in e.values) && (t in s'.tickets ==> s'.tickets[t] == grant)
  {
    var s := Run(Initial(instanceId), events);
    TicketsAreDrawn(instanceId, events, t);
    BlankFree(t);
    ConsumeMoves(s, e, t);
  }

  /** The tickets that have not expired. */
  function InTime(s: System, now: int): set<string> {
    set t | t in s.tickets && now < s.tickets[t].expiresAt
  }

  lemma NextInserts(s: System, value: string, now: int)
    requires s.op.Issuing? && s.op.issue.RoomSeen?
    ensures Next(s, IssueStep(Reads, value, now)) == InsertTicket(s, value, now)
  {}

  /** Every ticket there is was drawn, and none of them waits or was admitted. */
  lemma TicketsAreDrawn(instanceId: string, events: seq<Event>, t: string)
    requires t in Run(Initial(instanceId), events).tickets
    ensures var s := Run(Initial(instanceId), events); t in s.drawn && t !in s.waiting && t !in OpTicket(s.op) && t !in s.admitted
  {
    RunKeepsInvariant(instanceId, events);
    assert t in Run(Initial(instanceId), events).tickets.Keys;
  }

  lemma InsertsExactly(s: System, value: string, now: int, t: string)
    requires s.op.Issuing? && s.op.issue.RoomSeen? && value !in s.drawn && value !in s.tickets && value != ""
    ensures var s' := InsertTicket(s, value, now);
            && s'.op.Free?
            && (value in s'.tickets <==> |InTime(s, now)| < 1024)
            && (value in s'.tickets ==> s'.tickets[value] == GrantOf(s.op.draft, s.op.issue.epoch, now))
            && (t != value ==> (t in s'.tickets <==> t in InTime(s, now)) && (t in s'.tickets ==> s'.tickets[t] == s.tickets[t]))
  {
    var live := Unexpired(s.tickets, now);
    assert live.Keys == InTime(s, now) && |live| == |live.Keys|;
  }

  /** Handing out a ticket removes exactly the expired ones, and succeeds exactly
      when fewer than 1024 are left. The ticket carries the caller's claims and
      bearer, the song and the epoch read for it, the accepted status, and the
      time it was issued for. */
  lemma HandedOutExactly(instanceId: string, events: seq<Event>, value: string, now: int, t: string)
    requires var s := Run(Initial(instanceId), events);
             s.op.Issuing? && s.op.issue.RoomSeen? && value !in s.drawn && value != ""
    ensures var s := Run(Initial(instanceId), events);
            var s', draft := Next(s, IssueStep(Reads, value, now)), s.op.draft;
            && s'.op.Free?
            && (value in s'.tickets <==> |InTime(s, now)| < 1024)
            && (value in s'.tickets ==>
                  && s'.tickets[value].claims == draft.claims && s'.tickets[value].bearer == draft.bearer
                  && s'.tickets[value].musicId == draft.musicId && s'.tickets[value].epoch == s.op.issue.epoch
                  && s'.tickets[value].room == RoomName(draft.musicId, s.op.issue.epoch)
                  && s'.tickets[value].producer == draft.producer && s'.tickets[value].expiresAt == now + 45)
            && (t != value ==> (t in s'.tickets <==> t in InTime(s, now)) && (t in s'.tickets ==> s'.tickets[t] == s.tickets[t]))
  {
    var s := Run(Initial(instanceId), events);
    if value in s.tickets {
      TicketsAreDrawn(instanceId, events, value);
    }
    NextInserts(s, value, now);
    InsertsExactly(s, value, now, t);
  }

  /** The event withdraws the song's tickets: when its room is retired or its
      document replaced, by the issue that found it drifted, or with all others. */
  predicate Withdraws(s: System, e: Event, musicId: int) {
    || (s.op == Maintaining(None) && e.Freeze? && e.musicId == musicId)
    || (s.op.Maintaining? && (e == DropSong(musicId) || e.DropTickets?))
    || (s.op.Issuing? && s.op.issue.Replaced? && e.IssueStep? && s.op.draft.musicId == musicId)
  }

  /** Withdrawn tickets admit nothing in any later run, and a ticket that is
      neither withdrawn, presented nor expired stays as it is. */
  lemma WithdrawnExactly(instanceId: string, events: seq<Event>, e: Event, t: string, later: seq<Event>)
    requires t in Run(Initial(instanceId), events).tickets
    ensures var s := Run(Initial(instanceId), events);
            && (Withdraws(s, e, s.tickets[t].musicId) ==> Spent(Run(Next(s, e), later), t))
            && (!Withdraws(s, e, s.tickets[t].musicId) && !(e.Consume? && t in e.values) && !(e.IssueStep? && s.tickets[t].expiresAt <= e.now) ==>
                  t in Next(s, e).tickets && Next(s, e).tickets[t] == s.tickets[t])
  {
    RunKeepsInvariant(instanceId, events);
    var s := Run(Initial(instanceId), events);
    assert t in s.tickets.Keys;
    if Withdraws(s, e, s.tickets[t].musicId) {
      WithdrawnIsSpent(s, e, t);
      SpentForEver(Next(s, e), later, t);
    } else if !(e.Consume? && t in e.values) && !(e.IssueStep? && s.tickets[t].expiresAt <= e.now) {
      OthersStay(s, e, t);
    }
  }

  lemma WithdrawnGoes(s: System, e: Event, t: string)
    requires t in s.tickets && Withdraws(s, e, s.tickets[t].musicId)
    ensures Next(s, e) == Hold(s, e) && t !in Hold(s, e).tickets
  {
    match s.op
    case Issuing(_, _) =>
    case Maintaining(_) =>
    case _ =>
  }

  lemma WithdrawnIsSpent(s: System, e: Event, t: string)
    requires Inv(s) && t in s.tickets && Withdraws(s, e, s.tickets[t].musicId)
    ensures Spent(Next(s, e), t)
  {
    assert t in s.tickets.Keys;
    WithdrawnGoes(s, e, t);
    HeldMoves(s, e, t);
    HeldHolder(s, e);
  }

  lemma HeldTicketsStay(s: System, e: Event, t: string)
    requires t in s.tickets && t in s.drawn && !Withdraws(s, e, s.tickets[t].musicId)
    requires !(e.IssueStep? && s.tickets[t].expiresAt <= e.now)
    ensures t in Hold(s, e).tickets && Hold(s, e).tickets[t] == s.tickets[t]
  {
    if s.op.Issuing? && e.IssueStep? {
      match s.op.issue
      case RoomSeen(_) =>
      case _ =>
    } else if s.op.Admitting? && e.AdmitStep? {
      AdmitKeeps(s, e);
    }
  }

  lemma ArrivingTicketsStay(s: System, e: Event, t: string)
    requires t in s.tickets && !(e.Consume? && t in e.values)
    ensures t in Arrive(s, e).tickets && Arrive(s, e).tickets[t] == s.tickets[t]
  {}

  lemma OthersStay(s: System, e: Event, t: string)
    requires Inv(s) && t in s.tickets && !Withdraws(s, e, s.tickets[t].musicId)
    requires !(e.Consume? && t in e.values) && !(e.IssueStep? && s.tickets[t].expiresAt <= e.now)
    ensures t in Next(s, e).tickets && Next(s, e).tickets[t] == s.tickets[t]
  {
    match KindOf(e)
    case Arriving => ArrivingTicketsStay(s, e, t);
    case Held =>
      assert t in s.tickets.Keys;
      HeldTicketsStay(s, e, t);
    case Outside => OutsideMoves(s, e);
  }
}
