/** What an epoch bump keeps and forgets, told from the events of a run alone. */
module CollabBumps {

  import opened Wrappers
  import opened RoomNames
  import opened CollabPersistence
  import opened CollabHistory

  /** The event, run after `before`, was not refused. */
  predicate Succeeds(before: seq<Event>, event: Event) {
    Apply(Run(EMPTY, before).tables, event).1
  }

  /** The event brings an operation to a song's room. */
  predicate Carries(event: Event, id: int, op: nat) {
    match event
    case Store(room, u) => room.Some? && room.value.musicId == id && op in u.ops
    case Committed(b, u, _, _, _, _, _) => b.musicId == id && op in u.ops
    case _ => false
  }

  /** The event moves a song's log into its snapshot. */
  predicate Moves(event: Event, id: int) {
    match event
    case Compacted(room, _) => room.Some? && room.value.musicId == id
    case Committed(b, _, _, _, _, _, _) => b.musicId == id
    case _ => false
  }

  /** The event, run on these tables, starts another epoch of a song. */
  predicate Renews(t: Tables, event: Event, id: int) {
    && Apply(t, event).1
    && match event
       case Inserted(song, _, _) => song == id && id !in t.documents
       case Reseeded(b, _, _, _, _) => b.musicId == id
       case Replaced(song, _, _) => song == id
       case Bumped(songs) => id in songs
       case _ => false
  }

  predicate StartsOver(before: seq<Event>, event: Event, id: int) {
    Renews(Run(EMPTY, before).tables, event, id)
  }

  /** From the i-th event on the song has stayed in one epoch. */
  predicate OneEpochFrom(events: seq<Event>, id: int, i: nat) {
    forall k :: i <= k < |events| ==> !StartsOver(events[..k], events[k], id)
  }

  /** The i-th event brought the operation to the song's present epoch. */
  predicate CarriedAt(events: seq<Event>, id: int, op: nat, i: nat) {
    i < |events| && Carries(events[i], id, op) && Succeeds(events[..i], events[i]) && OneEpochFrom(events, id, i)
  }

  /** The j-th event moved what the i-th one had brought: a later compaction or
      checkpoint, or the i-th event itself when it is a checkpoint. */
  predicate MovedAt(events: seq<Event>, id: int, op: nat, i: nat, j: nat) {
    CarriedAt(events, id, op, i) && i <= j < |events| && Moves(events[j], id) && Succeeds(events[..j], events[j])
  }

  ghost predicate Carried(events: seq<Event>, id: int, op: nat) {
    exists i: nat :: CarriedAt(events, id, op, i)
  }

  ghost predicate Moved(events: seq<Event>, id: int, op: nat) {
    exists i: nat, j: nat :: MovedAt(events, id, op, i, j)
  }

  lemma Snoc(events: seq<Event>, event: Event)
    ensures Run(EMPTY, events + [event]) == Step(Run(EMPTY, events), event)
    ensures (events + [event])[..|events|] == events
    ensures forall k :: 0 <= k < |events| ==> (events + [event])[..k] == events[..k]
  {
    assert (events + [event])[..|events|] == events;
    assert forall k :: 0 <= k < |events| ==> (events + [event])[..k] == events[..k];
  }

  lemma OneEpochSnoc(events: seq<Event>, event: Event, id: int, i: nat)
    requires i <= |events|
    ensures OneEpochFrom(events + [event], id, i) <==> OneEpochFrom(events, id, i) && !StartsOver(events, event, id)
  {
    Snoc(events, event);
    var all := events + [event];
    if OneEpochFrom(all, id, i) {
      forall k | i <= k < |events| ensures !StartsOver(events[..k], events[k], id) {
        assert !StartsOver(all[..k], all[k], id);
      }
      assert !StartsOver(all[..|events|], all[|events|], id);
    }
    if OneEpochFrom(events, id, i) && !StartsOver(events, event, id) {
      forall k | i <= k < |all| ensures !StartsOver(all[..k], all[k], id) {
        if k < |events| {
          assert !StartsOver(events[..k], events[k], id);
        }
      }
    }
  }

  lemma CarriedAtSnoc(events: seq<Event>, event: Event, id: int, op: nat, i: nat)
    requires i <= |events|
    ensures CarriedAt(events + [event], id, op, i)
         <==> !StartsOver(events, event, id)
              && if i < |events| then CarriedAt(events, id, op, i) else Carries(event, id, op) && Succeeds(events, event)
  {
    Snoc(events, event);
    OneEpochSnoc(events, event, id, i);
  }

  lemma CarriedSnoc(events: seq<Event>, event: Event, id: int, op: nat)
    ensures Carried(events + [event], id, op)
         <==> !StartsOver(events, event, id) && (Carried(events, id, op) || (Carries(event, id, op) && Succeeds(events, event)))
  {
    var all := events + [event];
    if Carried(all, id, op) {
      var i: nat :| CarriedAt(all, id, op, i);
      CarriedAtSnoc(events, event, id, op, i);
    }
    if Carried(events, id, op) {
      var i: nat :| CarriedAt(events, id, op, i);
      CarriedAtSnoc(events, event, id, op, i);
    }
    CarriedAtSnoc(events, event, id, op, |events|);
  }

  lemma MovedSnoc(events: seq<Event>, event: Event, id: int, op: nat)
    ensures Moved(events + [event], id, op)
         <==> !StartsOver(events, event, id)
              && (Moved(events, id, op) || (Moves(event, id) && Succeeds(events, event) && Carried(events + [event], id, op)))
  {
    var all := events + [event];
    Snoc(events, event);
    if Moved(all, id, op) {
      var i: nat, j: nat :| MovedAt(all, id, op, i, j);
      CarriedAtSnoc(events, event, id, op, i);
      if j < |events| {
        assert MovedAt(events, id, op, i, j);
      }
    }
    if !StartsOver(events, event, id) && Moved(events, id, op) {
      var i: nat, j: nat :| MovedAt(events, id, op, i, j);
      CarriedAtSnoc(events, event, id, op, i);
      assert MovedAt(all, id, op, i, j);
    }
    if Moves(event, id) && Succeeds(events, event) && Carried(all, id, op) {
      var i: nat :| CarriedAt(all, id, op, i);
      assert MovedAt(all, id, op, i, |events|);
    }
  }

  /** One event's effect on what a song was promised. */
  lemma PromiseStep(w: World, event: Event, id: int, op: nat)
    requires Inv(w) && id in w.tables.documents
    ensures var p, ran := Step(w, event).promises, Apply(w.tables, event).1;
            && id in p
            && (op in p[id].accepted <==> !Renews(w.tables, event, id) && (op in w.promises[id].accepted || (Carries(event, id, op) && ran)))
            && (op in p[id].merged <==> !Renews(w.tables, event, id)
                                        && (op in w.promises[id].merged || (Moves(event, id) && ran && op in p[id].accepted)))
  {}

  lemma FirstPromise(w: World, event: Event, id: int)
    requires Inv(w) && id !in w.tables.documents && id in Step(w, event).tables.documents
    ensures Renews(w.tables, event, id)
    ensures var p := Step(w, event).promises; id in p && p[id].accepted == {} && p[id].merged == {}
  {}

  /** The promises of a song are its history. */
  lemma {:induction false} PromisesAreHistory(events: seq<Event>, id: int, op: nat)
    requires AdmissibleRun(EMPTY, events)
    requires id in Run(EMPTY, events).tables.documents
    ensures id in Run(EMPTY, events).promises
    ensures op in Run(EMPTY, events).promises[id].accepted <==> Carried(events, id, op)
    ensures op in Run(EMPTY, events).promises[id].merged <==> Moved(events, id, op)
  {
    var init, last := events[..|events| - 1], events[|events| - 1];
    var w := Run(EMPTY, init);
    assert events == init + [last];
    AdmissiblePrefix(EMPTY, events, |events| - 1);
    RunKeepsInvariant(EMPTY, init);
    CarriedSnoc(init, last, id, op);
    MovedSnoc(init, last, id, op);
    if id in w.tables.documents {
      PromisesAreHistory(init, id, op);
      PromiseStep(w, last, id, op);
    } else {
      FirstPromise(w, last, id);
    }
  }

  lemma AdmissiblePrefix(w: World, events: seq<Event>, n: nat)
    requires AdmissibleRun(w, events) && n <= |events|
    ensures AdmissibleRun(w, events[..n])
  {
    forall k | 0 <= k < n ensures Admissible(Run(w, events[..n][..k]).tables, events[..n][k]) {
      assert events[..n][..k] == events[..k];
    }
  }

  // ---- main results ----

  /** The bump of a song after any run: its room then holds an operation exactly
      when the old epoch began with it, or some event of that epoch brought it
      and a compaction or checkpoint moved it in before the bump. */
  lemma BumpKeepsExactlyTheMoved(events: seq<Event>, songs: set<int>, id: int, op: nat)
    requires AdmissibleRun(EMPTY, events) && id in Run(EMPTY, events).tables.documents && id in songs
    ensures var w := Run(EMPTY, events);
            id in w.promises
            && (op in Contents(BumpEpochs(w.tables, songs), id) <==> op in w.promises[id].base || Moved(events, id, op))
  {
    RunKeepsInvariant(EMPTY, events);
    BumpStartsFromTheSnapshot(Run(EMPTY, events).tables, songs, id);
    PromisesAreHistory(events, id, op);
  }

  lemma SameEpochStep(w: World, event: Event, id: int)
    requires Inv(w) && id in w.tables.documents && !Renews(w.tables, event, id)
    ensures var w' := Step(w, event);
            && id in w'.tables.documents && id in w'.promises
            && w'.promises[id].base == w.promises[id].base && w'.tables.documents[id].epoch == w.tables.documents[id].epoch
  {}

  /** While a song stays in one epoch, what that epoch began with stays as well. */
  lemma {:induction false} BaseStays(before: seq<Event>, later: seq<Event>, id: int)
    requires AdmissibleRun(EMPTY, before + later) && id in Run(EMPTY, before).tables.documents
    requires OneEpochFrom(before + later, id, |before|)
    ensures var w, w' := Run(EMPTY, before), Run(EMPTY, before + later);
            && id in w'.tables.documents && id in w.promises && id in w'.promises
            && w'.promises[id].base == w.promises[id].base && w'.tables.documents[id].epoch == w.tables.documents[id].epoch
  {
    var all := before + later;
    if later == [] {
      assert all == before;
      RunKeepsInvariant(EMPTY, all);
    } else {
      var init, last := later[..|later| - 1], later[|later| - 1];
      var prefix := before + init;
      assert all == prefix + [last] && all[..|prefix|] == prefix;
      AdmissiblePrefix(EMPTY, all, |prefix|);
      OneEpochSnoc(prefix, last, id, |before|);
      BaseStays(before, init, id);
      RunKeepsInvariant(EMPTY, prefix);
      Snoc(prefix, last);
      SameEpochStep(Run(EMPTY, prefix), last, id);
    }
  }

  lemma BumpedBase(events: seq<Event>, songs: set<int>, id: int)
    requires AdmissibleRun(EMPTY, events) && id in Run(EMPTY, events).tables.documents && id in songs
    ensures var w, w' := Run(EMPTY, events), Run(EMPTY, events + [Bumped(songs)]);
            && id in w.promises && id in w'.promises && id in w'.tables.documents
            && w'.promises[id].base == w.promises[id].base + w.promises[id].merged
            && w'.tables.documents[id].epoch == w.tables.documents[id].epoch + 1
  {
    RunKeepsInvariant(EMPTY, events);
    Snoc(events, Bumped(songs));
  }

  /** And so for every later load of the new epoch: it returns what the bump
      kept and what the new epoch's own events brought, nothing else. */
  lemma LaterLoadsForgetTheRest(events: seq<Event>, songs: set<int>, later: seq<Event>, id: int, op: nat, encoding: Encoding)
    requires id in songs && id in Run(EMPTY, events).tables.documents
    requires AdmissibleRun(EMPTY, events + [Bumped(songs)] + later)
    requires OneEpochFrom(events + [Bumped(songs)] + later, id, |events| + 1)
    ensures var all := events + [Bumped(songs)] + later;
            var t := Run(EMPTY, all).tables;
            && id in Run(EMPTY, events).promises && id in t.documents
            && t.documents[id].epoch == Run(EMPTY, events).tables.documents[id].epoch + 1
            && var loaded := Load(t, Some(CurrentRoom(t, id)), encoding);
               loaded.Ok? ==>
                 (op in loaded.value.ops
                  <==> op in Run(EMPTY, events).promises[id].base || Moved(events, id, op) || Carried(all, id, op))
  {
    var bumped := events + [Bumped(songs)];
    var all := bumped + later;
    assert all[..|events|] == events && all[..|bumped|] == bumped;
    AdmissiblePrefix(EMPTY, all, |events|);
    BumpedBase(events, songs, id);
    BaseStays(bumped, later, id);
    PromisesAreHistory(events, id, op);
    PromisesAreHistory(all, id, op);
    LoadReturnsEverythingAccepted(all, id, encoding);
  }

  // ---- both happen ----

  const SONG := Document(7, Legacy, 0, 0)
  const ROOM := RoomIdentity(7, 1)

  const STORED: seq<Event> := [Inserted(7, SONG, Update({1}, 10)), Store(Some(ROOM), Update({2}, 10))]

  const COMPACTED: seq<Event> := STORED + [Compacted(Some(ROOM), Encoded(20))]

  /** From an empty database: the same stored operation is forgotten by a bump,
      and kept by it when the room was compacted first. */
  lemma BumpMayKeepARetiredUpdate()
    ensures AdmissibleRun(EMPTY, STORED) && AdmissibleRun(EMPTY, COMPACTED)
    ensures var stored, compacted := Run(EMPTY, STORED).tables, Run(EMPTY, COMPACTED).tables;
            && 7 in stored.documents && 7 in compacted.documents
            && Contents(stored, 7) == Contents(compacted, 7) == {1, 2}
            && Contents(BumpEpochs(stored, {7}), 7) == {1}
            && Contents(BumpEpochs(compacted, {7}), 7) == {1, 2}
  {
    var u := Update({2}, 10);
    assert STORED == [Inserted(7, SONG, Update({1}, 10))] + [Store(Some(ROOM), u)];
    assert [Inserted(7, SONG, Update({1}, 10))] == [] + [Inserted(7, SONG, Update({1}, 10))];
    Snoc([], Inserted(7, SONG, Update({1}, 10)));
    Snoc([Inserted(7, SONG, Update({1}, 10))], Store(Some(ROOM), u));
    Snoc(STORED, Compacted(Some(ROOM), Encoded(20)));
    var inserted := Run(EMPTY, [Inserted(7, SONG, Update({1}, 10))]).tables;
    var stored := Run(EMPTY, STORED).tables;
    assert Rows(stored, ROOM) == [LogRow(1, u, Sha256(u), 10)];
    FreshEpochContents(inserted, 7);
    StoreAddsItsUpdate(inserted, Some(ROOM), u);
    CompactKeepsContents(stored, Some(ROOM), Encoded(20), 7);
    FreshEpochContents(BumpEpochs(stored, {7}), 7);
    FreshEpochContents(Run(EMPTY, COMPACTED).tables, 7);
    FreshEpochContents(BumpEpochs(Run(EMPTY, COMPACTED).tables, {7}), 7);
  }
}
