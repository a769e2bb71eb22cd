/** One call of Checkpoint as a run of the protocol: its own stages, what others
    do between them, and what it answers. */
module CollabCheckpointCalls {

  import opened Wrappers
  import opened RoomNames
  import opened CollabPersistence
  import opened CollabCheckpoint

  /** What the CRDT library, the store and the draft decide during one call. */
  datatype Choices = Choices(
    baseline: Encoding, rebased: Encoding, reread: Encoding,
    draft: Document, valid: bool, choice: SaveChoice, encoded: Update, envelope: set<nat>,
    reseed: Option<Update>, committed: Encoding, actor: string)

  function Saving(c: Choices): Event {
    Save(c.draft, c.valid, c.choice, c.encoded, c.envelope, c.reseed, c.committed, c.actor)
  }

  /** The stages of one checkpoint, in order. */
  function Stages(musicId: int, c: Choices): seq<Event> {
    [Begin(musicId, c.baseline), Compare, BeginRetiring, CloseRoom, Rebase(c.rebased), TakeDocument, Reread(c.reread), Saving(c), Finish]
  }

  /** The steps other callers can take while the mutex is held. */
  predicate ByOthers(events: seq<Event>) {
    forall e :: e in events ==> !OwnStage(e) && !e.ReplaceSong?
  }

  /** The checkpoint's own stages among the events. */
  function Own(events: seq<Event>): seq<Event> {
    if events == [] then []
    else
      var last := events[|events| - 1];
      Own(events[..|events| - 1]) + (if OwnStage(last) then [last] else [])
  }

  /** What a save that commits answers: the document saved, and whether it changed. */
  function Answer(s: System, e: Event): seq<(Document, bool)> {
    if e.Save? && s.stage.Taken? && SaveTx(s, e.draft, e.valid, e.choice, e.encoded, e.envelope, e.reseed, e.encoding, e.actor).Ok?
    then [(SavedDocument(s, e.choice), e.choice.Writes?)] else []
  }

  function SavedDocument(s: System, choice: SaveChoice): Document
    requires s.stage.Taken? && AuthoritativeDocument(s.authority, s.stage.base.musicId).Ok?
  {
    if choice.Writes? then choice.final else AuthoritativeDocument(s.authority, s.stage.base.musicId).value
  }

  /** The same of what a call returns. */
  function Given(r: Result<(Document, bool), Failure>): seq<(Document, bool)> {
    if r.Ok? then [r.value] else []
  }

  /** The answers of every save a run commits, in order. */
  function Answers(s: System, events: seq<Event>): seq<(Document, bool)> {
    if events == [] then []
    else
      var init := events[..|events| - 1];
      Answers(s, init) + Answer(Run(s, init), events[|events| - 1])
  }

  // ---- runs ----

  lemma {:induction false} RunConcat(s: System, a: seq<Event>, b: seq<Event>)
    ensures Run(s, a + b) == Run(Run(s, a), b)
  {
    if b == [] {
      assert a + b == a;
    } else {
      var init := b[..|b| - 1];
      assert (a + b)[..|a + b| - 1] == a + init;
      RunConcat(s, a, init);
    }
  }

  lemma {:induction false} OwnConcat(a: seq<Event>, b: seq<Event>)
    ensures Own(a + b) == Own(a) + Own(b)
  {
    if b == [] {
      assert a + b == a;
    } else {
      var init := b[..|b| - 1];
      assert (a + b)[..|a + b| - 1] == a + init;
      OwnConcat(a, init);
    }
  }

  lemma {:induction false} AnswersConcat(s: System, a: seq<Event>, b: seq<Event>)
    ensures Answers(s, a + b) == Answers(s, a) + Answers(Run(s, a), b)
  {
    if b == [] {
      assert a + b == a;
    } else {
      var init := b[..|b| - 1];
      assert (a + b)[..|a + b| - 1] == a + init;
      RunConcat(s, a, init);
      AnswersConcat(s, a, init);
    }
  }

  lemma OneMore(s: System, events: seq<Event>, e: Event)
    ensures Run(s, events + [e]) == Step(Run(s, events), e)
    ensures Own(events + [e]) == Own(events) + (if OwnStage(e) then [e] else [])
    ensures Answers(s, events + [e]) == Answers(s, events) + Answer(Run(s, events), e)
  {
    assert (events + [e])[..|events|] == events;
  }

  lemma {:induction false} OthersKeepTheStage(s: System, events: seq<Event>)
    requires ByOthers(events)
    ensures Run(s, events).stage == s.stage && Own(events) == [] && Answers(s, events) == []
  {
    if events != [] {
      var init, last := events[..|events| - 1], events[|events| - 1];
      assert last in events && forall e :: e in init ==> e in events;
      OthersKeepTheStage(s, init);
      OtherKeepsTheStage(Run(s, init), last);
    }
  }

  lemma OtherKeepsTheStage(s: System, e: Event)
    requires !OwnStage(e)
    ensures OtherStep(s, e).stage == s.stage
  {
    if e.Evict? {
      FlushRoomKeepsTheStage(s, e.room);
    }
  }

  lemma {:induction false} FlushRoomKeepsTheStage(s: System, room: RoomIdentity)
    ensures FlushRoom(s, room).stage == s.stage
    decreases if room in s.rooms then |s.rooms[room].pending| else 0
  {
    if CanFlush(s, room) {
      FlushRoomKeepsTheStage(Flushed(s, room), room);
    }
  }

  /** More steps without a replacement keep a state reachable. */
  lemma ReachableOn(s: System, more: seq<Event>)
    requires Reachable(s) && forall e :: e in more ==> !e.ReplaceSong?
    ensures Reachable(Run(s, more)) && Inv(s) && Inv(Run(s, more))
  {
    var catalog, events :| AdmissibleRun(Start(catalog), events) && s == Run(Start(catalog), events);
    var all := events + more;
    RunConcat(Start(catalog), events, more);
    forall n | 0 <= n < |all| ensures Admissible(Run(Start(catalog), all[..n]), all[n]) {
      if n < |events| {
        assert all[..n] == events[..n];
      } else {
        assert all[n] in more;
      }
    }
    RunKeepsInvariant(catalog, events);
    RunKeepsInvariant(catalog, all);
  }

  /** A call that started in `start` and has seen `ran` is in `s`: its own stages
      are `own`, `answers` is what its saves have committed, and when it is quiet
      nobody else has acted. */
  ghost predicate Follows(start: System, quiet: bool, ran: seq<Event>, s: System, own: seq<Event>, answers: seq<(Document, bool)>) {
    && s == Run(start, ran) && Own(ran) == own && Answers(start, ran) == answers && (quiet ==> ran == own)
    && forall e :: e in ran ==> !e.ReplaceSong?
  }

  lemma FollowStage(start: System, quiet: bool, ran: seq<Event>, s: System, own: seq<Event>, answers: seq<(Document, bool)>, e: Event)
    requires Follows(start, quiet, ran, s, own, answers) && OwnStage(e)
    ensures Follows(start, quiet, ran + [e], Step(s, e), own + [e], answers + Answer(s, e))
  {
    OneMore(start, ran, e);
  }

  lemma FollowOthers(start: System, quiet: bool, ran: seq<Event>, s: System, own: seq<Event>, answers: seq<(Document, bool)>, events: seq<Event>)
    requires Follows(start, quiet, ran, s, own, answers) && ByOthers(events) && (quiet ==> events == [])
    ensures Follows(start, quiet, ran + events, Run(s, events), own, answers) && Run(s, events).stage == s.stage
  {
    RunConcat(start, ran, events);
    OwnConcat(ran, events);
    AnswersConcat(start, ran, events);
    OthersKeepTheStage(s, events);
  }

  /** A failed checkpoint takes no further stage until its way out. */
  lemma SkippedStage(s: System, e: Event)
    requires OwnStage(e) && !e.Begin? && (s.stage.Idle? || (s.stage.Leaving? && !e.Finish?))
    ensures Step(s, e) == s && Answer(s, e) == []
  {}

  /** The call has run from `start` to `s` with exactly these stages of its own
      and these answers. */
  ghost predicate Ends(start: System, quiet: bool, s: System, own: seq<Event>, answers: seq<(Document, bool)>) {
    exists ran :: Follows(start, quiet, ran, s, own, answers)
  }

  lemma EndsOne(start: System, quiet: bool, s: System, own: seq<Event>, answers: seq<(Document, bool)>, e: Event)
    requires Ends(start, quiet, s, own, answers) && OwnStage(e)
    ensures Ends(start, quiet, Step(s, e), own + [e], answers + Answer(s, e))
  {
    var ran :| Follows(start, quiet, ran, s, own, answers);
    FollowStage(start, quiet, ran, s, own, answers, e);
  }

  lemma EndsSkippedOne(start: System, quiet: bool, s: System, own: seq<Event>, e: Event)
    requires Ends(start, quiet, s, own, []) && (s.stage.Idle? || s.stage.Leaving?) && OwnStage(e) && !e.Begin? && !e.Finish?
    ensures Ends(start, quiet, s, own + [e], [])
  {
    SkippedStage(s, e);
    EndsOne(start, quiet, s, own, [], e);
  }

  /** The first n stages of a call are behind it, those it could not reach skipped. */
  ghost predicate Done(start: System, quiet: bool, s: System, musicId: int, c: Choices, n: nat, answers: seq<(Document, bool)>)
    requires n <= 9
  {
    Ends(start, quiet, s, Stages(musicId, c)[..n], answers)
  }

  lemma StageKind(musicId: int, c: Choices, n: nat)
    requires n < 9
    ensures var stages := Stages(musicId, c);
            && stages[..n + 1] == stages[..n] + [stages[n]] && OwnStage(stages[n])
            && (stages[n].Begin? <==> n == 0) && (stages[n].Save? <==> n == 7) && (stages[n].Finish? <==> n == 8)
  {}

  lemma DoneNone(start: System, quiet: bool, musicId: int, c: Choices)
    ensures Done(start, quiet, start, musicId, c, 0, [])
  {
    assert Follows(start, quiet, [], start, Stages(musicId, c)[..0], []);
  }

  lemma DoneOne(start: System, quiet: bool, s: System, musicId: int, c: Choices, n: nat, answers: seq<(Document, bool)>)
    requires n < 9 && Done(start, quiet, s, musicId, c, n, answers)
    ensures var e := Stages(musicId, c)[n];
            Done(start, quiet, Step(s, e), musicId, c, n + 1, answers + Answer(s, e))
  {
    StageKind(musicId, c, n);
    EndsOne(start, quiet, s, Stages(musicId, c)[..n], answers, Stages(musicId, c)[n]);
  }

  lemma DoneOthers(start: System, quiet: bool, s: System, musicId: int, c: Choices, n: nat, answers: seq<(Document, bool)>, events: seq<Event>)
    requires n <= 9 && Done(start, quiet, s, musicId, c, n, answers) && ByOthers(events) && (quiet ==> events == []) && Reachable(start)
    ensures Done(start, quiet, Run(s, events), musicId, c, n, answers)
    ensures var s' := Run(s, events);
            s'.stage == s.stage && (!s'.stage.Idle? ==> ValidIdentity(RoomOf(s'.stage.base)))
  {
    var ran :| Follows(start, quiet, ran, s, Stages(musicId, c)[..n], answers);
    FollowOthers(start, quiet, ran, s, Stages(musicId, c)[..n], answers, events);
    ReachableOn(start, ran + events);
  }

  lemma DoneSkippedOne(start: System, quiet: bool, s: System, musicId: int, c: Choices, n: nat)
    requires 1 <= n < 8 && Done(start, quiet, s, musicId, c, n, []) && (s.stage.Idle? || s.stage.Leaving?)
    ensures Done(start, quiet, s, musicId, c, n + 1, [])
  {
    StageKind(musicId, c, n);
    EndsSkippedOne(start, quiet, s, Stages(musicId, c)[..n], Stages(musicId, c)[n]);
  }

  /** A failed checkpoint goes past the stages before its way out. */
  lemma {:induction false} DoneSkipped(start: System, quiet: bool, s: System, musicId: int, c: Choices, n: nat)
    requires 1 <= n <= 8 && Done(start, quiet, s, musicId, c, n, []) && (s.stage.Idle? || s.stage.Leaving?)
    ensures Done(start, quiet, s, musicId, c, 8, [])
    decreases 8 - n
  {
    if n < 8 {
      DoneSkippedOne(start, quiet, s, musicId, c, n);
      DoneSkipped(start, quiet, s, musicId, c, n + 1);
    }
  }

  lemma EndsUnsaved(start: System, quiet: bool, s: System, own: seq<Event>, e: Event)
    requires Ends(start, quiet, s, own, []) && OwnStage(e) && !e.Save?
    ensures Ends(start, quiet, Step(s, e), own + [e], [])
  {
    EndsOne(start, quiet, s, own, [], e);
    assert Answer(s, e) == [];
  }

  lemma DoneUnsaved(start: System, quiet: bool, s: System, musicId: int, c: Choices, n: nat)
    requires n < 7 && Done(start, quiet, s, musicId, c, n, [])
    ensures Done(start, quiet, Step(s, Stages(musicId, c)[n]), musicId, c, n + 1, [])
  {
    StageKind(musicId, c, n);
    EndsUnsaved(start, quiet, s, Stages(musicId, c)[..n], Stages(musicId, c)[n]);
  }

  /** One stage before the save, and when it fails the stages after it. */
  lemma DoneStage(start: System, quiet: bool, s: System, musicId: int, c: Choices, n: nat, e: Event, s': System)
    requires n < 7 && e == Stages(musicId, c)[n] && Done(start, quiet, s, musicId, c, n, []) && s' == Step(s, e)
    ensures Done(start, quiet, s', musicId, c, n + 1, [])
    ensures s'.stage.Idle? || s'.stage.Leaving? ==> Done(start, quiet, s', musicId, c, 8, [])
  {
    DoneUnsaved(start, quiet, s, musicId, c, n);
    if s'.stage.Idle? || s'.stage.Leaving? {
      DoneSkipped(start, quiet, s', musicId, c, n + 1);
    }
  }

  lemma DoneSave(start: System, quiet: bool, s: System, musicId: int, c: Choices, s': System)
    requires Done(start, quiet, s, musicId, c, 7, []) && s' == Step(s, Saving(c))
    ensures Done(start, quiet, s', musicId, c, 8, Answer(s, Saving(c)))
  {
    DoneOne(start, quiet, s, musicId, c, 7, []);
    assert [] + Answer(s, Saving(c)) == Answer(s, Saving(c));
  }

  lemma DoneLeave(start: System, quiet: bool, s: System, musicId: int, c: Choices, answers: seq<(Document, bool)>, s': System)
    requires Done(start, quiet, s, musicId, c, 8, answers) && s' == Step(s, Finish)
    ensures Done(start, quiet, s', musicId, c, 9, answers)
  {
    DoneOne(start, quiet, s, musicId, c, 8, answers);
    assert answers + Answer(s, Finish) == answers;
  }

  /** A later save does not freeze. */
  lemma DonePassing(start: System, quiet: bool, s: System, musicId: int, c: Choices)
    requires s.stage.Ready? && Done(start, quiet, s, musicId, c, 3, [])
    ensures Done(start, quiet, s, musicId, c, 5, [])
  {
    DoneOne(start, quiet, s, musicId, c, 3, []);
    DoneOne(start, quiet, s, musicId, c, 4, []);
  }

  /** A live document needs no second read. */
  lemma DoneFound(start: System, quiet: bool, s: System, musicId: int, c: Choices)
    requires s.stage.Taken? && Done(start, quiet, s, musicId, c, 6, [])
    ensures Done(start, quiet, s, musicId, c, 7, [])
  {
    DoneOne(start, quiet, s, musicId, c, 6, []);
  }

  lemma DoneAll(start: System, quiet: bool, s: System, musicId: int, c: Choices, answers: seq<(Document, bool)>)
    requires Done(start, quiet, s, musicId, c, 9, answers) && Reachable(start)
    ensures Ends(start, quiet, s, Stages(musicId, c), answers)
    ensures Reachable(s) && (s.stage.Idle? ==> s.retiring == {})
    ensures quiet ==> s == Run(start, Stages(musicId, c)) && answers == Answers(start, Stages(musicId, c))
  {
    var ran :| Follows(start, quiet, ran, s, Stages(musicId, c)[..9], answers);
    assert Stages(musicId, c)[..9] == Stages(musicId, c);
    ReachableOn(start, ran);
  }

  /** Until its save commits, a checkpoint moves neither the lyrics nor a row nor the ledger. */
  lemma UnansweredKeepsTheRows(s: System, e: Event)
    requires OwnStage(e) && Answer(s, e) == []
    ensures var s' := Step(s, e);
            s'.authority == s.authority && s'.tables.documents == s.tables.documents && s'.tables.ledger == s.tables.ledger
  {
    if e.CloseRoom? && s.stage.Retiring? {
      FlushRoomKeepsTheRows(s, RoomOf(s.stage.base));
    }
  }

  lemma {:induction false} FlushRoomKeepsTheRows(s: System, room: RoomIdentity)
    ensures var s' := FlushRoom(s, room);
            s'.authority == s.authority && s'.tables.documents == s.tables.documents && s'.tables.ledger == s.tables.ledger
    decreases if room in s.rooms then |s.rooms[room].pending| else 0
  {
    if CanFlush(s, room) {
      FlushRoomKeepsTheRows(Flushed(s, room), room);
    }
  }
}
