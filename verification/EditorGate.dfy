/** The writer-preferred gate between editors and producer jobs (gate.go). Each
    critical section under the gate's mutex is one step. */
module EditorGate {

  import opened Wrappers

  const MAX_SAFE_COUNTER: nat := 0x1f_ffff_ffff_ffff

  /** `lastRun` is the formatted finishing time. */
  datatype Status = Status(version: int, instanceId: string, revision: nat, generation: nat,
                           completedGeneration: nat, running: bool, lastRun: string)

  /** The one producer call that can be under way: it checks the editor count
      once without looking at its context, then parks until woken. */
  datatype Producer = Absent | Started | Parked | Holding

  /** The waiting producer's context: live, done with its wake-up still to come,
      or done and announced by the broadcast registered with it. */
  datatype Context = Live | Ended | Announced

  /** `held` are the editor release closures that have not run yet; `signalled`
      says that a broadcast reached the parked producer. */
  datatype Gate = Gate(status: Status, editors: nat, draining: bool, held: set<nat>, issued: nat,
                       producer: Producer, context: Context, signalled: bool)

  datatype Event =
    | BeginEditor(cancelled: bool)
    | BeginStrictEditor(instanceId: string, revision: nat, completedGeneration: nat)
    | ReleaseEditor(handle: nat)
    | BeginProducer
    | CheckEditors
    | CancelContext
    | AnnounceCancel
    | WakeProducer(now: string)
    | ReleaseProducer(now: string)
    | Drain

  datatype Refusal = Cancelled | ProducerRunning | Draining | CountersExhausted

  function New(instanceId: string): Gate {
    Gate(Status(1, instanceId, 0, 0, 0, false, ""), 0, false, {}, 0, Absent, Live, false)
  }

  /** cond.Broadcast, which only the parked producer can hear. */
  function Broadcast(g: Gate): Gate {
    g.(signalled := g.producer.Parked?)
  }

  /** The slot is taken; the closure returned is numbered `g.issued`. */
  function Admitted(g: Gate): Gate {
    g.(editors := g.editors + 1, held := g.held + {g.issued}, issued := g.issued + 1)
  }

  predicate StrictMatch(g: Gate, instanceId: string, revision: nat, completedGeneration: nat) {
    !g.status.running && instanceId == g.status.instanceId && revision == g.status.revision
    && completedGeneration == g.status.completedGeneration
  }

  function EditorRefusal(g: Gate, cancelled: bool): Option<Refusal> {
    if cancelled then Some(Cancelled)
    else if g.status.running then Some(ProducerRunning)
    else None
  }

  function ProducerRefusal(g: Gate): Option<Refusal> {
    if g.draining then Some(Draining)
    else if g.status.running then Some(ProducerRunning)
    else if g.status.generation >= MAX_SAFE_COUNTER || g.status.revision > MAX_SAFE_COUNTER - 2 then Some(CountersExhausted)
    else None
  }

  /** finishProducerLocked */
  function Finished(g: Gate, now: string): Gate {
    g.(status := g.status.(completedGeneration := g.status.generation, revision := g.status.revision + 1,
                           running := false, lastRun := now),
       producer := Absent, context := Live, signalled := false)
  }

  function Step(g: Gate, event: Event): Gate {
    match event
    case BeginEditor(cancelled) => if EditorRefusal(g, cancelled).Some? then g else Admitted(g)
    case BeginStrictEditor(i, r, c) => if StrictMatch(g, i, r, c) then Admitted(g) else g
    case ReleaseEditor(h) =>
      // sync.Once: only the first call reaches the counter, which panics at zero
      if h !in g.held || g.editors == 0 then g
      else
        var released := g.(editors := g.editors - 1, held := g.held - {h});
        if released.editors == 0 then Broadcast(released) else released
    case BeginProducer =>
      if ProducerRefusal(g).Some? then g
      else g.(status := g.status.(generation := g.status.generation + 1, revision := g.status.revision + 1, running := true),
              producer := Started)
    case CheckEditors =>
      if !g.producer.Started? then g
      else if g.editors == 0 then g.(producer := Holding, context := Live)
      else g.(producer := Parked)
    case CancelContext =>
      if g.producer.Started? || (g.producer.Parked? && g.context.Live?) then g.(context := Ended) else g
    case AnnounceCancel =>
      // registered under the lock that the wait then gives up
      if g.producer.Parked? && g.context.Ended? then Broadcast(g.(context := Announced)) else g
    case WakeProducer(now) =>
      if !g.producer.Parked? || !g.signalled then g
      else if !g.context.Live? then Finished(g, now)
      else if g.editors == 0 then g.(producer := Holding, signalled := false)
      else g.(signalled := false)
    case ReleaseProducer(now) => if g.producer.Holding? then Finished(g, now) else g
    case Drain => Broadcast(g.(draining := true))
  }

  function Run(g: Gate, events: seq<Event>): Gate {
    if events == [] then g else Step(Run(g, events[..|events| - 1]), events[|events| - 1])
  }

  lemma {:induction false} RunConcat(g: Gate, a: seq<Event>, b: seq<Event>)
    ensures Run(g, a + b) == Run(Run(g, a), b)
  {
    if b == [] {
      assert a + b == a;
    } else {
      assert (a + b)[..|a + b| - 1] == a + b[..|b| - 1];
      RunConcat(g, a, b[..|b| - 1]);
    }
  }

  lemma RunSnoc(g: Gate, a: seq<Event>, e: Event)
    ensures Run(g, a + [e]) == Step(Run(g, a), e)
  {
    assert (a + [e])[..|a|] == a;
  }

  // ---- the invariant ----

  function B(running: bool): nat {
    if running then 1 else 0
  }

  ghost predicate Inv(g: Gate) {
    && g.editors == |g.held|
    && (forall h :: h in g.held ==> h < g.issued)
    && (g.status.running <==> !g.producer.Absent?)
    && (g.producer.Holding? ==> g.held == {})
    && (g.signalled || g.context.Announced? ==> g.producer.Parked?)
    && (g.producer.Parked? && (g.editors == 0 || g.context.Announced?) ==> g.signalled)
    && (g.producer.Absent? || g.producer.Holding? ==> g.context.Live?)
    && g.status.revision == 2 * g.status.generation - B(g.status.running)
    && g.status.completedGeneration == g.status.generation - B(g.status.running)
    && g.status.revision + B(g.status.running) <= MAX_SAFE_COUNTER
  }

  lemma EditorStepKeepsInvariant(g: Gate, event: Event)
    requires Inv(g) && (event.BeginEditor? || event.BeginStrictEditor? || event.ReleaseEditor?)
    ensures Inv(Step(g, event))
  {
    AdmittedKeepsCount(g);
    if event.ReleaseEditor? && event.handle in g.held {
      assert |g.held - {event.handle}| == |g.held| - 1;
    }
  }

  lemma StepKeepsInvariant(g: Gate, event: Event)
    requires Inv(g)
    ensures Inv(Step(g, event))
  {
    if event.BeginEditor? || event.BeginStrictEditor? || event.ReleaseEditor? {
      EditorStepKeepsInvariant(g, event);
    }
  }

  lemma AdmittedKeepsCount(g: Gate)
    requires Inv(g)
    ensures Admitted(g).editors == |Admitted(g).held| && forall h :: h in Admitted(g).held ==> h < Admitted(g).issued
  {
    assert g.issued !in g.held;
    assert |g.held + {g.issued}| == |g.held| + 1;
  }

  lemma {:induction false} RunKeepsInvariant(instanceId: string, events: seq<Event>)
    ensures Inv(Run(New(instanceId), events))
  {
    if events != [] {
      RunKeepsInvariant(instanceId, events[..|events| - 1]);
      StepKeepsInvariant(Run(New(instanceId), events[..|events| - 1]), events[|events| - 1]);
    }
  }

  // ---- main results ----

  /** Exclusion, in every reachable state. */
  lemma EditorsAndProducersExclude(instanceId: string, events: seq<Event>)
    ensures var g := Run(New(instanceId), events);
            && g.editors == |g.held|
            && (g.producer.Holding? ==> g.editors == 0)
            && (g.status.running <==> !g.producer.Absent?)
            && (forall c :: Step(g, BeginEditor(c)).editors > g.editors ==> g.producer.Absent?)
            && (forall i, r, c :: Step(g, BeginStrictEditor(i, r, c)).editors > g.editors ==> g.producer.Absent?)
            && (!g.producer.Absent? ==> Step(g, BeginProducer) == g)
            && (forall h :: h in g.held ==> g.editors > 0)
  {
    RunKeepsInvariant(instanceId, events);
    var g := Run(New(instanceId), events);
    forall h | h in g.held ensures g.editors > 0 {
      assert |g.held| > 0;
    }
  }

  /** A release gives back exactly one slot the first time and nothing after. */
  lemma ReleaseIsOneShot(instanceId: string, events: seq<Event>, handle: nat, later: seq<Event>)
    ensures var g := Run(New(instanceId), events);
            && (handle in g.held ==> Step(g, ReleaseEditor(handle)).editors == g.editors - 1)
            && (handle < g.issued ==>
                  var after := Run(Step(g, ReleaseEditor(handle)), later);
                  handle !in after.held && Step(after, ReleaseEditor(handle)) == after)
  {
    RunKeepsInvariant(instanceId, events);
    var g := Run(New(instanceId), events);
    if handle in g.held {
      assert |g.held| > 0;
    }
    if handle < g.issued {
      ReleasedStaysReleased(Step(g, ReleaseEditor(handle)), handle, later);
    }
  }

  lemma ReleasedStep(g: Gate, handle: nat, event: Event)
    requires handle !in g.held && handle < g.issued
    ensures handle !in Step(g, event).held && handle < Step(g, event).issued
  {}

  lemma {:induction false} ReleasedStaysReleased(g: Gate, handle: nat, events: seq<Event>)
    requires handle !in g.held && handle < g.issued
    ensures handle !in Run(g, events).held && handle < Run(g, events).issued
  {
    if events != [] {
      var n := |events| - 1;
      ReleasedStaysReleased(g, handle, events[..n]);
      ReleasedStep(Run(g, events[..n]), handle, events[n]);
    }
  }

  lemma Counters(instanceId: string, events: seq<Event>)
    ensures var s := Run(New(instanceId), events).status;
            && s.revision == 2 * s.generation - B(s.running)
            && s.completedGeneration == s.generation - B(s.running)
            && s.revision <= MAX_SAFE_COUNTER && s.generation <= MAX_SAFE_COUNTER
  {
    RunKeepsInvariant(instanceId, events);
  }

  /** The revision is what runs out: an idle gate that is not draining refuses a
      producer for exhausted counters exactly from generation 2^52-1 on, half
      the bound the code's first test names. */
  lemma ExhaustedExactly(instanceId: string, events: seq<Event>)
    ensures var g := Run(New(instanceId), events);
            ProducerRefusal(g) == Some(CountersExhausted)
            <==> !g.draining && !g.status.running && g.status.generation >= 0xf_ffff_ffff_ffff
  {
    RunKeepsInvariant(instanceId, events);
  }

  /** An ordinary editor is admitted exactly when its context is live and no
      producer runs; it then has a slot of its own and nothing else has changed. */
  lemma EditorAdmittedExactly(instanceId: string, events: seq<Event>, cancelled: bool)
    ensures var g := Run(New(instanceId), events);
            var g' := Step(g, BeginEditor(cancelled));
            && (EditorRefusal(g, cancelled) == Some(Cancelled) <==> cancelled)
            && (EditorRefusal(g, cancelled) == Some(ProducerRunning) <==> !cancelled && g.status.running)
            && if cancelled || g.status.running then g' == g
               else
                 && g.issued !in g.held && g'.held == g.held + {g.issued} && g'.editors == g.editors + 1 == |g'.held|
                 && g.issued < g'.issued && g' == g.(editors := g'.editors, held := g'.held, issued := g'.issued)
  {
    RunKeepsInvariant(instanceId, events);
  }

  /** A producer is announced exactly when the gate does not drain, no producer
      runs and the counters have room; from then on editors are refused, and it
      holds the gate at once exactly when no editor is in. */
  lemma ProducerBeginsExactly(instanceId: string, events: seq<Event>, cancelled: bool)
    ensures var g := Run(New(instanceId), events);
            var g' := Step(g, BeginProducer);
            && (ProducerRefusal(g) == Some(Draining) <==> g.draining)
            && (ProducerRefusal(g) == Some(ProducerRunning) <==> !g.draining && g.status.running)
            && if g.draining || g.status.running || g.status.generation >= 0xf_ffff_ffff_ffff then g' == g
               else
                 && g'.status == g.status.(running := true, generation := g.status.generation + 1, revision := g.status.revision + 1)
                 && g' == g.(status := g'.status, producer := Started)
                 && Step(g', BeginEditor(cancelled)) == g'
                 && (Step(g', CheckEditors).producer.Holding? <==> g.held == {})
  {
    RunKeepsInvariant(instanceId, events);
  }

  /** Steps that belong to callers other than the waiting producer. */
  predicate ByOthers(events: seq<Event>) {
    forall i :: 0 <= i < |events| ==> !events[i].CheckEditors? && !events[i].WakeProducer? && !events[i].ReleaseProducer?
  }

  /** No wake-up is lost: a parked producer still has to wait, or a broadcast
      has reached it, or the one its context owes is still to come. */
  lemma NoWakeIsLost(instanceId: string, events: seq<Event>)
    ensures var g := Run(New(instanceId), events);
            g.producer.Parked? ==>
              && (g.signalled || g.context.Ended? || (g.held != {} && g.context.Live?))
              && (g.context.Ended? ==> Step(g, AnnounceCancel).signalled)
  {
    RunKeepsInvariant(instanceId, events);
  }

  ghost predicate Outlasts(g: Gate, g': Gate) {
    && g'.producer == g.producer && g'.status == g.status
    && (g.signalled ==> g'.signalled) && (!g.context.Live? ==> !g'.context.Live?)
  }

  lemma WaitingStep(g: Gate, event: Event)
    requires Inv(g) && (g.producer.Started? || g.producer.Parked?)
    requires !event.CheckEditors? && !event.WakeProducer? && !event.ReleaseProducer?
    ensures Outlasts(g, Step(g, event))
  {}

  /** Other callers leave a wait and its published status alone, and never take
      a cancellation or a broadcast back. */
  lemma {:induction false} WaitingSurvives(g: Gate, events: seq<Event>)
    requires Inv(g) && (g.producer.Started? || g.producer.Parked?) && ByOthers(events)
    ensures Inv(Run(g, events)) && Outlasts(g, Run(g, events))
  {
    if events != [] {
      var n := |events| - 1;
      WaitingSurvives(g, events[..n]);
      StepKeepsInvariant(Run(g, events[..n]), events[n]);
      WaitingStep(Run(g, events[..n]), events[n]);
    }
  }

  /** A wait whose context is done completes the generation it published,
      whatever other callers do before and after the owed broadcast. */
  lemma CancelledWaitCompletes(instanceId: string, events: seq<Event>, before: seq<Event>, after: seq<Event>, now: string)
    requires Run(New(instanceId), events).producer.Parked? && !Run(New(instanceId), events).context.Live?
    requires ByOthers(before) && ByOthers(after)
    ensures var g := Run(New(instanceId), events);
            var woken := Step(Run(Step(Run(g, before), AnnounceCancel), after), WakeProducer(now));
            && woken.producer.Absent? && !woken.status.running
            && woken.status.completedGeneration == g.status.generation && woken.status.revision == g.status.revision + 1
  {
    RunKeepsInvariant(instanceId, events);
    var g := Run(New(instanceId), events);
    WaitingSurvives(g, before);
    StepKeepsInvariant(Run(g, before), AnnounceCancel);
    WaitingSurvives(Step(Run(g, before), AnnounceCancel), after);
  }

  /** A context that ends while its producer waits ends the wait.
      One that ends before the first look does so only if that look finds an
      editor: otherwise the producer holds the gate, cancelled or not. */
  lemma CancelEndsTheWait(instanceId: string, events: seq<Event>, before: seq<Event>, after: seq<Event>, now: string)
    requires var g := Run(New(instanceId), events); g.producer.Started? || g.producer.Parked?
    requires ByOthers(before) && ByOthers(after)
    ensures var g := Run(New(instanceId), events);
            var looked := Step(Run(Step(g, CancelContext), before), CheckEditors);
            var woken := Step(Run(Step(looked, AnnounceCancel), after), WakeProducer(now));
            && (looked.producer.Holding? <==> g.producer.Started? && Run(Step(g, CancelContext), before).held == {})
            && (!looked.producer.Holding? ==>
                  && looked.producer.Parked? && woken.producer.Absent? && !woken.status.running
                  && woken.status.completedGeneration == g.status.generation)
  {
    RunKeepsInvariant(instanceId, events);
    var g := Run(New(instanceId), events);
    StepKeepsInvariant(g, CancelContext);
    WaitingSurvives(Step(g, CancelContext), before);
    var looked := Step(Run(Step(g, CancelContext), before), CheckEditors);
    StepKeepsInvariant(Run(Step(g, CancelContext), before), CheckEditors);
    if looked.producer.Parked? {
      StepKeepsInvariant(looked, AnnounceCancel);
      WaitingSurvives(Step(looked, AnnounceCancel), after);
    }
  }

  /** A wake-up that still finds an editor changes nothing but that it has been heard. */
  lemma EarlyWakeWaitsOn(g: Gate, now: string)
    requires Inv(g) && g.producer.Parked? && g.context.Live? && g.held != {}
    ensures Step(g, WakeProducer(now)) == g.(signalled := false)
  {}

  lemma DrainStep(g: Gate, event: Event)
    requires g.draining
    ensures Step(g, event).draining
  {}

  /** Draining lets a producer that was admitted finish and admits no other, ever. */
  lemma {:induction false} DrainedForGood(g: Gate, later: seq<Event>)
    ensures var drained := Step(g, Drain);
            && drained.producer == g.producer && drained.status == g.status && drained.editors == g.editors && drained.held == g.held
            && Run(drained, later).draining && ProducerRefusal(Run(drained, later)) == Some(Draining)
            && Step(Run(drained, later), BeginProducer) == Run(drained, later)
  {
    if later != [] {
      DrainedForGood(g, later[..|later| - 1]);
      DrainStep(Run(Step(g, Drain), later[..|later| - 1]), later[|later| - 1]);
    }
  }

  /** A wait that is not cancelled is admitted by its next wake-up once the last
      editor has gone, and the last editor's release brings that wake-up. */
  lemma LastEditorAdmitsTheProducer(instanceId: string, events: seq<Event>, now: string)
    ensures var g := Run(New(instanceId), events);
            && (g.producer.Started? && g.held == {} ==> Step(g, CheckEditors).producer.Holding?)
            && (g.producer.Parked? && g.context.Live? ==>
                  && (g.held == {} ==> Step(g, WakeProducer(now)).producer.Holding?)
                  && forall h :: g.held == {h} ==> Step(Step(g, ReleaseEditor(h)), WakeProducer(now)).producer.Holding?)
  {
    RunKeepsInvariant(instanceId, events);
    var g := Run(New(instanceId), events);
    forall h | g.producer.Parked? && g.context.Live? && g.held == {h}
      ensures Step(Step(g, ReleaseEditor(h)), WakeProducer(now)).producer.Holding?
    {
      assert h in g.held && |g.held| == 1;
    }
  }

  /** Whether a step began or finished a producer. */
  predicate Turns(g: Gate, event: Event) {
    Step(g, event).status.running != g.status.running
  }

  predicate Quiet(g: Gate, events: seq<Event>) {
    forall n :: 0 <= n < |events| ==> !Turns(Run(g, events[..n]), events[n])
  }

  lemma StatusMovesWithItsRevision(g: Gate, event: Event)
    requires Inv(g)
    ensures if Turns(g, event) then Step(g, event).status.revision == g.status.revision + 1
            else Step(g, event).status == g.status
    ensures Step(g, event).status.instanceId == g.status.instanceId
  {}

  lemma QuietSnoc(g: Gate, events: seq<Event>)
    requires events != []
    ensures var init, last := events[..|events| - 1], events[|events| - 1];
            Quiet(g, events) <==> Quiet(g, init) && !Turns(Run(g, init), last)
  {
    var init, last := events[..|events| - 1], events[|events| - 1];
    if Quiet(g, events) {
      assert !Turns(Run(g, events[..|init|]), events[|init|]);
      forall n | 0 <= n < |init| ensures !Turns(Run(g, init[..n]), init[n]) {
        assert init[..n] == events[..n];
        assert !Turns(Run(g, events[..n]), events[n]);
      }
    }
    if Quiet(g, init) && !Turns(Run(g, init), last) {
      forall n | 0 <= n < |events| ensures !Turns(Run(g, events[..n]), events[n]) {
        if n < |init| {
          assert init[..n] == events[..n];
          assert !Turns(Run(g, init[..n]), init[n]);
        }
      }
    }
  }

  lemma {:induction false} SameRevisionIsQuiet(g: Gate, events: seq<Event>)
    requires Inv(g)
    ensures Inv(Run(g, events)) && Run(g, events).status.revision >= g.status.revision
    ensures Run(g, events).status.revision == g.status.revision <==> Quiet(g, events)
    ensures Quiet(g, events) ==> Run(g, events).status == g.status
  {
    if events != [] {
      var init, last := events[..|events| - 1], events[|events| - 1];
      SameRevisionIsQuiet(g, init);
      StepKeepsInvariant(Run(g, init), last);
      StatusMovesWithItsRevision(Run(g, init), last);
      QuietSnoc(g, events);
    }
  }

  /** Freshness: an editor presenting the values of an earlier status is
      admitted exactly when that status was idle and no producer has begun or
      finished since; the whole status is then still the same. */
  lemma StrictEditorIsFresh(instanceId: string, before: seq<Event>, between: seq<Event>)
    ensures var seen := Run(New(instanceId), before);
            var g := Run(New(instanceId), before + between);
            && (StrictMatch(g, seen.status.instanceId, seen.status.revision, seen.status.completedGeneration)
                <==> !seen.status.running && Quiet(seen, between))
            && (Quiet(seen, between) ==> g.status == seen.status)
  {
    var seen := Run(New(instanceId), before);
    RunKeepsInvariant(instanceId, before);
    RunConcat(New(instanceId), before, between);
    SameRevisionIsQuiet(seen, between);
    InstanceNeverChanges(seen, between);
  }

  lemma InstanceStays(g: Gate, event: Event)
    ensures Step(g, event).status.instanceId == g.status.instanceId
  {}

  lemma {:induction false} InstanceNeverChanges(g: Gate, events: seq<Event>)
    ensures Run(g, events).status.instanceId == g.status.instanceId
  {
    if events != [] {
      var n := |events| - 1;
      InstanceNeverChanges(g, events[..n]);
      InstanceStays(Run(g, events[..n]), events[n]);
    }
  }
}

/** The gate as an object: every method is the code's critical section. */
module EditorGateObject {

  import opened Wrappers
  import opened EditorGate

  /** What other callers did while the producer was parked, up to the moment it
      would next take the lock. */
  datatype Wake = Wake(others: seq<Event>, now: string)

  class GateObject {
    var status: Status
    var editors: nat
    var draining: bool
    var held: set<nat>
    var issued: nat
    var producer: Producer
    var context: Context
    var signalled: bool

    function State(): Gate
      reads this
    {
      Gate(status, editors, draining, held, issued, producer, context, signalled)
    }

    constructor (instanceId: string)
      ensures State() == New(instanceId)
    {
      status := Status(1, instanceId, 0, 0, 0, false, "");
      editors, draining, held, issued, producer, context, signalled := 0, false, {}, 0, Absent, Live, false;
    }

    method BeginEditorContext(cancelled: bool) returns (r: Result<nat, Refusal>)
      modifies this
      ensures State() == Step(old(State()), EditorGate.BeginEditor(cancelled))
      ensures r == if cancelled then Err(Cancelled) else if old(status).running then Err(ProducerRunning) else Ok(old(issued))
    {
      if cancelled {
        return Err(Cancelled);
      }
      if status.running {
        return Err(ProducerRunning);
      }
      editors := editors + 1;
      var handle := EditorRelease();
      r := Ok(handle);
    }

    /** The closure handed out is named by its number until it runs. */
    method EditorRelease() returns (handle: nat)
      modifies this`held, this`issued
      ensures handle == old(issued) && issued == old(issued) + 1 && held == old(held) + {handle}
    {
      handle := issued;
      held := held + {handle};
      issued := issued + 1;
    }

    method BeginStrictEditor(instanceId: string, revision: nat, completedGeneration: nat)
      returns (handle: Option<nat>, seen: Status)
      modifies this
      ensures State() == Step(old(State()), EditorGate.BeginStrictEditor(instanceId, revision, completedGeneration))
      ensures seen == old(status)
      ensures handle == if StrictMatch(old(State()), instanceId, revision, completedGeneration) then Some(old(issued)) else None
    {
      seen := status;
      if status.running || instanceId != status.instanceId || revision != status.revision
         || completedGeneration != status.completedGeneration
      {
        return None, seen;
      }
      editors := editors + 1;
      var h := EditorRelease();
      handle := Some(h);
    }

    /** The panic on a zero count is unreachable while the invariant holds. */
    method Release(handle: nat)
      requires Inv(State())
      modifies this
      ensures State() == Step(old(State()), ReleaseEditor(handle))
    {
      if handle in held {
        assert |held| > 0;
        assert editors != 0;
        held := held - {handle};
        editors := editors - 1;
        if editors == 0 {
          BroadcastAll();
        }
      }
    }

    method BroadcastAll()
      modifies this`signalled
      ensures State() == Broadcast(old(State()))
    {
      signalled := producer.Parked?;
    }

    method FinishProducerLocked(now: string)
      modifies this
      ensures State() == Finished(old(State()), now)
    {
      status := status.(completedGeneration := status.generation, revision := status.revision + 1,
                        running := false, lastRun := now);
      producer, context, signalled := Absent, Live, false;
    }

    method DrainGate()
      modifies this`draining, this`signalled
      ensures State() == Step(old(State()), Drain)
    {
      draining := true;
      BroadcastAll();
    }

    method ReleaseProducerOnce(now: string)
      modifies this
      ensures State() == Step(old(State()), EditorGate.ReleaseProducer(now))
    {
      if producer.Holding? {
        FinishProducerLocked(now);
      }
    }

    /** What other callers made of the gate while this one was without the lock. */
    method Become(g: Gate)
      modifies this
      ensures State() == g
    {
      status, editors, draining, held := g.status, g.editors, g.draining, g.held;
      issued, producer, context, signalled := g.issued, g.producer, g.context, g.signalled;
    }

    method Others(events: seq<Event>)
      modifies this
      ensures State() == Run(old(State()), events)
    {
      Become(Run(State(), events));
    }

    /** The whole call. `early` is what other callers do between the announcement
        of the running state and the first look at the editor count; None when
        it is still waiting after the last wake. `ran` is what happened, in order. */
    method BeginProducerContext(early: seq<Event>, wakes: seq<Wake>) returns (r: Option<Result<(), Refusal>>, ghost ran: seq<Event>)
      requires ByOthers(early) && forall i :: 0 <= i < |wakes| ==> ByOthers(wakes[i].others)
      requires Inv(State())
      modifies this
      ensures State() == Run(old(State()), ran) && Inv(State())
      ensures old(ProducerRefusal(State())).Some? ==> r == Some(Err(old(ProducerRefusal(State())).value)) && State() == old(State())
      ensures old(ProducerRefusal(State())).None? ==>
                && [BeginProducer] + early + [CheckEditors] <= ran
                && match r
                   case None => producer.Parked?
                   case Some(Ok(_)) => producer.Holding? && held == {}
                   case Some(Err(e)) => e == Cancelled && producer.Absent? && !status.running
                                        && status.completedGeneration == old(status.generation) + 1
      ensures r == Some(Err(Draining)) <==> old(draining)
      ensures r == Some(Err(ProducerRunning)) <==> !old(draining) && old(status).running
      ensures old(ProducerRefusal(State())).None? && early == [] && old(held) == {} ==> r == Some(Ok(()))
    {
      ran := [];
      if draining {
        return Some(Err(Draining)), ran;
      }
      if status.running {
        return Some(Err(ProducerRunning)), ran;
      }
      if status.generation >= MAX_SAFE_COUNTER || status.revision > MAX_SAFE_COUNTER - 2 {
        return Some(Err(CountersExhausted)), ran;
      }
      ghost var before := State();
      ran := Announce(early);
      r, ran := AwaitEditors(wakes, before, ran);
    }

    /** The running state is published; observers are told without the lock. */
    method Announce(early: seq<Event>) returns (ghost ran: seq<Event>)
      requires Inv(State()) && ProducerRefusal(State()).None? && ByOthers(early)
      modifies this
      ensures ran == [BeginProducer] + early && State() == Run(old(State()), ran) && Inv(State())
      ensures producer.Started? && status.generation == old(status.generation) + 1 && (early == [] ==> editors == old(editors))
    {
      ghost var before := State();
      status := status.(generation := status.generation + 1, revision := status.revision + 1, running := true);
      producer := Started;
      StepKeepsInvariant(before, BeginProducer);
      WaitingSurvives(State(), early);
      Others(early);
      ran := [BeginProducer] + early;
      BegunBy(before, early);
    }

    /** The loop's guard, before anything was waited for. */
    method FirstLook()
      requires Inv(State()) && producer.Started?
      modifies this
      ensures State() == Step(old(State()), CheckEditors) && Inv(State())
      ensures status == old(status) && if editors == 0 then producer.Holding? else producer.Parked?
    {
      StepKeepsInvariant(State(), CheckEditors);
      if editors > 0 {
        producer := Parked;
      } else {
        producer, context := Holding, Live;
      }
    }

    /** The wait loop, from the first look at the editor count. */
    method AwaitEditors(wakes: seq<Wake>, ghost before: Gate, ghost begun: seq<Event>)
        returns (r: Option<Result<(), Refusal>>, ghost ran: seq<Event>)
      requires forall i :: 0 <= i < |wakes| ==> ByOthers(wakes[i].others)
      requires State() == Run(before, begun) && Inv(State()) && producer.Started?
      modifies this
      ensures State() == Run(before, ran) && Inv(State()) && begun + [CheckEditors] <= ran
      ensures old(editors) == 0 ==> r == Some(Ok(()))
      ensures match r
              case None => producer.Parked?
              case Some(Ok(_)) => producer.Holding?
              case Some(Err(e)) => e == Cancelled && producer.Absent? && !status.running
                                   && status.completedGeneration == old(status.generation)
    {
      RunSnoc(before, begun, CheckEditors);
      FirstLook();
      ran := begun + [CheckEditors];
      var i := 0;
      while producer.Parked? && i < |wakes|
        invariant 0 <= i <= |wakes|
        invariant State() == Run(before, ran) && Inv(State()) && begun + [CheckEditors] <= ran
        invariant producer.Parked? || producer.Holding?
        invariant status.generation == old(status.generation)
        invariant old(editors) == 0 ==> producer.Holding?
      {
        ghost var trace := ran + wakes[i].others + [WakeProducer(wakes[i].now)];
        RanOn(before, ran, wakes[i]);
        var cancelled := WakeOnce(wakes[i]);
        ran := trace;
        if cancelled {
          return Some(Err(Cancelled)), ran;
        }
        i := i + 1;
      }
      r := if producer.Parked? then None else Some(Ok(()));
    }

    /** One turn of the loop: asleep until a broadcast, then the context and the
        count are looked at under the lock. */
    method WakeOnce(wake: Wake) returns (cancelled: bool)
      requires Inv(State()) && producer.Parked? && ByOthers(wake.others)
      modifies this
      ensures State() == Step(Run(old(State()), wake.others), WakeProducer(wake.now)) && Inv(State())
      ensures status.generation == old(status.generation)
      ensures if cancelled then producer.Absent? && !status.running && status.completedGeneration == status.generation
              else producer.Parked? || producer.Holding?
    {
      WaitingSurvives(State(), wake.others);
      Others(wake.others);
      StepKeepsInvariant(State(), WakeProducer(wake.now));
      cancelled := false;
      if !signalled {
        return;
      }
      if !context.Live? {
        FinishProducerLocked(wake.now);
        return true;
      }
      signalled := false;
      if editors == 0 {
        producer := Holding;
      }
    }
  }

  lemma BegunBy(g: Gate, early: seq<Event>)
    ensures Run(g, [BeginProducer] + early) == Run(Step(g, BeginProducer), early)
  {
    RunConcat(g, [BeginProducer], early);
    RunSnoc(g, [], BeginProducer);
    assert [] + [BeginProducer] == [BeginProducer];
  }

  lemma RanOn(g: Gate, ran: seq<Event>, wake: Wake)
    ensures Run(g, ran + wake.others + [WakeProducer(wake.now)])
         == Step(Run(Run(g, ran), wake.others), WakeProducer(wake.now))
  {
    RunConcat(g, ran, wake.others);
    RunSnoc(g, ran + wake.others, WakeProducer(wake.now));
  }
}
