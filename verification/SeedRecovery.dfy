/** What a migration that fails leaves behind: its ways back, call by call
    (cmd/migrate/main.go). */
module SeedRecovery {

  import opened SeedPublication

  /** Both programs and the disk see the same under this name before and after. */
  predicate SameName(before: Disk, after: Disk, name: Name) {
    && (name in after.visible <==> name in before.visible)
    && (name in before.visible ==> after.visible[name] == before.visible[name])
  }

  /** The next two calls. */
  function Two(m: Machine, first: Fate, second: Fate): Machine {
    Next(Next(m, Step(first)), Step(second))
  }

  // ---- the ways back ----

  /** A rename that is refused takes the marker back: it is gone exactly when its
      removal succeeded, and for good when the directory was synced as well. The
      target, another program's or none, is left alone. */
  lemma RefusedRenameTakesBackTheMarker(m: Machine, events: seq<Event>, first: Fate, second: Fate, kept: set<nat>)
    requires Init(m) && Run(m, events).pc.RollbackMarker?
    ensures var before := Run(m, events);
            var after := Two(before, first, second);
            && after.pc == Cleanup(Failed) && SameName(before.disk, after.disk, Target)
            && Marker in before.disk.visible && (Marker in after.disk.visible <==> !first.Ok?)
            && (first.Ok? && second.Ok? ==> Settled(after.disk, Marker) && Marker !in Crashed(after.disk, kept).visible)
  {
    RunKeepsInvariant(m, events);
    var after := Two(Run(m, events), first, second);
    if first.Ok? && second.Ok? {
      SettledSurvivesCrash(after.disk, Marker, kept);
    }
  }

  /** A target whose place could not be confirmed is taken away again, and its
      marker stays to say so: the server accepts neither the directory nor, when
      the last sync succeeds, what any crash makes of it. */
  lemma UnconfirmedTargetIsTakenBack(m: Machine, events: seq<Event>, first: Fate, second: Fate, kept: set<nat>)
    requires Init(m) && Run(m, events).pc.RemoveTarget?
    ensures var before := Run(m, events);
            var after := Two(before, first, second);
            && after.pc == Cleanup(Failed) && Marker in after.disk.visible && !Accepted(after.disk)
            && Target in before.disk.visible && (Target in after.disk.visible <==> !first.Ok?)
            && (second.Ok? ==>
                  && Settled(after.disk, Marker) && Settled(after.disk, Target) && !Accepted(Crashed(after.disk, kept))
                  && (Target in Crashed(after.disk, kept).visible <==> !first.Ok?))
  {
    RunKeepsInvariant(m, events);
    var after := Two(Run(m, events), first, second);
    if second.Ok? {
      SettledSurvivesCrash(after.disk, Marker, kept);
      SettledSurvivesCrash(after.disk, Target, kept);
    }
  }

  lemma MarkerIsWritten(m: Machine, fate: Fate)
    requires Inv(m) && m.pc.RestoreMarker?
    ensures var after := Next(m, Step(fate));
            && after.pc.SyncRestored? && SameName(m.disk, after.disk, Target) && Target in after.disk.visible
            && (Marker in after.disk.visible <==> !fate.Fail? || Marker in m.disk.visible)
  {}

  lemma RestorationIsSynced(m: Machine, fate: Fate, kept: set<nat>)
    requires m.pc.SyncRestored?
    ensures var after := Next(m, Step(fate));
            && after.pc == Cleanup(Failed) && after.disk.visible == m.disk.visible
            && (fate.Ok? ==> Settled(after.disk, Marker) && (Accepted(Crashed(after.disk, kept)) ==> Marker !in m.disk.visible))
  {
    var after := Next(m, Step(fate));
    if fate.Ok? {
      SettledSurvivesCrash(after.disk, Marker, kept);
    }
  }

  /** When the marker's removal could not be confirmed the marker is written
      again: then, and only then, the server refuses the target until a later run,
      after any crash too once the directory was synced. The target itself stays. */
  lemma UnconfirmedRemovalRestoresTheMarker(m: Machine, events: seq<Event>, first: Fate, second: Fate, kept: set<nat>)
    requires Init(m) && Run(m, events).pc.RestoreMarker?
    ensures var before := Run(m, events);
            var after := Two(before, first, second);
            && after.pc == Cleanup(Failed) && Target in after.disk.visible && SameName(before.disk, after.disk, Target)
            && (Accepted(after.disk) <==> first.Fail? && Marker !in before.disk.visible)
            && (second.Ok? && !first.Fail? ==> Settled(after.disk, Marker) && !Accepted(Crashed(after.disk, kept)))
  {
    RunKeepsInvariant(m, events);
    MarkerIsWritten(Run(m, events), first);
    RestorationIsSynced(Next(Run(m, events), Step(first)), second, kept);
  }

  /** The last call ends the run with its outcome. It removes the staging file of
      this run, if it goes well, and nothing else. */
  lemma CleanupRemovesOnlyItsStaging(m: Machine, fate: Fate, name: Name)
    requires m.pc.Cleanup?
    ensures var after := Next(m, Step(fate));
            && after.pc.Idle? && after.outcome == m.pc.result && after.run == m.run
            && (fate.Ok? ==> Staging(m.run) !in after.disk.visible)
            && (name != Staging(m.run) || !fate.Ok? ==> SameName(m.disk, after.disk, name))
  {}
}
