/** The migration as the code runs it, call by call (cmd/migrate/main.go). */
module SeedPublisher {

  import Wrappers
  import opened SeedPublication

  /** Calls of one run, with other programs in between. */
  predicate CallsOnly(events: seq<Event>) {
    forall e :: e in events ==> e.Step? || e.Foreign?
  }

  lemma {:induction false} RunsCompose(m: Machine, first: seq<Event>, second: seq<Event>)
    ensures Run(m, first + second) == Run(Run(m, first), second)
  {
    var n := |second| - 1;
    if second == [] {
      assert first + second == first;
    } else {
      assert (first + second)[..|first + second| - 1] == first + second[..n];
      RunsCompose(m, first, second[..n]);
    }
  }

  datatype CategoryImport = CategoryImport(optional: bool, count: Wrappers.Option<nat>)

  function Count(category: CategoryImport): nat {
    if category.count.Some? then category.count.value else 0
  }

  function Total(categories: seq<CategoryImport>): nat {
    if categories == [] then 0
    else Total(categories[..|categories| - 1]) + Count(categories[|categories| - 1])
  }

  /** The two import loops and their final count check. A count of None is an
      import that failed; failAfter is the injected failure, if any. */
  method ImportObjects(categories: seq<CategoryImport>, events: seq<bool>, failAfter: Wrappers.Option<nat>,
                       wantEntries: nat, wantStories: nat) returns (ok: bool)
    ensures ok <==> && (forall i :: 0 <= i < |categories| ==>
                          categories[i].count.Some? && (categories[i].count.value > 0 || categories[i].optional))
                    && (forall i :: 0 <= i < |events| ==> events[i])
                    && (failAfter.Some? ==> !(1 <= failAfter.value <= |categories| + |events|))
                    && Total(categories) == wantEntries > 0 && |events| == wantStories > 0
  {
    var objects, importedEntries, importedEvents := 0, 0, 0;
    for i := 0 to |categories|
      invariant objects == i && importedEntries == Total(categories[..i])
      invariant forall j :: 0 <= j < i ==> categories[j].count.Some? && (categories[j].count.value > 0 || categories[j].optional)
      invariant failAfter.Some? ==> !(1 <= failAfter.value <= objects)
    {
      if categories[i].count.None? || (categories[i].count.value == 0 && !categories[i].optional) {
        return false;
      }
      assert categories[..i + 1][..i] == categories[..i];
      importedEntries := importedEntries + categories[i].count.value;
      objects := objects + 1;
      if failAfter == Wrappers.Some(objects) {
        return false;
      }
    }
    assert categories[..|categories|] == categories;
    for i := 0 to |events|
      invariant objects == |categories| + i && importedEvents == i
      invariant forall j :: 0 <= j < i ==> events[j]
      invariant failAfter.Some? ==> !(1 <= failAfter.value <= objects)
    {
      if !events[i] {
        return false;
      }
      objects := objects + 1;
      importedEvents := importedEvents + 1;
      if failAfter == Wrappers.Some(objects) {
        return false;
      }
    }
    ok := objects == |categories| + |events|
          && importedEntries != 0 && importedEntries == wantEntries
          && importedEvents != 0 && importedEvents == wantStories;
  }

  class FileSystem {
    var visible: Directory
    var durable: Directory
    var pending: seq<Op>
    var files: seq<File>

    ghost function State(): Disk
      reads this
    {
      Disk(visible, durable, pending, files)
    }

    /** One system call's luck. */
    method Call() returns (fate: Fate)
    {
      if
      case true => fate := Ok;
      case true => fate := Fail;
      case true => fate := Partial;
    }

    /** Another program may make the target, if there is none. */
    method Elsewhere() returns (made: bool)
      modifies this
      ensures State() == if made && Target !in old(visible) then Created(old(State()), Target, File(true, false, false)) else old(State())
    {
      if
      case true => made := false;
      case true =>
        made := true;
        if Target !in visible {
          visible := visible[Target := |files|];
          pending := pending + [Link(Target, |files|)];
          files := files + [File(true, false, false)];
        }
    }

    method Remove(name: Name) returns (fate: Fate)
      modifies this
      ensures State() == if fate.Ok? then Do(old(State()), Unlink(name)) else old(State())
    {
      fate := Call();
      if fate.Ok? {
        visible := visible - {name};
        pending := pending + [Unlink(name)];
      }
    }

    /** Removes a file that may not be there; the result is not looked at. */
    method Clean(name: Name) returns (fate: Fate)
      modifies this
      ensures State() == if fate.Ok? && name in old(visible) then Do(old(State()), Unlink(name)) else old(State())
    {
      if name in visible {
        fate := Remove(name);
      } else {
        fate := Call();
      }
    }

    method FsyncDir() returns (fate: Fate)
      modifies this
      ensures State() == if fate.Ok? then Synced(old(State())) else old(State())
    {
      fate := Call();
      if fate.Ok? {
        durable := visible;
        pending := [];
      }
    }

    method Create(name: Name) returns (fate: Fate)
      modifies this
      ensures State() == if fate.Fail? then old(State()) else Created(old(State()), name, File(false, false, false))
    {
      fate := Call();
      if !fate.Fail? {
        visible := visible[name := |files|];
        pending := pending + [Link(name, |files|)];
        files := files + [File(false, false, false)];
      }
    }

    /** Creates a file that must not exist yet. */
    method CreateExclusive(name: Name) returns (fate: Fate)
      modifies this
      ensures State() == if fate.Fail? || name in old(visible) then old(State()) else Created(old(State()), name, File(false, false, false))
    {
      fate := Call();
      if !fate.Fail? && name !in visible {
        visible := visible[name := |files|];
        pending := pending + [Link(name, |files|)];
        files := files + [File(false, false, false)];
      }
    }

    method RenameNoReplace(from: Name, to: Name, inode: nat) returns (fate: Fate)
      modifies this
      ensures State() == if fate.Ok? && to !in old(visible) then Do(old(State()), Move(from, to, inode)) else old(State())
    {
      fate := Call();
      if fate.Ok? && to !in visible {
        visible := (visible - {from})[to := inode];
        pending := pending + [Move(from, to, inode)];
      }
    }

    method SetContent(inode: nat, verified: bool, synced: bool) returns (fate: Fate)
      requires inode < |files|
      modifies this`files
      ensures files == if fate.Ok? then old(files)[inode := old(files)[inode].(verified := old(files)[inode].verified || verified, synced := old(files)[inode].synced || synced)] else old(files)
    {
      fate := Call();
      if fate.Ok? {
        var file := files[inode];
        files := files[inode := file.(verified := file.verified || verified, synced := file.synced || synced)];
      }
    }
  }

  /** m is where some calls of the run that began at start, and what other
      programs did in between, lead. */
  ghost predicate Reaches(start: Machine, m: Machine) {
    exists events :: CallsOnly(events) && Run(start, events) == m
  }

  lemma Begin(start: Machine) returns (m: Machine)
    ensures m == start && Reaches(start, m)
  {
    m := start;
    assert CallsOnly([]) && Run(start, []) == start;
  }

  lemma AdvanceBy(start: Machine, m: Machine, e: Event) returns (next: Machine)
    requires Reaches(start, m) && (e.Step? || e.Foreign?)
    ensures next == Next(m, e) && Reaches(start, next)
  {
    next := Next(m, e);
    var events :| CallsOnly(events) && Run(start, events) == m;
    assert (events + [e])[..|events|] == events;
    assert CallsOnly(events + [e]) && Run(start, events + [e]) == next;
  }

  lemma Advance(start: Machine, m: Machine, fate: Fate) returns (next: Machine)
    requires Reaches(start, m)
    ensures next == Act(m, fate) && Reaches(start, next)
  {
    next := AdvanceBy(start, m, Step(fate));
  }

  /** Before a call another program may have made the target. */
  method Meanwhile(fs: FileSystem, ghost start: Machine, ghost m: Machine) returns (ghost next: Machine)
    requires Reaches(start, m) && m.disk == fs.State()
    modifies fs
    ensures Reaches(start, next) && next == m.(disk := fs.State())
    ensures Marker in fs.visible <==> Marker in old(fs.visible)
    ensures |fs.files| >= |old(fs.files)|
  {
    var made := fs.Elsewhere();
    next := m;
    if made {
      next := AdvanceBy(start, m, Foreign);
    }
  }

  lemma AdvanceCheck(start: Machine, m: Machine, fate: Fate) returns (next: Machine)
    requires Reaches(start, m) && PhaseOf(m.pc).Before?
    ensures next == ActBefore(m, fate) && Reaches(start, next)
  {
    next := Advance(start, m, fate);
  }

  lemma AdvanceFill(start: Machine, m: Machine, fate: Fate) returns (next: Machine)
    requires Reaches(start, m) && PhaseOf(m.pc).Filling?
    ensures next == ActStaging(m, fate) && Reaches(start, next)
  {
    next := Advance(start, m, fate);
  }

  lemma AdvancePublish(start: Machine, m: Machine, fate: Fate) returns (next: Machine)
    requires Reaches(start, m) && PhaseOf(m.pc).Publishing?
    ensures next == ActPublish(m, fate) && Reaches(start, next)
  {
    next := Advance(start, m, fate);
  }

  lemma AdvanceRecover(start: Machine, m: Machine, fate: Fate) returns (next: Machine)
    requires Reaches(start, m) && PhaseOf(m.pc).Recovering?
    ensures next == ActRecovery(m, fate) && Reaches(start, next)
  {
    next := Advance(start, m, fate);
  }

  lemma Joined(a: Machine, b: Machine, c: Machine)
    requires Reaches(a, b) && Reaches(b, c)
    ensures Reaches(a, c)
  {
    var first :| CallsOnly(first) && Run(a, first) == b;
    var second :| CallsOnly(second) && Run(b, second) == c;
    RunsCompose(a, first, second);
    assert CallsOnly(first + second);
  }

  lemma {:induction false} CallsKeep(start: Machine, events: seq<Event>)
    requires Inv(start) && CallsOnly(events)
    ensures Inv(Run(start, events)) && Run(start, events).run == start.run
  {
    if events != [] {
      var init, last := events[..|events| - 1], events[|events| - 1];
      assert last in events && forall e :: e in init ==> e in events;
      CallsKeep(start, init);
      NextKeepsInv(Run(start, init), last);
      CallKeepsRun(Run(start, init), last);
    }
  }

  lemma CallKeepsRun(m: Machine, e: Event)
    requires e.Step? || e.Foreign?
    ensures Next(m, e).run == m.run
  {}

  lemma ReachedKeeps(start: Machine, m: Machine)
    requires Inv(start) && Reaches(start, m)
    ensures Inv(m) && m.run == start.run
  {
    var events :| CallsOnly(events) && Run(start, events) == m;
    CallsKeep(start, events);
  }

  // ---- the parts of runContext ----

  /** A marker without a target is left over from an interrupted run. */
  method RecoverMarker(fs: FileSystem, ghost start: Machine) returns (ok: bool, ghost m: Machine)
    requires start.pc.CheckMarkedTarget? && start.disk == fs.State()
    modifies fs
    ensures Reaches(start, m) && m.disk == fs.State()
    ensures if ok then m.pc.CheckTarget? else m.pc.Idle? && m.outcome.Failed?
  {
    m := Begin(start);
    ok := false;
    var fate;
    m := Meanwhile(fs, start, m);
    fate := fs.Call();
    m := AdvanceCheck(start, m, fate);
    if !fate.Ok? || Target in fs.visible {
      return;
    }
    m := Meanwhile(fs, start, m);
    fate := fs.Remove(Marker);
    m := AdvanceCheck(start, m, fate);
    if !fate.Ok? {
      return;
    }
    m := Meanwhile(fs, start, m);
    fate := fs.FsyncDir();
    m := AdvanceCheck(start, m, fate);
    ok := fate.Ok?;
  }

  /** The marker and target checks; ok means no target stands in the way. */
  method CheckNames(fs: FileSystem, ghost start: Machine) returns (ok: bool, ghost m: Machine)
    requires start.pc.CheckMarker? && start.disk == fs.State()
    modifies fs
    ensures Reaches(start, m) && m.disk == fs.State()
    ensures if ok then m.pc.ReadSeed? else m.pc.Idle? && m.outcome.Failed?
  {
    m := Begin(start);
    ok := false;
    var fate;
    m := Meanwhile(fs, start, m);
    fate := fs.Call();
    m := AdvanceCheck(start, m, fate);
    if !fate.Ok? {
      return;
    }
    if Marker in fs.visible {
      ghost var marked := m;
      ok, m := RecoverMarker(fs, marked);
      Joined(start, marked, m);
      if !ok {
        return;
      }
    }
    m := Meanwhile(fs, start, m);
    fate := fs.Call();
    m := AdvanceCheck(start, m, fate);
    ok := fate.Ok? && Target !in fs.visible;
  }

  /** A fresh staging database; cleanup tells whether its name was used. */
  method MakeStaging(fs: FileSystem, run: nat, ghost start: Machine) returns (ok: bool, cleanup: bool, inode: nat, ghost m: Machine)
    requires start.pc.ReadSeed? && start.disk == fs.State() && start.run == run
    modifies fs
    ensures Reaches(start, m) && m.disk == fs.State()
    ensures ok ==> cleanup && m.pc.Import? && m.inode == inode < |fs.files|
    ensures !ok && cleanup ==> m.pc == Cleanup(Failed)
    ensures !ok && !cleanup ==> m.pc.Idle? && m.outcome.Failed?
  {
    m := Begin(start);
    cleanup, inode := false, 0;
    ok := false;
    var fate;
    m := Meanwhile(fs, start, m);
    fate := fs.Call();
    m := AdvanceCheck(start, m, fate);
    if !fate.Ok? {
      return;
    }
    m := Meanwhile(fs, start, m);
    fate := fs.Create(Staging(run));
    m := AdvanceCheck(start, m, fate);
    cleanup := !fate.Fail?;
    if !fate.Ok? {
      return;
    }
    m := Meanwhile(fs, start, m);
    fate := fs.Remove(Staging(run));
    m := AdvanceFill(start, m, fate);
    if !fate.Ok? {
      return;
    }
    m := Meanwhile(fs, start, m);
    inode := |fs.files|;
    fate := fs.Create(Staging(run));
    m := AdvanceFill(start, m, fate);
    ok := fate.Ok?;
  }

  /** Importing every object, reading it back, and syncing the file. */
  method FillStaging(fs: FileSystem, inode: nat, categories: seq<CategoryImport>, events: seq<bool>, failAfter: Wrappers.Option<nat>,
                     wantEntries: nat, wantStories: nat, ghost start: Machine) returns (ok: bool, ghost m: Machine)
    requires start.pc.Import? && start.disk == fs.State() && start.inode == inode < |fs.files|
    modifies fs
    ensures Reaches(start, m) && m.disk == fs.State() && m.inode == inode
    ensures if ok then m.pc.WriteMarker? else m.pc == Cleanup(Failed)
  {
    m := Begin(start);
    ok := false;
    var fate;
    var complete := ImportObjects(categories, events, failAfter, wantEntries, wantStories);
    fate := if complete then Ok else Fail;
    m := AdvanceFill(start, m, fate);
    if !fate.Ok? {
      return;
    }
    m := Meanwhile(fs, start, m);
    fate := fs.SetContent(inode, true, false);
    m := AdvanceFill(start, m, fate);
    if !fate.Ok? {
      return;
    }
    m := Meanwhile(fs, start, m);
    fate := fs.SetContent(inode, false, true);
    m := AdvanceFill(start, m, fate);
    ok := fate.Ok?;
  }

  /** The marker, made durable before the rename. */
  method Mark(fs: FileSystem, inode: nat, ghost start: Machine) returns (ok: bool, ghost m: Machine)
    requires start.pc.WriteMarker? && start.disk == fs.State() && start.inode == inode
    modifies fs
    ensures Reaches(start, m) && m.disk == fs.State()
    ensures m.inode == inode && if ok then m.pc.Rename? else m.pc == Cleanup(Failed)
  {
    m := Begin(start);
    ok := false;
    var fate;
    m := Meanwhile(fs, start, m);
    var marked := Marker in fs.visible;
    fate := fs.CreateExclusive(Marker);
    m := AdvancePublish(start, m, fate);
    if !fate.Ok? || marked {
      return;
    }
    m := Meanwhile(fs, start, m);
    fate := fs.FsyncDir();
    m := AdvancePublish(start, m, fate);
    ok := fate.Ok?;
  }

  /** The rename, and the marker's removal when it fails. */
  method MoveIntoPlace(fs: FileSystem, run: nat, inode: nat, ghost start: Machine) returns (ok: bool, ghost m: Machine)
    requires start.pc.Rename? && start.disk == fs.State() && start.run == run && start.inode == inode
    modifies fs
    ensures Reaches(start, m) && m.disk == fs.State()
    ensures if ok then m.pc.SyncTarget? else m.pc == Cleanup(Failed)
  {
    m := Begin(start);
    ok := false;
    var fate;
    m := Meanwhile(fs, start, m);
    var taken := Target in fs.visible;
    fate := fs.RenameNoReplace(Staging(run), Target, inode);
    m := AdvancePublish(start, m, fate);
    if !fate.Ok? || taken {
      m := Meanwhile(fs, start, m);
      fate := fs.Remove(Marker);
      m := AdvanceRecover(start, m, fate);
      m := Meanwhile(fs, start, m);
      fate := fs.FsyncDir();
      m := AdvanceRecover(start, m, fate);
      return;
    }
    ok := true;
  }

  /** The target's directory entry, or the target's removal when it cannot be confirmed. */
  method Confirm(fs: FileSystem, ghost start: Machine) returns (ok: bool, ghost m: Machine)
    requires start.pc.SyncTarget? && start.disk == fs.State()
    modifies fs
    ensures Reaches(start, m) && m.disk == fs.State()
    ensures if ok then m.pc.RemoveMarker? else m.pc == Cleanup(Failed)
  {
    m := Begin(start);
    ok := false;
    var fate;
    m := Meanwhile(fs, start, m);
    fate := fs.FsyncDir();
    m := AdvancePublish(start, m, fate);
    if !fate.Ok? {
      m := Meanwhile(fs, start, m);
      fate := fs.Remove(Target);
      m := AdvanceRecover(start, m, fate);
      m := Meanwhile(fs, start, m);
      fate := fs.FsyncDir();
      m := AdvanceRecover(start, m, fate);
      return;
    }
    ok := true;
  }

  /** The marker's return; failures here are only reported. */
  method PutMarkerBack(fs: FileSystem, ghost start: Machine) returns (ghost m: Machine)
    requires start.pc.RestoreMarker? && start.disk == fs.State()
    modifies fs
    ensures Reaches(start, m) && m.disk == fs.State() && m.pc == Cleanup(Failed)
  {
    m := Begin(start);
    m := Meanwhile(fs, start, m);
    var fate := fs.CreateExclusive(Marker);
    m := AdvanceRecover(start, m, fate);
    m := Meanwhile(fs, start, m);
    fate := fs.FsyncDir();
    m := AdvanceRecover(start, m, fate);
  }

  /** The marker's removal, and its return when that is not durable. */
  method Unmark(fs: FileSystem, ghost start: Machine) returns (ok: bool, ghost m: Machine)
    requires start.pc.RemoveMarker? && start.disk == fs.State()
    modifies fs
    ensures Reaches(start, m) && m.disk == fs.State()
    ensures m.pc == Cleanup(if ok then Published else Failed)
  {
    m := Begin(start);
    ok := false;
    m := Meanwhile(fs, start, m);
    var fate := fs.Remove(Marker);
    m := AdvancePublish(start, m, fate);
    if !fate.Ok? {
      return;
    }
    m := Meanwhile(fs, start, m);
    fate := fs.FsyncDir();
    m := AdvancePublish(start, m, fate);
    if !fate.Ok? {
      ghost var before := m;
      m := PutMarkerBack(fs, before);
      Joined(start, before, m);
      return;
    }
    ok := true;
  }

  /** From the complete staging database to the published one. */
  method Publish(fs: FileSystem, run: nat, inode: nat, ghost start: Machine) returns (ok: bool, ghost m: Machine)
    requires start.pc.WriteMarker? && start.disk == fs.State() && start.run == run && start.inode == inode && Inv(start)
    modifies fs
    ensures Reaches(start, m) && m.disk == fs.State()
    ensures m.pc == Cleanup(if ok then Published else Failed)
  {
    ok, m := Mark(fs, inode, start);
    if ok {
      ReachedKeeps(start, m);
      ghost var before := m;
      ok, m := MoveIntoPlace(fs, run, inode, before);
      Joined(start, before, m);
    }
    if ok {
      ghost var before := m;
      ok, m := Confirm(fs, before);
      Joined(start, before, m);
    }
    if ok {
      ghost var before := m;
      ok, m := Unmark(fs, before);
      Joined(start, before, m);
    }
  }

  /** The staging database, complete and synced, or what has to be cleaned up. */
  method Stage(fs: FileSystem, run: nat, categories: seq<CategoryImport>, events: seq<bool>, failAfter: Wrappers.Option<nat>,
               wantEntries: nat, wantStories: nat, ghost start: Machine)
      returns (ok: bool, cleanup: bool, inode: nat, ghost m: Machine)
    requires start.pc.ReadSeed? && start.disk == fs.State() && start.run == run
    modifies fs
    ensures Reaches(start, m) && m.disk == fs.State()
    ensures ok ==> cleanup && m.pc.WriteMarker? && m.inode == inode
    ensures !ok && cleanup ==> m.pc == Cleanup(Failed)
    ensures !ok && !cleanup ==> m.pc.Idle? && m.outcome.Failed?
  {
    ok, cleanup, inode, m := MakeStaging(fs, run, start);
    if ok {
      ghost var before := m;
      ok, m := FillStaging(fs, inode, categories, events, failAfter, wantEntries, wantStories, before);
      Joined(start, before, m);
    }
  }

  /** The deferred removal of the staging files. */
  method CleanUp(fs: FileSystem, run: nat, ghost start: Machine) returns (ghost m: Machine)
    requires start.pc.Cleanup? && start.disk == fs.State() && start.run == run
    modifies fs
    ensures Reaches(start, m) && m.disk == fs.State() && m.pc.Idle? && m.outcome == start.pc.result
  {
    m := Begin(start);
    m := Meanwhile(fs, start, m);
    var fate := fs.Clean(Staging(run));
    m := AdvanceRecover(start, m, fate);
  }

  /** runContext: one run of the model, with the same directory all along. A
      run that returns no error leaves what the server accepts for good. */
  method RunContext(fs: FileSystem, run: nat, categories: seq<CategoryImport>, events: seq<bool>, failAfter: Wrappers.Option<nat>,
                    wantEntries: nat, wantStories: nat, ghost before: Machine) returns (ok: bool, ghost m: Machine)
    requires before.pc.Idle? && before.disk == fs.State() && before.run + 1 == run && Inv(before)
    modifies fs
    ensures Reaches(Started(before), m) && m.disk == fs.State() && m.pc.Idle?
    ensures m.outcome == (if ok then Published else Failed) && Inv(m)
    ensures ok ==> Final(fs.State())
  {
    ghost var start := Started(before);
    var clear, cleanup, inode;
    ok := false;
    clear, m := CheckNames(fs, start);
    if clear {
      ghost var middle := m;
      ReachedKeeps(start, m);
      ok, cleanup, inode, m := Stage(fs, run, categories, events, failAfter, wantEntries, wantStories, middle);
      Joined(start, middle, m);
      ReachedKeeps(start, m);
      if ok {
        middle := m;
        ok, m := Publish(fs, run, inode, middle);
        Joined(start, middle, m);
        ReachedKeeps(start, m);
      }
      if cleanup {
        middle := m;
        m := CleanUp(fs, run, middle);
        Joined(start, middle, m);
      }
    }
    ReachedKeeps(start, m);
  }
}
