/** Publication of a migrated seed database under crashes and failures
    (cmd/migrate/main.go), and the state the server accepts (seed.go). */
module SeedPublication {

  // ---- the directory ----

  datatype Name = Target | Marker | Staging(run: nat)

  /** What is known of a file's content. A foreign file was made by another program. */
  datatype File = File(foreign: bool, verified: bool, synced: bool)

  datatype Op = Link(name: Name, inode: nat) | Unlink(name: Name) | Move(from: Name, to: Name, inode: nat)

  type Directory = map<Name, nat>

  /** What programs see, what the disk holds, and the directory changes in
      between, any of which may survive a crash without the others. */
  datatype Disk = Disk(visible: Directory, durable: Directory, pending: seq<Op>, files: seq<File>)

  function Applied(dir: Directory, op: Op): Directory {
    match op
    case Link(name, inode) => dir[name := inode]
    case Unlink(name) => dir - {name}
    case Move(from, to, inode) => (dir - {from})[to := inode]
  }

  function ApplyAll(dir: Directory, ops: seq<Op>): Directory {
    if ops == [] then dir else Applied(ApplyAll(dir, ops[..|ops| - 1]), ops[|ops| - 1])
  }

  /** The operations a crash lets through: any of them, in their order. */
  function Survivors(ops: seq<Op>, kept: set<nat>): seq<Op> {
    if ops == [] then []
    else
      var n := |ops| - 1;
      Survivors(ops[..n], kept) + if n in kept then [ops[n]] else []
  }

  function Do(disk: Disk, op: Op): Disk {
    disk.(visible := Applied(disk.visible, op), pending := disk.pending + [op])
  }

  function Synced(disk: Disk): Disk {
    disk.(durable := disk.visible, pending := [])
  }

  /** A new file under a name. */
  function Created(disk: Disk, name: Name, file: File): Disk {
    Do(disk, Link(name, |disk.files|)).(files := disk.files + [file])
  }

  /** Content that was never synced may be anything after a crash. */
  function LoseContent(files: seq<File>): seq<File> {
    seq(|files|, i requires 0 <= i < |files| => if files[i].synced then files[i] else files[i].(verified := false))
  }

  function Crashed(disk: Disk, kept: set<nat>): Disk {
    var dir := ApplyAll(disk.durable, Survivors(disk.pending, kept));
    Disk(dir, dir, [], LoseContent(disk.files))
  }

  /** rejectIncompleteSeed lets the server start on this directory. */
  predicate Accepted(disk: Disk) {
    Target in disk.visible && Marker !in disk.visible
  }

  // ---- the program ----

  datatype Outcome = Unknown | Published | Failed

  datatype Pc =
    | Idle | CheckMarker | CheckMarkedTarget | RemoveStaleMarker | SyncStaleRemoval | CheckTarget | ReadSeed
    | CreatePlaceholder | RemovePlaceholder | OpenStaging | Import | Verify | SyncStaging | WriteMarker | SyncMarker
    | Rename | RollbackMarker | SyncRollbackMarker | SyncTarget | RemoveTarget | SyncRemovedTarget
    | RemoveMarker | SyncRemoval | RestoreMarker | SyncRestored | Cleanup(result: Outcome)

  /** How one system call goes. Partial: the call failed after it had made its file. */
  datatype Fate = Ok | Fail | Partial

  datatype Machine = Machine(disk: Disk, pc: Pc, run: nat, inode: nat, outcome: Outcome)

  function Goto(m: Machine, pc: Pc): Machine {
    m.(pc := pc)
  }

  /** Return before any staging file exists. */
  function Return(m: Machine): Machine {
    m.(pc := Idle, outcome := Failed)
  }

  function Abort(m: Machine): Machine {
    Goto(m, Cleanup(Failed))
  }

  function Undone(m: Machine, name: Name): Machine {
    m.(disk := Do(m.disk, Unlink(name)))
  }

  function SyncedDir(m: Machine): Machine {
    m.(disk := Synced(m.disk))
  }

  function NewFile(m: Machine, name: Name): Machine {
    m.(disk := Created(m.disk, name, File(false, false, false)))
  }

  /** The staging database's content has been checked, or is on the disk. */
  function Filled(m: Machine, verified: bool, synced: bool): Machine {
    if m.inode < |m.disk.files| then
      var file := m.disk.files[m.inode];
      m.(disk := m.disk.(files := m.disk.files[m.inode := file.(verified := file.verified || verified, synced := file.synced || synced)]))
    else m
  }

  /** From the marker checks to the staging placeholder. */
  function ActBefore(m: Machine, fate: Fate): Machine {
    var visible := m.disk.visible;
    match m.pc
    case CheckMarker =>
      if !fate.Ok? then Return(m) else Goto(m, if Marker in visible then CheckMarkedTarget else CheckTarget)
    case CheckMarkedTarget => if !fate.Ok? || Target in visible then Return(m) else Goto(m, RemoveStaleMarker)
    case RemoveStaleMarker => if !fate.Ok? then Return(m) else Goto(Undone(m, Marker), SyncStaleRemoval)
    case SyncStaleRemoval => if !fate.Ok? then Return(m) else Goto(SyncedDir(m), CheckTarget)
    case CheckTarget => if !fate.Ok? || Target in visible then Return(m) else Goto(m, ReadSeed)
    case ReadSeed => if !fate.Ok? then Return(m) else Goto(m, CreatePlaceholder)
    case CreatePlaceholder =>
      if fate.Fail? then Return(m)
      else Goto(NewFile(m, Staging(m.run)), if fate.Ok? then RemovePlaceholder else Cleanup(Failed))
    case _ => m
  }

  /** Filling, checking and syncing the staging database. */
  function ActStaging(m: Machine, fate: Fate): Machine
  {
    match m.pc
    case RemovePlaceholder => if !fate.Ok? then Abort(m) else Goto(Undone(m, Staging(m.run)), OpenStaging)
    case OpenStaging =>
      if fate.Fail? then Abort(m)
      else Goto(NewFile(m, Staging(m.run)), if fate.Ok? then Import else Cleanup(Failed)).(inode := |m.disk.files|)
    case Import => if !fate.Ok? then Abort(m) else Goto(m, Verify)
    case Verify =>
      if !fate.Ok? then Abort(m) else Goto(Filled(m, true, false), SyncStaging)
    case SyncStaging =>
      if !fate.Ok? then Abort(m) else Goto(Filled(m, false, true), WriteMarker)
    case _ => m
  }

  /** Marker, sync, rename, sync, unmark, sync. */
  function ActPublish(m: Machine, fate: Fate): Machine {
    match m.pc
    case WriteMarker =>
      if fate.Fail? || Marker in m.disk.visible then Abort(m)
      else Goto(NewFile(m, Marker), if fate.Ok? then SyncMarker else Cleanup(Failed))
    case SyncMarker => if !fate.Ok? then Abort(m) else Goto(SyncedDir(m), Rename)
    case Rename =>
      if !fate.Ok? || Target in m.disk.visible then Goto(m, RollbackMarker)
      else Goto(m.(disk := Do(m.disk, Move(Staging(m.run), Target, m.inode))), SyncTarget)
    case SyncTarget => if fate.Ok? then Goto(SyncedDir(m), RemoveMarker) else Goto(m, RemoveTarget)
    case RemoveMarker => if fate.Ok? then Goto(Undone(m, Marker), SyncRemoval) else Abort(m)
    case SyncRemoval => if fate.Ok? then Goto(SyncedDir(m), Cleanup(Published)) else Goto(m, RestoreMarker)
    case _ => m
  }

  /** The ways back: each failure on one of these steps is only reported. */
  function ActRecovery(m: Machine, fate: Fate): Machine {
    match m.pc
    case RollbackMarker => Goto(if fate.Ok? then Undone(m, Marker) else m, SyncRollbackMarker)
    case SyncRollbackMarker => Abort(if fate.Ok? then SyncedDir(m) else m)
    case RemoveTarget => Goto(if fate.Ok? then Undone(m, Target) else m, SyncRemovedTarget)
    case SyncRemovedTarget => Abort(if fate.Ok? then SyncedDir(m) else m)
    case RestoreMarker =>
      Goto(if fate.Fail? || Marker in m.disk.visible then m else NewFile(m, Marker), SyncRestored)
    case SyncRestored => Abort(if fate.Ok? then SyncedDir(m) else m)
    case Cleanup(result) =>
      (if fate.Ok? && Staging(m.run) in m.disk.visible then Undone(m, Staging(m.run)) else m).(pc := Idle, outcome := result)
    case _ => m
  }

  datatype Phase = Before | Filling | Publishing | Recovering

  function PhaseOf(pc: Pc): Phase {
    match pc
    case RemovePlaceholder | OpenStaging | Import | Verify | SyncStaging => Filling
    case WriteMarker | SyncMarker | Rename | SyncTarget | RemoveMarker | SyncRemoval => Publishing
    case RollbackMarker | SyncRollbackMarker | RemoveTarget | SyncRemovedTarget
       | RestoreMarker | SyncRestored | Cleanup(_) => Recovering
    case _ => Before
  }

  function Act(m: Machine, fate: Fate): Machine {
    match PhaseOf(m.pc)
    case Before => ActBefore(m, fate)
    case Filling => ActStaging(m, fate)
    case Publishing => ActPublish(m, fate)
    case Recovering => ActRecovery(m, fate)
  }

  datatype Event = Start | Step(fate: Fate) | Crash(kept: set<nat>) | Foreign

  function Started(m: Machine): Machine {
    if m.pc.Idle? then m.(pc := CheckMarker, run := m.run + 1, outcome := Unknown) else m
  }

  function CrashedMachine(m: Machine, kept: set<nat>): Machine {
    m.(disk := Crashed(m.disk, kept), pc := Idle, outcome := Unknown)
  }

  /** Another program makes the target, if there is none. */
  function ForeignTarget(m: Machine): Machine {
    if Target in m.disk.visible then m else m.(disk := Created(m.disk, Target, File(true, false, false)))
  }

  function Next(m: Machine, e: Event): Machine {
    match e
    case Start => Started(m)
    case Step(fate) => Act(m, fate)
    case Crash(kept) => CrashedMachine(m, kept)
    case Foreign => ForeignTarget(m)
  }

  // ---- the invariant ----

  /** A file that may stand under the target name. */
  predicate Good(files: seq<File>, inode: nat) {
    inode < |files| && (files[inode].foreign || (files[inode].verified && files[inode].synced))
  }

  predicate GoodOp(files: seq<File>, op: Op) {
    match op
    case Link(name, inode) => name == Target ==> Good(files, inode)
    case Unlink(name) => true
    case Move(from, to, inode) => to == Target ==> Good(files, inode)
  }

  /** Wherever the target name is bound, or may become bound, the file is good. */
  predicate TargetsGood(disk: Disk) {
    && (Target in disk.durable ==> Good(disk.files, disk.durable[Target]))
    && (Target in disk.visible ==> Good(disk.files, disk.visible[Target]))
    && (forall op :: op in disk.pending ==> GoodOp(disk.files, op))
  }

  predicate Touches(op: Op, name: Name) {
    match op
    case Link(n, _) => n == name
    case Unlink(n) => n == name
    case Move(from, to, _) => from == name || to == name
  }

  /** The disk holds the binding a program sees, and nothing pending can change it. */
  predicate Settled(disk: Disk, name: Name) {
    && (name in disk.visible <==> name in disk.durable)
    && (name in disk.visible ==> disk.visible[name] == disk.durable[name])
    && (forall op :: op in disk.pending ==> !Touches(op, name))
  }

  predicate Ours(disk: Disk) {
    Target in disk.visible && disk.visible[Target] < |disk.files| && !disk.files[disk.visible[Target]].foreign
  }

  /** What the server accepts is settled. */
  predicate AcceptedSettled(disk: Disk) {
    Ours(disk) && Marker !in disk.visible ==> Settled(disk, Target)
  }

  /** The target was absent when this run looked, so at most a foreign one is there now. */
  predicate SawNoTarget(pc: Pc) {
    match pc
    case RemoveStaleMarker | SyncStaleRemoval | ReadSeed | CreatePlaceholder | RemovePlaceholder | OpenStaging | Import | Verify
       | SyncStaging | WriteMarker | SyncMarker | Rename | RollbackMarker | SyncRollbackMarker => true
    case _ => false
  }

  predicate HoldsMarker(pc: Pc) {
    match pc
    case SyncMarker | Rename | RollbackMarker | SyncTarget | RemoveTarget | SyncRemovedTarget | RemoveMarker => true
    case _ => false
  }

  predicate Confirmed(pc: Pc) {
    match pc
    case RemoveMarker | SyncRemoval | RestoreMarker | SyncRestored => true
    case _ => false
  }

  predicate Renamed(pc: Pc) {
    Confirmed(pc) || pc.SyncTarget? || pc.RemoveTarget?
  }

  predicate HasStaging(pc: Pc) {
    match pc
    case Import | Verify | SyncStaging | WriteMarker | SyncMarker | Rename => true
    case _ => false
  }

  predicate PcInv(m: Machine) {
    var disk := m.disk;
    && (SawNoTarget(m.pc) ==> !Ours(disk))
    && (HoldsMarker(m.pc) ==> Marker in disk.visible)
    && (m.pc.SyncRemoval? ==> Marker !in disk.visible)
    && (HasStaging(m.pc) || Renamed(m.pc) ==> m.inode < |disk.files| && !disk.files[m.inode].foreign)
    && (m.pc.SyncStaging? ==> disk.files[m.inode].verified)
    && (m.pc.WriteMarker? || m.pc.SyncMarker? || m.pc.Rename? ==> Good(disk.files, m.inode))
    && (Renamed(m.pc) ==> Target in disk.visible && disk.visible[Target] == m.inode)
    && (Confirmed(m.pc) ==> Settled(disk, Target))
    && (Succeeded(m) ==> Final(disk))
  }

  /** runContext has returned, or is about to return, no error. */
  predicate Succeeded(m: Machine) {
    (m.pc.Idle? && m.outcome.Published?) || (m.pc.Cleanup? && m.pc.result.Published?)
  }

  /** What a successful run leaves: the server accepts the target, and nothing
      on the disk or on its way there says otherwise. */
  predicate Final(disk: Disk) {
    Ours(disk) && Settled(disk, Target) && Settled(disk, Marker) && Marker !in disk.visible
  }

  predicate Inv(m: Machine) {
    TargetsGood(m.disk) && AcceptedSettled(m.disk) && PcInv(m)
  }

  // ---- crashes ----

  lemma {:induction false} SurvivorsAreGood(files: seq<File>, dir: Directory, ops: seq<Op>)
    requires Target in dir ==> Good(files, dir[Target])
    requires forall op :: op in ops ==> GoodOp(files, op)
    ensures var after := ApplyAll(dir, ops); Target in after ==> Good(files, after[Target])
  {
    if ops != [] {
      SurvivorsAreGood(files, dir, ops[..|ops| - 1]);
      assert GoodOp(files, ops[|ops| - 1]);
    }
  }

  lemma {:induction false} SurvivorsAreOperations(ops: seq<Op>, kept: set<nat>)
    ensures forall op :: op in Survivors(ops, kept) ==> op in ops
  {
    if ops != [] {
      SurvivorsAreOperations(ops[..|ops| - 1], kept);
    }
  }

  lemma {:induction false} UntouchedNamesStay(dir: Directory, ops: seq<Op>, name: Name)
    requires forall op :: op in ops ==> !Touches(op, name)
    ensures var after := ApplyAll(dir, ops); (name in after <==> name in dir) && (name in dir ==> after[name] == dir[name])
  {
    if ops != [] {
      UntouchedNamesStay(dir, ops[..|ops| - 1], name);
      assert !Touches(ops[|ops| - 1], name);
    }
  }

  /** A settled name looks the same after every crash. */
  lemma SettledSurvivesCrash(disk: Disk, name: Name, kept: set<nat>)
    requires Settled(disk, name)
    ensures var after := Crashed(disk, kept);
            && Settled(after, name) && (name in after.visible <==> name in disk.visible)
            && (name in disk.visible ==> after.visible[name] == disk.visible[name])
  {
    SurvivorsAreOperations(disk.pending, kept);
    UntouchedNamesStay(disk.durable, Survivors(disk.pending, kept), name);
  }

  lemma CrashKeepsTargetsGood(disk: Disk, kept: set<nat>)
    requires TargetsGood(disk)
    ensures TargetsGood(Crashed(disk, kept))
  {
    SurvivorsAreOperations(disk.pending, kept);
    SurvivorsAreGood(disk.files, disk.durable, Survivors(disk.pending, kept));
  }

  // ---- every step keeps the invariant ----

  lemma DoKeepsTargetsGood(disk: Disk, op: Op)
    requires TargetsGood(disk) && GoodOp(disk.files, op)
    ensures TargetsGood(Do(disk, op))
  {}

  lemma CreatedKeepsTargetsGood(disk: Disk, name: Name, file: File)
    requires TargetsGood(disk) && (name == Target ==> file.foreign)
    ensures TargetsGood(Created(disk, name, file))
  {
    var files := disk.files + [file];
    forall op | op in disk.pending ensures GoodOp(files, op) {
      assert GoodOp(disk.files, op);
    }
    assert files[|disk.files|] == file;
  }

  predicate Replays(disk: Disk) {
    disk.visible == ApplyAll(disk.durable, disk.pending)
  }

  lemma DoSnoc(disk: Disk, op: Op)
    requires disk.visible == ApplyAll(disk.durable, disk.pending)
    ensures Do(disk, op).visible == ApplyAll(Do(disk, op).durable, Do(disk, op).pending)
  {
    assert (disk.pending + [op])[..|disk.pending|] == disk.pending;
  }

  lemma FilledKeepsTargetsGood(m: Machine, verified: bool, synced: bool)
    requires TargetsGood(m.disk)
    ensures TargetsGood(Filled(m, verified, synced).disk)
  {
    forall op | op in m.disk.pending ensures GoodOp(Filled(m, verified, synced).disk.files, op) {
      assert GoodOp(m.disk.files, op);
    }
  }

  lemma NewFileKeeps(m: Machine, name: Name)
    requires Inv(m) && name != Target
    ensures var disk := NewFile(m, name).disk;
            && TargetsGood(disk)
            && disk.visible == m.disk.visible[name := |m.disk.files|]
            && (Settled(m.disk, Target) ==> Settled(disk, Target))
            && (Ours(disk) <==> Ours(m.disk)) && |disk.files| == |m.disk.files| + 1
            && disk.files[..|m.disk.files|] == m.disk.files
  {
    CreatedKeepsTargetsGood(m.disk, name, File(false, false, false));
  }

  lemma UndoneKeeps(m: Machine, name: Name)
    requires Inv(m)
    ensures var disk := Undone(m, name).disk;
            && TargetsGood(disk)
            && (name != Target && Settled(m.disk, Target) ==> Settled(disk, Target))
  {
    DoKeepsTargetsGood(m.disk, Unlink(name));
  }

  lemma SyncedKeeps(disk: Disk)
    requires TargetsGood(disk)
    ensures TargetsGood(Synced(disk)) && AcceptedSettled(Synced(disk))
    ensures forall name :: Settled(Synced(disk), name)
  {}

  lemma RemoveStaleMarkerKeepsInv(m: Machine, fate: Fate)
    requires Inv(m) && m.pc.RemoveStaleMarker?
    ensures Inv(ActBefore(m, fate))
  {
    UndoneKeeps(m, Marker);
  }

  lemma SyncStaleRemovalKeepsInv(m: Machine, fate: Fate)
    requires Inv(m) && m.pc.SyncStaleRemoval?
    ensures Inv(ActBefore(m, fate))
  {
    SyncedKeeps(m.disk);
  }

  lemma CreatePlaceholderKeepsInv(m: Machine, fate: Fate)
    requires Inv(m) && m.pc.CreatePlaceholder?
    ensures Inv(ActBefore(m, fate))
  {
    NewFileKeeps(m, Staging(m.run));
  }

  lemma RemovePlaceholderKeepsInv(m: Machine, fate: Fate)
    requires Inv(m) && m.pc.RemovePlaceholder?
    ensures Inv(ActStaging(m, fate))
  {
    UndoneKeeps(m, Staging(m.run));
  }

  lemma OpenStagingKeepsInv(m: Machine, fate: Fate)
    requires Inv(m) && m.pc.OpenStaging?
    ensures Inv(ActStaging(m, fate))
  {
    NewFileKeeps(m, Staging(m.run));
  }

  lemma VerifyKeepsInv(m: Machine, fate: Fate)
    requires Inv(m) && m.pc.Verify?
    ensures Inv(ActStaging(m, fate))
  {
    FilledKeepsTargetsGood(m, true, false);
  }

  lemma SyncStagingKeepsInv(m: Machine, fate: Fate)
    requires Inv(m) && m.pc.SyncStaging?
    ensures Inv(ActStaging(m, fate))
  {
    FilledKeepsTargetsGood(m, false, true);
  }

  lemma WriteMarkerKeepsInv(m: Machine, fate: Fate)
    requires Inv(m) && m.pc.WriteMarker?
    ensures Inv(ActPublish(m, fate))
  {
    NewFileKeeps(m, Marker);
  }

  lemma SyncMarkerKeepsInv(m: Machine, fate: Fate)
    requires Inv(m) && m.pc.SyncMarker?
    ensures Inv(ActPublish(m, fate))
  {
    SyncedKeeps(m.disk);
  }

  lemma RenameKeepsInv(m: Machine, fate: Fate)
    requires Inv(m) && m.pc.Rename?
    ensures Inv(ActPublish(m, fate))
  {
    DoKeepsTargetsGood(m.disk, Move(Staging(m.run), Target, m.inode));
  }

  lemma SyncTargetKeepsInv(m: Machine, fate: Fate)
    requires Inv(m) && m.pc.SyncTarget?
    ensures Inv(ActPublish(m, fate))
  {
    SyncedKeeps(m.disk);
  }

  lemma RemoveMarkerKeepsInv(m: Machine, fate: Fate)
    requires Inv(m) && m.pc.RemoveMarker?
    ensures Inv(ActPublish(m, fate))
  {
    UndoneKeeps(m, Marker);
  }

  lemma SyncRemovalKeepsInv(m: Machine, fate: Fate)
    requires Inv(m) && m.pc.SyncRemoval?
    ensures Inv(ActPublish(m, fate))
  {
    SyncedKeeps(m.disk);
  }

  lemma RollbackMarkerKeepsInv(m: Machine, fate: Fate)
    requires Inv(m) && m.pc.RollbackMarker?
    ensures Inv(ActRecovery(m, fate))
  {
    UndoneKeeps(m, Marker);
  }

  lemma SyncRollbackMarkerKeepsInv(m: Machine, fate: Fate)
    requires Inv(m) && m.pc.SyncRollbackMarker?
    ensures Inv(ActRecovery(m, fate))
  {
    SyncedKeeps(m.disk);
  }

  lemma RemoveTargetKeepsInv(m: Machine, fate: Fate)
    requires Inv(m) && m.pc.RemoveTarget?
    ensures Inv(ActRecovery(m, fate))
  {
    UndoneKeeps(m, Target);
  }

  lemma SyncRemovedTargetKeepsInv(m: Machine, fate: Fate)
    requires Inv(m) && m.pc.SyncRemovedTarget?
    ensures Inv(ActRecovery(m, fate))
  {
    SyncedKeeps(m.disk);
  }

  lemma RestoreMarkerKeepsInv(m: Machine, fate: Fate)
    requires Inv(m) && m.pc.RestoreMarker?
    ensures Inv(ActRecovery(m, fate))
  {
    NewFileKeeps(m, Marker);
  }

  lemma SyncRestoredKeepsInv(m: Machine, fate: Fate)
    requires Inv(m) && m.pc.SyncRestored?
    ensures Inv(ActRecovery(m, fate))
  {
    SyncedKeeps(m.disk);
  }

  lemma CleanupKeepsInv(m: Machine, fate: Fate)
    requires Inv(m) && m.pc.Cleanup?
    ensures Inv(ActRecovery(m, fate))
  {
    UndoneKeeps(m, Staging(m.run));
  }

  lemma LookingKeepsInv(m: Machine, fate: Fate)
    requires Inv(m) && (m.pc.CheckMarker? || m.pc.CheckMarkedTarget? || m.pc.CheckTarget? || m.pc.ReadSeed? || m.pc.Idle?)
    ensures Inv(ActBefore(m, fate))
  {}

  lemma ImportKeepsInv(m: Machine, fate: Fate)
    requires Inv(m) && m.pc.Import?
    ensures Inv(ActStaging(m, fate))
  {}

  lemma CrashKeepsInv(m: Machine, kept: set<nat>)
    requires Inv(m)
    ensures Inv(CrashedMachine(m, kept))
  {
    CrashKeepsTargetsGood(m.disk, kept);
  }

  lemma ForeignKeepsInv(m: Machine)
    requires Inv(m)
    ensures Inv(ForeignTarget(m))
  {
    CreatedKeepsTargetsGood(m.disk, Target, File(true, false, false));
  }

  lemma BeforeKeepsInv(m: Machine, fate: Fate)
    requires Inv(m) && PhaseOf(m.pc).Before?
    ensures Inv(ActBefore(m, fate))
  {
    match m.pc
    case RemoveStaleMarker => RemoveStaleMarkerKeepsInv(m, fate);
    case SyncStaleRemoval => SyncStaleRemovalKeepsInv(m, fate);
    case CreatePlaceholder => CreatePlaceholderKeepsInv(m, fate);
    case _ => LookingKeepsInv(m, fate);
  }

  lemma FillingKeepsInv(m: Machine, fate: Fate)
    requires Inv(m) && PhaseOf(m.pc).Filling?
    ensures Inv(ActStaging(m, fate))
  {
    match m.pc
    case RemovePlaceholder => RemovePlaceholderKeepsInv(m, fate);
    case OpenStaging => OpenStagingKeepsInv(m, fate);
    case Verify => VerifyKeepsInv(m, fate);
    case SyncStaging => SyncStagingKeepsInv(m, fate);
    case Import => ImportKeepsInv(m, fate);
  }

  lemma PublishingKeepsInv(m: Machine, fate: Fate)
    requires Inv(m) && PhaseOf(m.pc).Publishing?
    ensures Inv(ActPublish(m, fate))
  {
    match m.pc
    case WriteMarker => WriteMarkerKeepsInv(m, fate);
    case SyncMarker => SyncMarkerKeepsInv(m, fate);
    case Rename => RenameKeepsInv(m, fate);
    case SyncTarget => SyncTargetKeepsInv(m, fate);
    case RemoveMarker => RemoveMarkerKeepsInv(m, fate);
    case SyncRemoval => SyncRemovalKeepsInv(m, fate);
  }

  lemma RecoveringKeepsInv(m: Machine, fate: Fate)
    requires Inv(m) && PhaseOf(m.pc).Recovering?
    ensures Inv(ActRecovery(m, fate))
  {
    match m.pc
    case RollbackMarker => RollbackMarkerKeepsInv(m, fate);
    case SyncRollbackMarker => SyncRollbackMarkerKeepsInv(m, fate);
    case RemoveTarget => RemoveTargetKeepsInv(m, fate);
    case SyncRemovedTarget => SyncRemovedTargetKeepsInv(m, fate);
    case RestoreMarker => RestoreMarkerKeepsInv(m, fate);
    case SyncRestored => SyncRestoredKeepsInv(m, fate);
    case Cleanup(_) => CleanupKeepsInv(m, fate);
  }

  lemma ActKeepsInv(m: Machine, fate: Fate)
    requires Inv(m)
    ensures Inv(Act(m, fate))
  {
    match PhaseOf(m.pc)
    case Before => BeforeKeepsInv(m, fate);
    case Filling => FillingKeepsInv(m, fate);
    case Publishing => PublishingKeepsInv(m, fate);
    case Recovering => RecoveringKeepsInv(m, fate);
  }

  lemma NextKeepsInv(m: Machine, e: Event)
    requires Inv(m)
    ensures Inv(Next(m, e))
  {
    match e
    case Start =>
    case Step(fate) => ActKeepsInv(m, fate);
    case Crash(kept) => CrashKeepsInv(m, kept);
    case Foreign => ForeignKeepsInv(m);
  }

  // ---- runs ----

  function Run(m: Machine, events: seq<Event>): Machine {
    if events == [] then m else Next(Run(m, events[..|events| - 1]), events[|events| - 1])
  }

  /** Nothing running, nothing pending, and no half-made target from elsewhere. */
  predicate Init(m: Machine) {
    && m.pc.Idle? && m.outcome.Unknown? && m.disk.pending == [] && m.disk.visible == m.disk.durable
    && (Target in m.disk.visible ==> Good(m.disk.files, m.disk.visible[Target]))
  }

  lemma {:induction false} RunKeepsInvariant(m: Machine, events: seq<Event>)
    requires Inv(m)
    ensures Inv(Run(m, events))
  {
    if events != [] {
      RunKeepsInvariant(m, events[..|events| - 1]);
      NextKeepsInv(Run(m, events[..|events| - 1]), events[|events| - 1]);
    }
  }

  /** What programs see is the disk with every pending operation applied. */
  lemma {:induction false} VisibleIsDurablePlusPending(m: Machine, events: seq<Event>)
    requires Replays(m.disk)
    ensures Replays(Run(m, events).disk)
  {
    if events != [] {
      var n := |events| - 1;
      VisibleIsDurablePlusPending(m, events[..n]);
      NextKeepsVisible(Run(m, events[..n]), events[n]);
    }
  }

  lemma DoReplays(disk: Disk, op: Op, files: seq<File>)
    requires Replays(disk)
    ensures Replays(Do(disk, op).(files := files))
  {
    DoSnoc(disk, op);
  }

  lemma BeforeReplays(m: Machine, fate: Fate)
    requires Replays(m.disk)
    ensures Replays(ActBefore(m, fate).disk)
  {
    match m.pc
    case RemoveStaleMarker => DoReplays(m.disk, Unlink(Marker), m.disk.files);
    case CreatePlaceholder => DoReplays(m.disk, Link(Staging(m.run), |m.disk.files|), m.disk.files + [File(false, false, false)]);
    case _ =>
  }

  lemma StagingReplays(m: Machine, fate: Fate)
    requires Replays(m.disk)
    ensures Replays(ActStaging(m, fate).disk)
  {
    match m.pc
    case RemovePlaceholder => DoReplays(m.disk, Unlink(Staging(m.run)), m.disk.files);
    case OpenStaging => DoReplays(m.disk, Link(Staging(m.run), |m.disk.files|), m.disk.files + [File(false, false, false)]);
    case _ =>
  }

  lemma PublishReplays(m: Machine, fate: Fate)
    requires Replays(m.disk)
    ensures Replays(ActPublish(m, fate).disk)
  {
    match m.pc
    case WriteMarker => DoReplays(m.disk, Link(Marker, |m.disk.files|), m.disk.files + [File(false, false, false)]);
    case Rename => DoReplays(m.disk, Move(Staging(m.run), Target, m.inode), m.disk.files);
    case RemoveMarker => DoReplays(m.disk, Unlink(Marker), m.disk.files);
    case _ =>
  }

  lemma RecoveryReplays(m: Machine, fate: Fate)
    requires Replays(m.disk)
    ensures Replays(ActRecovery(m, fate).disk)
  {
    match m.pc
    case RollbackMarker => DoReplays(m.disk, Unlink(Marker), m.disk.files);
    case RemoveTarget => DoReplays(m.disk, Unlink(Target), m.disk.files);
    case RestoreMarker => DoReplays(m.disk, Link(Marker, |m.disk.files|), m.disk.files + [File(false, false, false)]);
    case Cleanup(_) => DoReplays(m.disk, Unlink(Staging(m.run)), m.disk.files);
    case _ =>
  }

  lemma NextKeepsVisible(m: Machine, e: Event)
    requires Replays(m.disk)
    ensures Replays(Next(m, e).disk)
  {
    match e
    case Step(fate) =>
      match PhaseOf(m.pc) {
        case Before => BeforeReplays(m, fate);
        case Filling => StagingReplays(m, fate);
        case Publishing => PublishReplays(m, fate);
        case Recovering => RecoveryReplays(m, fate);
      }
    case Foreign => DoReplays(m.disk, Link(Target, |m.disk.files|), m.disk.files + [File(true, false, false)]);
    case _ =>
  }

  /** Whatever happens, and whatever a crash then keeps, the target name is
      bound to a verified and synced database or to another program's file. */
  lemma TargetIsAlwaysVerified(m: Machine, events: seq<Event>, kept: set<nat>)
    requires Init(m)
    ensures var disk := Run(m, events).disk;
            && (Target in disk.visible ==> Good(disk.files, disk.visible[Target]))
            && var after := Crashed(disk, kept); Target in after.visible ==> Good(after.files, after.visible[Target])
  {
    RunKeepsInvariant(m, events);
    CrashKeepsTargetsGood(Run(m, events).disk, kept);
  }

  /** A published target the server accepts is the same verified file after
      a crash at that moment. */
  lemma AcceptedTargetIsDurable(m: Machine, events: seq<Event>, kept: set<nat>)
    requires Init(m) && Ours(Run(m, events).disk) && Accepted(Run(m, events).disk)
    ensures var disk := Run(m, events).disk;
            var after := Crashed(disk, kept);
            Target in after.visible && after.visible[Target] == disk.visible[Target]
            && after.files[after.visible[Target]] == disk.files[disk.visible[Target]] == File(false, true, true)
  {
    RunKeepsInvariant(m, events);
    SettledSurvivesCrash(Run(m, events).disk, Target, kept);
  }

  // ---- an existing target ----

  predicate Looking(pc: Pc) {
    pc.Idle? || pc.CheckMarker? || pc.CheckMarkedTarget? || pc.CheckTarget?
  }

  /** The target name is bound, and no run gets past its check. */
  predicate Holding(m: Machine, inode: nat) {
    Looking(m.pc) && Target in m.disk.visible && m.disk.visible[Target] == inode && !m.outcome.Published?
  }

  lemma HoldingStep(m: Machine, e: Event, inode: nat)
    requires Holding(m, inode)
    ensures e.Crash? || Holding(Next(m, e), inode)
    ensures e.Crash? || Next(m, e).disk == m.disk
  {}

  /** Without a crash no run, failure or other program replaces an existing
      target, whoever made it, and no run reports success beside it. */
  lemma {:induction false} ExistingTargetStays(m: Machine, events: seq<Event>, inode: nat)
    requires Holding(m, inode)
    requires forall i :: 0 <= i < |events| ==> !events[i].Crash?
    ensures Holding(Run(m, events), inode) && Run(m, events).disk == m.disk
  {
    if events != [] {
      var n := |events| - 1;
      ExistingTargetStays(m, events[..n], inode);
      HoldingStep(Run(m, events[..n]), events[n], inode);
    }
  }

  predicate Pinned(m: Machine, inode: nat) {
    Holding(m, inode) && Settled(m.disk, Target) && Good(m.disk.files, inode)
  }

  /** A settled target stays through crashes as well. */
  lemma {:induction false} SettledTargetStays(m: Machine, events: seq<Event>, inode: nat)
    requires Pinned(m, inode)
    ensures Pinned(Run(m, events), inode)
  {
    if events != [] {
      var n := |events| - 1;
      SettledTargetStays(m, events[..n], inode);
      var before := Run(m, events[..n]);
      HoldingStep(before, events[n], inode);
      if events[n].Crash? {
        SettledSurvivesCrash(before.disk, Target, events[n].kept);
      }
    }
  }

  // ---- a target that appears at any point ----

  predicate ForeignHolds(disk: Disk, inode: nat) {
    Target in disk.visible && disk.visible[Target] == inode && inode < |disk.files| && disk.files[inode].foreign
  }

  /** The one step that takes a target away: the directory sync after this
      run's own rename had failed. */
  predicate TakesBack(m: Machine, e: Event) {
    m.pc.RemoveTarget? && e.Step? && e.fate.Ok?
  }

  /** Wherever a run stands, its next call, another program's and their failures
      leave a visible target alone, except that a run takes back its own. */
  lemma StepKeepsTarget(m: Machine, e: Event)
    requires Inv(m) && !e.Crash? && Target in m.disk.visible
    ensures var inode, disk := m.disk.visible[Target], Next(m, e).disk;
            if TakesBack(m, e) then
              inode == m.inode && Ours(m.disk) && Target !in disk.visible
            else
              Target in disk.visible && disk.visible[Target] == inode
              && inode < |m.disk.files| <= |disk.files| && disk.files[inode] == m.disk.files[inode]
  {}

  /** Another program's target stays over every crash-free continuation of
      every run: the same binding and the same file. */
  lemma {:induction false} ForeignTargetStays(m: Machine, events: seq<Event>, later: seq<Event>, inode: nat)
    requires Init(m) && ForeignHolds(Run(m, events).disk, inode)
    requires forall i :: 0 <= i < |later| ==> !later[i].Crash?
    ensures var start, end := Run(m, events).disk, Run(Run(m, events), later).disk;
            ForeignHolds(end, inode) && end.files[inode] == start.files[inode]
  {
    if later != [] {
      var n := |later| - 1;
      ForeignTargetStays(m, events, later[..n], inode);
      RunKeepsInvariant(m, events);
      RunKeepsInvariant(Run(m, events), later[..n]);
      StepKeepsTarget(Run(Run(m, events), later[..n]), later[n]);
    }
  }

  /** Once the directory has been synced, another program's target stays
      through crashes too. */
  lemma {:induction false} SettledForeignStays(m: Machine, events: seq<Event>, later: seq<Event>, inode: nat)
    requires Init(m) && ForeignHolds(Run(m, events).disk, inode) && Settled(Run(m, events).disk, Target)
    ensures var end := Run(Run(m, events), later).disk;
            ForeignHolds(end, inode) && Settled(end, Target)
  {
    if later != [] {
      var n := |later| - 1;
      SettledForeignStays(m, events, later[..n], inode);
      var before := Run(Run(m, events), later[..n]);
      RunKeepsInvariant(m, events);
      RunKeepsInvariant(Run(m, events), later[..n]);
      if later[n].Crash? {
        SettledSurvivesCrash(before.disk, Target, later[n].kept);
      } else {
        StepKeepsTarget(before, later[n]);
        SettledStep(before, later[n]);
      }
    }
  }

  lemma SettledStep(m: Machine, e: Event)
    requires Inv(m) && !e.Crash? && Target in m.disk.visible && Settled(m.disk, Target) && !Ours(m.disk)
    ensures Settled(Next(m, e).disk, Target)
  {}

  /** A file that left the target name, and that no run holds as its staging file. */
  predicate Gone(m: Machine, inode: nat) {
    && inode < |m.disk.files|
    && (Target in m.disk.visible ==> m.disk.visible[Target] != inode)
    && (HasStaging(m.pc) ==> m.inode != inode)
  }

  lemma GoneStep(m: Machine, e: Event, inode: nat)
    requires Inv(m) && !e.Crash? && Gone(m, inode)
    ensures Gone(Next(m, e), inode)
  {}

  predicate NeverTakenBack(start: Machine, later: seq<Event>) {
    forall i :: 0 <= i < |later| ==> !TakesBack(Run(start, later[..i]), later[i])
  }

  lemma NeverTakenBackSnoc(start: Machine, later: seq<Event>)
    requires later != []
    ensures var init := later[..|later| - 1];
            NeverTakenBack(start, later) <==> NeverTakenBack(start, init) && !TakesBack(Run(start, init), later[|later| - 1])
  {
    var init := later[..|later| - 1];
    assert forall i :: 0 <= i < |init| ==> init[..i] == later[..i] && init[i] == later[i];
    if NeverTakenBack(start, later) {
      assert !TakesBack(Run(start, later[..|init|]), later[|init|]);
      forall i | 0 <= i < |init| ensures !TakesBack(Run(start, init[..i]), init[i]) {
        assert !TakesBack(Run(start, later[..i]), later[i]);
      }
    }
    if NeverTakenBack(start, init) && !TakesBack(Run(start, init), later[|init|]) {
      forall i | 0 <= i < |later| ensures !TakesBack(Run(start, later[..i]), later[i]) {
        if i < |init| {
          assert !TakesBack(Run(start, init[..i]), init[i]);
        }
      }
    }
  }

  lemma {:induction false} KeptOrGone(start: Machine, later: seq<Event>)
    requires Inv(start) && Target in start.disk.visible
    requires forall i :: 0 <= i < |later| ==> !later[i].Crash?
    ensures var inode, m := start.disk.visible[Target], Run(start, later);
            Inv(m) && if NeverTakenBack(start, later) then Target in m.disk.visible && m.disk.visible[Target] == inode
                      else Gone(m, inode)
  {
    if later != [] {
      var n := |later| - 1;
      KeptOrGone(start, later[..n]);
      NeverTakenBackSnoc(start, later);
      var before := Run(start, later[..n]);
      NextKeepsInv(before, later[n]);
      if NeverTakenBack(start, later[..n]) {
        StepKeepsTarget(before, later[n]);
      } else {
        GoneStep(before, later[n], start.disk.visible[Target]);
      }
    }
  }

  /** Over every crash-free continuation of every run, a visible target keeps
      its binding exactly as long as no step takes it back; once taken back, its
      file never stands under that name again. */
  lemma TargetKeepsItsBinding(m: Machine, events: seq<Event>, later: seq<Event>)
    requires Init(m) && Target in Run(m, events).disk.visible
    requires forall i :: 0 <= i < |later| ==> !later[i].Crash?
    ensures var start, end := Run(m, events), Run(Run(m, events), later);
            Target in end.disk.visible && end.disk.visible[Target] == start.disk.visible[Target]
            <==> NeverTakenBack(start, later)
  {
    RunKeepsInvariant(m, events);
    KeptOrGone(Run(m, events), later);
  }

  predicate AcceptedForGood(m: Machine) {
    Looking(m.pc) && Final(m.disk)
  }

  lemma {:induction false} FinalStays(m: Machine, events: seq<Event>)
    requires AcceptedForGood(m)
    ensures AcceptedForGood(Run(m, events)) && Run(m, events).disk.visible[Target] == m.disk.visible[Target]
  {
    if events != [] {
      var n := |events| - 1;
      FinalStays(m, events[..n]);
      var before := Run(m, events[..n]);
      if events[n].Crash? {
        SettledSurvivesCrash(before.disk, Target, events[n].kept);
        SettledSurvivesCrash(before.disk, Marker, events[n].kept);
      } else {
        assert Next(before, events[n]).disk == before.disk;
      }
    }
  }

  /** After a run that returned no error the server accepts the target for
      ever: through any later runs, failures, crashes and other programs. */
  lemma SuccessIsForever(m: Machine, events: seq<Event>, later: seq<Event>)
    requires Init(m) && Run(m, events).pc.Idle? && Run(m, events).outcome.Published?
    ensures var done, disk := Run(m, events).disk, Run(Run(m, events), later).disk;
            && Accepted(done) && Accepted(disk)
            && disk.visible[Target] == done.visible[Target]
            && Good(disk.files, disk.visible[Target]) && Ours(disk)
  {
    RunKeepsInvariant(m, events);
    RunKeepsInvariant(Run(m, events), later);
    FinalStays(Run(m, events), later);
  }

  // ---- progress ----

  /** n system calls, all of which succeed. */
  function AllOk(m: Machine, n: nat): Machine
    decreases n
  {
    if n == 0 then m else AllOk(Act(m, Ok), n - 1)
  }

  /** Calls that all succeed end the run like this. */
  ghost predicate Finishes(m: Machine, outcome: Outcome) {
    exists n: nat :: AllOk(m, n).pc.Idle? && AllOk(m, n).outcome == outcome
  }

  lemma Finished(m: Machine)
    requires m.pc.Idle?
    ensures Finishes(m, m.outcome)
  {
    assert AllOk(m, 0) == m;
  }

  lemma OneCallMore(m: Machine, next: Machine, outcome: Outcome)
    requires next == Act(m, Ok) && Finishes(next, outcome)
    ensures Finishes(m, outcome)
  {
    var n: nat :| AllOk(next, n).pc.Idle? && AllOk(next, n).outcome == outcome;
    assert AllOk(m, n + 1) == AllOk(next, n);
  }

  lemma TwoCallsMore(m: Machine, outcome: Outcome)
    requires Finishes(Act(Act(m, Ok), Ok), outcome)
    ensures Finishes(m, outcome)
  {
    OneCallMore(Act(m, Ok), Act(Act(m, Ok), Ok), outcome);
    OneCallMore(m, Act(m, Ok), outcome);
  }

  /** Once a run is over, further calls change nothing. */
  lemma {:induction false} FinishedStays(m: Machine, n: nat, k: nat)
    requires AllOk(m, n).pc.Idle?
    ensures AllOk(m, n + k) == AllOk(m, n)
    decreases n, k
  {
    if n > 0 {
      FinishedStays(Act(m, Ok), n - 1, k);
    } else if k > 0 {
      FinishedStays(m, 0, k - 1);
    }
  }

  /** So a run ends in one way only. */
  lemma OneOutcome(m: Machine, first: Outcome, second: Outcome)
    requires Finishes(m, first) && Finishes(m, second)
    ensures first == second
  {
    var i: nat :| AllOk(m, i).pc.Idle? && AllOk(m, i).outcome == first;
    var j: nat :| AllOk(m, j).pc.Idle? && AllOk(m, j).outcome == second;
    FinishedStays(m, i, j);
    FinishedStays(m, j, i);
    assert i + j == j + i;
  }

  lemma FromSyncRemoval(m: Machine)
    requires m.pc.SyncRemoval?
    ensures Finishes(m, Published)
  {
    Finished(Act(Act(m, Ok), Ok));
    TwoCallsMore(m, Published);
  }

  lemma FromSyncTarget(m: Machine)
    requires m.pc.SyncTarget?
    ensures Finishes(m, Published)
  {
    FromSyncRemoval(Act(Act(m, Ok), Ok));
    TwoCallsMore(m, Published);
  }

  lemma FromSyncMarker(m: Machine)
    requires m.pc.SyncMarker? && Target !in m.disk.visible
    ensures Finishes(m, Published)
  {
    FromSyncTarget(Act(Act(m, Ok), Ok));
    TwoCallsMore(m, Published);
  }

  predicate Clear(disk: Disk) {
    Target !in disk.visible && Marker !in disk.visible
  }

  lemma FromSyncStaging(m: Machine)
    requires m.pc.SyncStaging? && Clear(m.disk)
    ensures Finishes(m, Published)
  {
    FromSyncMarker(Act(Act(m, Ok), Ok));
    TwoCallsMore(m, Published);
  }

  lemma FromImport(m: Machine)
    requires m.pc.Import? && Clear(m.disk)
    ensures Finishes(m, Published)
  {
    FromSyncStaging(Act(Act(m, Ok), Ok));
    TwoCallsMore(m, Published);
  }

  lemma FromRemovePlaceholder(m: Machine)
    requires m.pc.RemovePlaceholder? && Clear(m.disk)
    ensures Finishes(m, Published)
  {
    FromImport(Act(Act(m, Ok), Ok));
    TwoCallsMore(m, Published);
  }

  lemma FromReadSeed(m: Machine)
    requires m.pc.ReadSeed? && Clear(m.disk)
    ensures Finishes(m, Published)
  {
    FromRemovePlaceholder(Act(Act(m, Ok), Ok));
    TwoCallsMore(m, Published);
  }

  lemma FromCheckTarget(m: Machine)
    requires m.pc.CheckTarget? && Marker !in m.disk.visible
    ensures Finishes(m, if Target in m.disk.visible then Failed else Published)
  {
    var next := Act(m, Ok);
    if Target in m.disk.visible {
      Finished(next);
      OneCallMore(m, next, Failed);
    } else {
      FromReadSeed(next);
      OneCallMore(m, next, Published);
    }
  }

  lemma FromCheckMarkedTarget(m: Machine)
    requires m.pc.CheckMarkedTarget?
    ensures Finishes(m, if Target in m.disk.visible then Failed else Published)
  {
    var next := Act(m, Ok);
    if Target in m.disk.visible {
      Finished(next);
      OneCallMore(m, next, Failed);
    } else {
      var synced := Act(Act(next, Ok), Ok);
      FromCheckTarget(synced);
      TwoCallsMore(next, Published);
      OneCallMore(m, next, Published);
    }
  }

  /** A run in which nothing fails publishes exactly when it finds no target;
      a stale marker alone never stops it. */
  lemma FaultFreeRunPublishes(m: Machine)
    requires m.pc.Idle?
    ensures Finishes(Started(m), Published) <==> Target !in m.disk.visible
    ensures Finishes(Started(m), Failed) <==> Target in m.disk.visible
  {
    var start := Started(m);
    var looked := Act(start, Ok);
    var outcome := if Target in m.disk.visible then Failed else Published;
    if Marker in m.disk.visible {
      FromCheckMarkedTarget(looked);
    } else {
      FromCheckTarget(looked);
    }
    OneCallMore(start, looked, outcome);
    if Finishes(start, Published) && Finishes(start, Failed) {
      OneOutcome(start, Published, Failed);
    }
  }
}
