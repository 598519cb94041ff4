/** The durable admin journal of `host_admin_native.rs`, as a state machine.

    Any number of agent processes contend on one lock and act on one journal
    directory.  Every durable effect is its own step, so a process can die
    between any two of them, and the whole machine can lose power and with it
    any choice of directory changes made since they were last synced. */
module AdminJournal {
  import opened Common

  // -------------------------------------------------------------------------
  // The directory

  const PENDING_SUFFIX := ".pending.pb"

  /** Journal entry names, by the role the agent gives them.  `key` stands for the
      hexadecimal SHA-256 of the operation id, taken to be collision free. */
  datatype Name =
    | Pending(key: string)
    | Terminal(key: string)
    | Receipt(key: string)
    | Capture(key: string, stderr: bool)
    | Foreign(raw: string)

  /** The file name the agent uses for an entry. */
  function Render(n: Name): string {
    match n
    case Pending(key) => "admin-" + key + PENDING_SUFFIX
    case Terminal(key) => "admin-" + key + ".terminal.pb"
    case Receipt(key) => key + ".pb"
    case Capture(key, stderr) => "admin-" + key + (if stderr then ".stderr.bin" else ".stdout.bin")
    case Foreign(raw) => raw
  }

  predicate IsPendingName(n: Name) {
    n.Pending? || (n.Foreign? && EndsWith(n.raw, PENDING_SUFFIX))
  }

  /** Names only the admin executor writes. */
  predicate AdminOwned(n: Name) {
    n.Pending? || n.Terminal?
  }

  /** `visible` maps each entry to whether its metadata is trusted; `dirty` holds the
      names whose last change is not known to be on disk. */
  datatype Directory = Directory(visible: map<Name, bool>, dirty: set<Name>)

  function Create(d: Directory, n: Name): Directory {
    Directory(d.visible[n := true], d.dirty + {n})
  }

  function Remove(d: Directory, n: Name): Directory {
    Directory(d.visible - {n}, d.dirty + {n})
  }

  function SyncAll(d: Directory): Directory {
    d.(dirty := {})
  }

  /** Present, and present after any power loss. */
  predicate Durable(d: Directory, n: Name) {
    n in d.visible && n !in d.dirty
  }

  predicate SameEntry(a: Directory, b: Directory, n: Name) {
    (n in a.visible <==> n in b.visible) && (n in a.visible && n in b.visible ==> a.visible[n] == b.visible[n])
  }

  /** Everything synced survives; a dirty name may come back either way. */
  ghost predicate AfterPowerLoss(d: Directory, d': Directory) {
    && d'.dirty == {}
    && forall n :: n !in d.dirty ==> SameEntry(d, d', n)
  }

  /** Root programs and other journal users may do anything to entries that are not the admin executor's. */
  ghost predicate ForeignChange(d: Directory, d': Directory) {
    forall n :: AdminOwned(n) ==> SameEntry(d, d', n) && (n in d.dirty <==> n in d'.dirty)
  }

  /** The protected scan refuses: some entry is untrusted or pending. */
  ghost predicate Blocked(d: Directory) {
    exists n :: n in d.visible && (!d.visible[n] || IsPendingName(n))
  }

  /** `independent_admin_operation_available`. */
  ghost predicate Available(d: Directory, key: string) {
    && !Blocked(d)
    && Pending(key) !in d.visible
    && Terminal(key) !in d.visible
    && Receipt(key) !in d.visible
  }

  // -------------------------------------------------------------------------
  // Processes

  /** What the executor observed of a finished program. */
  datatype Finish = Finish(processExited: bool, inputComplete: bool, stdoutEof: bool, stderrEof: bool)

  /** `complete_execution`. */
  predicate CompleteExecution(f: Finish) {
    f.processExited && f.inputComplete && f.stdoutEof && f.stderrEof
  }

  /** Where one run of `execute` stands.  `slot` is the index of its own spawn. */
  datatype Pc =
    | Arrived
    | Locked
    | Admitted
    | Cleared
    | PendingOpened
    | Begun
    | StdoutOpened
    | Armed
    | Running(slot: nat)
    | Collected(slot: nat, finish: Finish)
    | TerminalOpened(slot: nat, finish: Finish)
    | TerminalSynced(slot: nat, finish: Finish)
    | PendingRemoved(slot: nat, finish: Finish)
    | Ended

  datatype Process = Process(key: string, pc: Pc)

  /** One started program, in start order. */
  datatype Spawn = Spawn(key: string, finish: Option<Finish>)

  datatype State = State(
    dir: Directory,
    lock: Option<nat>,
    procs: map<nat, Process>,
    spawns: seq<Spawn>,
    begun: set<string>
  )

  predicate HoldsLock(pc: Pc) {
    !pc.Arrived? && !pc.Ended?
  }

  /** Between the second admission check and the start of the program. */
  predicate Preparing(pc: Pc) {
    pc.Cleared? || pc.PendingOpened? || pc.Begun? || pc.StdoutOpened? || pc.Armed?
  }

  predicate Started(pc: Pc) {
    pc.Running? || pc.Collected? || pc.TerminalOpened? || pc.TerminalSynced? || pc.PendingRemoved?
  }

  function At(s: State, p: nat, pc: Pc): State
    requires p in s.procs
  {
    s.(procs := s.procs[p := s.procs[p].(pc := pc)])
  }

  function Release(s: State, p: nat): State {
    if s.lock == Some(p) then s.(lock := None) else s
  }

  // -------------------------------------------------------------------------
  // Steps

  datatype Step =
    | Arrive(p: nat, key: string)
    | AcquireLock(p: nat)
    | FirstCheck(p: nat)
    | SecondCheck(p: nat)
    | OpenPending(p: nat)
    | SyncPending(p: nat)
    | OpenStdout(p: nat)
    | OpenStderr(p: nat)
    | StartProgram(p: nat)
    | Collect(p: nat, finish: Finish)
    | OpenTerminal(p: nat)
    | SyncTerminal(p: nat)
    | RemovePending(p: nat)
    | SyncRemoval(p: nat)
    | KeepPending(p: nat)
    | FailOrDie(p: nat)
    | PowerLoss(dir: Directory)
    | Writeback(names: set<Name>)
    | Outsider(dir: Directory)

  ghost predicate At?(s: State, p: nat, pc: Pc) {
    p in s.procs && s.procs[p].pc == pc
  }

  /** A failed call is the failing process's last step: an unfinished effect is the preceding step
      (or a write-back) followed by `FailOrDie`. */
  ghost predicate Enabled(s: State, step: Step) {
    match step
    case Arrive(p, key) => p !in s.procs
    case AcquireLock(p) => At?(s, p, Arrived) && s.lock.None?
    case FirstCheck(p) => At?(s, p, Locked) && Available(s.dir, s.procs[p].key)
    case SecondCheck(p) => At?(s, p, Admitted) && Available(s.dir, s.procs[p].key)
    case OpenPending(p) => At?(s, p, Cleared) && Pending(s.procs[p].key) !in s.dir.visible
    case SyncPending(p) => At?(s, p, PendingOpened)
    case OpenStdout(p) => At?(s, p, Begun) && Capture(s.procs[p].key, false) !in s.dir.visible
    case OpenStderr(p) => At?(s, p, StdoutOpened) && Capture(s.procs[p].key, true) !in s.dir.visible
    case StartProgram(p) => At?(s, p, Armed)
    case Collect(p, f) => p in s.procs && s.procs[p].pc.Running?
    case OpenTerminal(p) => p in s.procs && s.procs[p].pc.Collected? && Terminal(s.procs[p].key) !in s.dir.visible
    case SyncTerminal(p) => p in s.procs && s.procs[p].pc.TerminalOpened?
    case RemovePending(p) =>
      p in s.procs && s.procs[p].pc.TerminalSynced? && CompleteExecution(s.procs[p].pc.finish)
      && Pending(s.procs[p].key) in s.dir.visible
    case SyncRemoval(p) => p in s.procs && s.procs[p].pc.PendingRemoved?
    case KeepPending(p) =>
      p in s.procs && s.procs[p].pc.TerminalSynced? && !CompleteExecution(s.procs[p].pc.finish)
    case FailOrDie(p) => p in s.procs
    case PowerLoss(d) => AfterPowerLoss(s.dir, d)
    case Writeback(names) => true
    case Outsider(d) => ForeignChange(s.dir, d)
  }

  ghost function Apply(s: State, step: Step): State
    requires Enabled(s, step)
  {
    match step
    case Arrive(p, key) => s.(procs := s.procs[p := Process(key, Arrived)])
    case AcquireLock(p) => At(s, p, Locked).(lock := Some(p))
    case FirstCheck(p) => At(s, p, Admitted)
    case SecondCheck(p) => At(s, p, Cleared)
    case OpenPending(p) => At(s, p, PendingOpened).(dir := Create(s.dir, Pending(s.procs[p].key)))
    case SyncPending(p) => At(s, p, Begun).(dir := SyncAll(s.dir), begun := s.begun + {s.procs[p].key})
    case OpenStdout(p) => At(s, p, StdoutOpened).(dir := Create(s.dir, Capture(s.procs[p].key, false)))
    case OpenStderr(p) => At(s, p, Armed).(dir := Create(s.dir, Capture(s.procs[p].key, true)))
    case StartProgram(p) => At(s, p, Running(|s.spawns|)).(spawns := s.spawns + [Spawn(s.procs[p].key, None)])
    case Collect(p, f) =>
      var slot := s.procs[p].pc.slot;
      At(s, p, Collected(slot, f)).(spawns := if slot < |s.spawns| then s.spawns[slot := s.spawns[slot].(finish := Some(f))] else s.spawns)
    case OpenTerminal(p) =>
      At(s, p, TerminalOpened(s.procs[p].pc.slot, s.procs[p].pc.finish)).(dir := Create(s.dir, Terminal(s.procs[p].key)))
    case SyncTerminal(p) =>
      At(s, p, TerminalSynced(s.procs[p].pc.slot, s.procs[p].pc.finish)).(dir := SyncAll(s.dir))
    case RemovePending(p) =>
      At(s, p, PendingRemoved(s.procs[p].pc.slot, s.procs[p].pc.finish)).(dir := Remove(s.dir, Pending(s.procs[p].key)))
    case SyncRemoval(p) => Release(At(s, p, Ended).(dir := SyncAll(s.dir)), p)
    case KeepPending(p) => Release(At(s, p, Ended), p)
    case FailOrDie(p) => Release(At(s, p, Ended), p)
    case PowerLoss(d) => s.(dir := d, lock := None, procs := map p | p in s.procs :: s.procs[p].(pc := Ended))
    case Writeback(names) => s.(dir := s.dir.(dirty := s.dir.dirty - names))
    case Outsider(d) => s.(dir := d)
  }

  ghost predicate Next(s: State, s': State) {
    exists step :: Enabled(s, step) && s' == Apply(s, step)
  }

  /** The journal may hold anything at first; no program has been started yet. */
  ghost predicate Init(s: State) {
    s.lock.None? && s.procs == map[] && s.spawns == [] && s.begun == {}
  }

  ghost predicate IsRun(run: seq<State>) {
    && |run| > 0
    && Init(run[0])
    && forall i, j :: 0 <= i && j == i + 1 < |run| ==> Next(run[i], run[j])
  }

  // -------------------------------------------------------------------------
  // What every step keeps

  predicate Complete(sp: Spawn) {
    sp.finish.Some? && CompleteExecution(sp.finish.value)
  }

  /** The program ended completely and its receipt survives any power loss. */
  predicate Settled(s: State, sp: Spawn) {
    Complete(sp) && Durable(s.dir, Terminal(sp.key))
  }

  ghost predicate LockInv(s: State) {
    forall p :: p in s.procs && HoldsLock(s.procs[p].pc) ==> s.lock == Some(p)
  }

  ghost predicate DistinctSpawns(s: State) {
    forall i, j :: 0 <= i < j < |s.spawns| ==> s.spawns[i].key != s.spawns[j].key
  }

  /** No started program is ever without a durable record. */
  ghost predicate RecordInv(s: State) {
    forall i :: 0 <= i < |s.spawns| ==>
      Durable(s.dir, Pending(s.spawns[i].key)) || Settled(s, s.spawns[i])
  }

  ghost predicate BegunInv(s: State) {
    && (forall k :: k in s.begun ==> Durable(s.dir, Pending(k)) || Durable(s.dir, Terminal(k)))
    && (forall i :: 0 <= i < |s.spawns| ==> s.spawns[i].key in s.begun)
  }

  /** While a process prepares its program, everything started before is settled and no other BEGIN is open. */
  ghost predicate PreparingInv(s: State, p: nat)
    requires p in s.procs
  {
    var key := s.procs[p].key;
    Preparing(s.procs[p].pc) ==>
      && (forall i :: 0 <= i < |s.spawns| ==> s.spawns[i].key != key && Settled(s, s.spawns[i]))
      && (forall k :: Pending(k) in s.dir.visible ==> k == key && !s.procs[p].pc.Cleared?)
      && (s.procs[p].pc.PendingOpened? ==> Pending(key) in s.dir.visible)
      && (s.procs[p].pc.Begun? || s.procs[p].pc.StdoutOpened? || s.procs[p].pc.Armed? ==>
            Durable(s.dir, Pending(key)) && key in s.begun)
  }

  ghost predicate StartedInv(s: State, p: nat)
    requires p in s.procs
  {
    var key := s.procs[p].key;
    var pc := s.procs[p].pc;
    Started(pc) ==>
      && pc.slot < |s.spawns|
      && s.spawns[pc.slot].key == key
      && (!pc.Running? ==> s.spawns[pc.slot].finish == Some(pc.finish))
      && (!pc.PendingRemoved? ==> Durable(s.dir, Pending(key)))
      && (pc.TerminalOpened? ==> Terminal(key) in s.dir.visible)
      && (pc.TerminalSynced? || pc.PendingRemoved? ==> Durable(s.dir, Terminal(key)))
  }

  ghost predicate Inv(s: State) {
    && LockInv(s)
    && DistinctSpawns(s)
    && RecordInv(s)
    && BegunInv(s)
    && (forall p :: p in s.procs ==> PreparingInv(s, p) && StartedInv(s, p))
  }
}
