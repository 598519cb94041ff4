/** Safety of the admin journal over every run: programs start at most once, only when everything
    started before has settled, and an abandoned BEGIN blocks for good. */
module AdminJournalProofs {
  import opened Common
  import opened AdminJournal

  // -------------------------------------------------------------------------
  // Preservation, step by step

  /** Only the process that holds the lock can be past it. */
  lemma SoleHolder(s: State, p: nat, q: nat)
    requires LockInv(s)
    requires p in s.procs && q in s.procs
    requires HoldsLock(s.procs[p].pc) && HoldsLock(s.procs[q].pc)
    ensures p == q
  {
  }

  /** Passing the second check settles everything that was started before. */
  lemma ClearedMeansSettled(s: State, p: nat)
    requires Inv(s) && Enabled(s, SecondCheck(p))
    ensures forall i :: 0 <= i < |s.spawns| ==> s.spawns[i].key != s.procs[p].key && Settled(s, s.spawns[i])
    ensures forall k :: Pending(k) !in s.dir.visible
  {
    forall k ensures Pending(k) !in s.dir.visible {
      assert IsPendingName(Pending(k));
    }
    forall i | 0 <= i < |s.spawns|
      ensures s.spawns[i].key != s.procs[p].key && Settled(s, s.spawns[i])
    {
      assert Pending(s.spawns[i].key) !in s.dir.visible;
    }
  }

  /** Both admission checks pass exactly for a key of which the unblocked journal holds no entry at all. */
  lemma SameOperationRefused(s: State, p: nat)
    requires p in s.procs && (s.procs[p].pc.Locked? || s.procs[p].pc.Admitted?)
    ensures Enabled(s, FirstCheck(p)) || Enabled(s, SecondCheck(p)) <==>
      && !Blocked(s.dir)
      && Pending(s.procs[p].key) !in s.dir.visible
      && Terminal(s.procs[p].key) !in s.dir.visible
      && Receipt(s.procs[p].key) !in s.dir.visible
  {
  }

  /** The executor never writes over an entry, and the only entry it removes is the pending one of its own key. */
  lemma EntriesNeverRewritten(s: State, step: Step, n: Name)
    requires Enabled(s, step) && !step.PowerLoss? && !step.Outsider? && n in s.dir.visible
    ensures n in Apply(s, step).dir.visible ==> Apply(s, step).dir.visible[n] == s.dir.visible[n]
    ensures n in Apply(s, step).dir.visible && n !in s.dir.dirty ==> n !in Apply(s, step).dir.dirty
    ensures n !in Apply(s, step).dir.visible ==> step.RemovePending? && n == Pending(s.procs[step.p].key)
  {
  }

  lemma AdmissionKeepsInv(s: State, step: Step)
    requires Inv(s) && Enabled(s, step)
    requires step.Arrive? || step.AcquireLock? || step.FirstCheck? || step.SecondCheck?
    ensures Inv(Apply(s, step))
  {
    var s' := Apply(s, step);
    if step.SecondCheck? {
      ClearedMeansSettled(s, step.p);
    }
    forall q | q in s'.procs
      ensures PreparingInv(s', q) && StartedInv(s', q)
    {
      if q in s.procs {
        assert PreparingInv(s, q) && StartedInv(s, q);
      }
    }
  }

  lemma OpenPendingKeepsInv(s: State, p: nat)
    requires Inv(s) && Enabled(s, OpenPending(p))
    ensures Inv(Apply(s, OpenPending(p)))
  {
    var s' := Apply(s, OpenPending(p));
    assert PreparingInv(s, p);
    forall q | q in s'.procs
      ensures PreparingInv(s', q) && StartedInv(s', q)
    {
      assert PreparingInv(s, q) && StartedInv(s, q);
    }
  }

  lemma SyncPendingKeepsInv(s: State, p: nat)
    requires Inv(s) && Enabled(s, SyncPending(p))
    ensures Inv(Apply(s, SyncPending(p)))
  {
    var s' := Apply(s, SyncPending(p));
    assert PreparingInv(s, p);
    forall q | q in s'.procs
      ensures PreparingInv(s', q) && StartedInv(s', q)
    {
      assert PreparingInv(s, q) && StartedInv(s, q);
    }
  }

  /** A new capture file touches no entry the invariant speaks of. */
  lemma CaptureKeepsInv(s: State, p: nat, stderr: bool)
    requires Inv(s) && p in s.procs && s.procs[p].pc == if stderr then StdoutOpened else Begun
    ensures Inv(At(s, p, if stderr then Armed else StdoutOpened).(dir := Create(s.dir, Capture(s.procs[p].key, stderr))))
  {
    var s' := At(s, p, if stderr then Armed else StdoutOpened).(dir := Create(s.dir, Capture(s.procs[p].key, stderr)));
    assert PreparingInv(s, p);
    forall q | q in s'.procs
      ensures PreparingInv(s', q) && StartedInv(s', q)
    {
      assert PreparingInv(s, q) && StartedInv(s, q);
    }
  }

  lemma CapturesKeepInv(s: State, step: Step)
    requires Inv(s) && Enabled(s, step)
    requires step.OpenStdout? || step.OpenStderr?
    ensures Inv(Apply(s, step))
  {
    CaptureKeepsInv(s, step.p, step.OpenStderr?);
  }

  lemma StartKeepsInv(s: State, p: nat)
    requires Inv(s) && Enabled(s, StartProgram(p))
    ensures Inv(Apply(s, StartProgram(p)))
  {
    var s' := Apply(s, StartProgram(p));
    assert PreparingInv(s, p);
    forall q | q in s'.procs
      ensures PreparingInv(s', q) && StartedInv(s', q)
    {
      assert PreparingInv(s, q) && StartedInv(s, q);
    }
  }

  lemma CollectKeepsInv(s: State, p: nat, f: Finish)
    requires Inv(s) && Enabled(s, Collect(p, f))
    ensures Inv(Apply(s, Collect(p, f)))
  {
    var s' := Apply(s, Collect(p, f));
    assert StartedInv(s, p);
    forall i | 0 <= i < |s'.spawns|
      ensures Durable(s'.dir, Pending(s'.spawns[i].key)) || Settled(s', s'.spawns[i])
    {
      assert s'.spawns[i].key == s.spawns[i].key;
    }
    forall q | q in s'.procs
      ensures PreparingInv(s', q) && StartedInv(s', q)
    {
      assert PreparingInv(s, q) && StartedInv(s, q);
    }
  }

  lemma ReceiptKeepsInv(s: State, step: Step)
    requires Inv(s) && Enabled(s, step)
    requires step.OpenTerminal? || step.SyncTerminal?
    ensures Inv(Apply(s, step))
  {
    var s' := Apply(s, step);
    assert StartedInv(s, step.p);
    forall q | q in s'.procs
      ensures PreparingInv(s', q) && StartedInv(s', q)
    {
      assert PreparingInv(s, q) && StartedInv(s, q);
    }
  }

  lemma RemovalKeepsInv(s: State, p: nat)
    requires Inv(s) && Enabled(s, RemovePending(p))
    ensures Inv(Apply(s, RemovePending(p)))
  {
    var s' := Apply(s, RemovePending(p));
    assert StartedInv(s, p);
    forall i | 0 <= i < |s'.spawns|
      ensures Durable(s'.dir, Pending(s'.spawns[i].key)) || Settled(s', s'.spawns[i])
    {
      assert i != s.procs[p].pc.slot ==> s.spawns[i].key != s.procs[p].key;
    }
    forall q | q in s'.procs
      ensures PreparingInv(s', q) && StartedInv(s', q)
    {
      assert PreparingInv(s, q) && StartedInv(s, q);
    }
  }

  /** A process that ends leaves everything else as it was, and the lock free if it held it. */
  lemma LeavingKeepsInv(s: State, p: nat)
    requires Inv(s) && p in s.procs
    ensures Inv(Release(At(s, p, Ended), p))
  {
    var s' := Release(At(s, p, Ended), p);
    forall q | q in s'.procs
      ensures PreparingInv(s', q) && StartedInv(s', q)
    {
      assert PreparingInv(s, q) && StartedInv(s, q);
    }
  }

  lemma EndKeepsInv(s: State, step: Step)
    requires Inv(s) && Enabled(s, step)
    requires step.KeepPending? || step.FailOrDie?
    ensures Inv(Apply(s, step))
  {
    LeavingKeepsInv(s, step.p);
  }

  lemma SyncRemovalKeepsInv(s: State, p: nat)
    requires Inv(s) && Enabled(s, SyncRemoval(p))
    ensures Inv(Apply(s, SyncRemoval(p)))
  {
    var s' := Apply(s, SyncRemoval(p));
    forall q | q in s'.procs
      ensures PreparingInv(s', q) && StartedInv(s', q)
    {
      assert PreparingInv(s, q) && StartedInv(s, q);
    }
  }

  lemma WorldKeepsInv(s: State, step: Step)
    requires Inv(s) && Enabled(s, step)
    requires step.PowerLoss? || step.Writeback? || step.Outsider?
    ensures Inv(Apply(s, step))
  {
    var s' := Apply(s, step);
    forall n: Name | AdminOwned(n)
      ensures Durable(s.dir, n) ==> Durable(s'.dir, n)
      ensures !step.PowerLoss? ==> SameEntry(s.dir, s'.dir, n)
    {
    }
    forall k
      ensures Durable(s.dir, Pending(k)) ==> Durable(s'.dir, Pending(k))
      ensures Durable(s.dir, Terminal(k)) ==> Durable(s'.dir, Terminal(k))
    {
      assert AdminOwned(Pending(k)) && AdminOwned(Terminal(k));
    }
    forall q | q in s'.procs
      ensures PreparingInv(s', q) && StartedInv(s', q)
    {
      assert PreparingInv(s, q) && StartedInv(s, q);
      assert forall k :: AdminOwned(Pending(k)) && AdminOwned(Terminal(k));
    }
  }

  lemma StepKeepsInv(s: State, step: Step)
    requires Inv(s) && Enabled(s, step)
    ensures Inv(Apply(s, step))
  {
    match step
    case Arrive(_, _) => AdmissionKeepsInv(s, step);
    case AcquireLock(_) => AdmissionKeepsInv(s, step);
    case FirstCheck(_) => AdmissionKeepsInv(s, step);
    case SecondCheck(_) => AdmissionKeepsInv(s, step);
    case OpenPending(p) => OpenPendingKeepsInv(s, p);
    case SyncPending(p) => SyncPendingKeepsInv(s, p);
    case OpenStdout(_) => CapturesKeepInv(s, step);
    case OpenStderr(_) => CapturesKeepInv(s, step);
    case StartProgram(p) => StartKeepsInv(s, p);
    case Collect(p, f) => CollectKeepsInv(s, p, f);
    case OpenTerminal(_) => ReceiptKeepsInv(s, step);
    case SyncTerminal(_) => ReceiptKeepsInv(s, step);
    case RemovePending(p) => RemovalKeepsInv(s, p);
    case SyncRemoval(p) => SyncRemovalKeepsInv(s, p);
    case KeepPending(_) => EndKeepsInv(s, step);
    case FailOrDie(_) => EndKeepsInv(s, step);
    case PowerLoss(_) => WorldKeepsInv(s, step);
    case Writeback(_) => WorldKeepsInv(s, step);
    case Outsider(_) => WorldKeepsInv(s, step);
  }

  lemma NextKeepsInv(s: State, s': State)
    requires Inv(s) && Next(s, s')
    ensures Inv(s')
  {
    var step :| Enabled(s, step) && s' == Apply(s, step);
    StepKeepsInv(s, step);
  }

  lemma {:induction false} RunKeepsInv(run: seq<State>, t: nat)
    requires IsRun(run) && t < |run|
    ensures Inv(run[t])
  {
    if t == 0 {
    } else {
      RunKeepsInv(run, t - 1);
      assert Next(run[t - 1], run[t]);
      NextKeepsInv(run[t - 1], run[t]);
    }
  }

  // -------------------------------------------------------------------------
  // The theorems

  /** The program of one operation key is started at most once, whatever the interleaving, the failures,
      the process deaths and the power losses; and from its BEGIN on, every state of the run durably holds its
      pending or its terminal entry. */
  lemma AtMostOnce(run: seq<State>, t: nat)
    requires IsRun(run) && t < |run|
    ensures forall i, j :: 0 <= i < |run[t].spawns| && 0 <= j < |run[t].spawns| && run[t].spawns[i].key == run[t].spawns[j].key
              ==> i == j
    ensures forall i :: 0 <= i < |run[t].spawns| ==> run[t].spawns[i].key in run[t].begun
    ensures forall k :: k in run[t].begun ==> Durable(run[t].dir, Pending(k)) || Durable(run[t].dir, Terminal(k))
  {
    RunKeepsInv(run, t);
  }

  /** No step forgets a started program, and only a start adds one. */
  lemma SpawnsOnlyGrow(s: State, step: Step)
    requires Inv(s) && Enabled(s, step)
    ensures |s.spawns| <= |Apply(s, step).spawns|
    ensures |Apply(s, step).spawns| > |s.spawns| ==> step.StartProgram?
    ensures forall i :: 0 <= i < |s.spawns| ==> Apply(s, step).spawns[i].key == s.spawns[i].key
    ensures s.begun <= Apply(s, step).begun
  {
    if step.Collect? {
      assert StartedInv(s, step.p);
    }
  }

  /** Quiescence: when a program starts, every program started before it ended with process exit, all its
      input delivered and true end-of-file on both pipes, and its receipt is durable. */
  lemma QuiescentBeforeEveryStart(run: seq<State>, t: nat, i: nat)
    requires IsRun(run) && t + 1 < |run|
    requires |run[t + 1].spawns| > |run[t].spawns|
    requires i < |run[t].spawns|
    ensures run[t].spawns[i].finish == Some(Finish(true, true, true, true))
    ensures Durable(run[t].dir, Terminal(run[t].spawns[i].key))
    ensures i < |run[t + 1].spawns| && run[t + 1].spawns[i] == run[t].spawns[i]
  {
    RunKeepsInv(run, t);
    assert Next(run[t], run[t + 1]);
    var step :| Enabled(run[t], step) && run[t + 1] == Apply(run[t], step);
    SpawnsOnlyGrow(run[t], step);
    assert PreparingInv(run[t], step.p);
  }

  // -------------------------------------------------------------------------
  // An abandoned BEGIN blocks for good

  /** `key` has a durable BEGIN and no process that could still resolve it. */
  ghost predicate Abandoned(s: State, key: string) {
    && Durable(s.dir, Pending(key))
    && forall p :: p in s.procs && s.procs[p].key == key ==>
         !Preparing(s.procs[p].pc) && !Started(s.procs[p].pc)
  }

  lemma AbandonedStopsPreparation(s: State, key: string, p: nat)
    requires Inv(s) && Abandoned(s, key) && p in s.procs
    ensures !Preparing(s.procs[p].pc)
    ensures !Enabled(s, SecondCheck(p))
  {
    assert PreparingInv(s, p);
    assert IsPendingName(Pending(key));
  }

  lemma AbandonedPersists(s: State, step: Step, key: string)
    requires Inv(s) && Enabled(s, step) && Abandoned(s, key)
    ensures Abandoned(Apply(s, step), key)
    ensures |Apply(s, step).spawns| == |s.spawns|
  {
    var s' := Apply(s, step);
    SpawnsOnlyGrow(s, step);
    assert AdminOwned(Pending(key));
    forall p | p in s.procs ensures !Preparing(s.procs[p].pc) && !Enabled(s, SecondCheck(p)) {
      AbandonedStopsPreparation(s, key, p);
    }
    if step.RemovePending? {
      assert s.procs[step.p].key != key;
    }
    forall p | p in s'.procs && s'.procs[p].key == key
      ensures !Preparing(s'.procs[p].pc) && !Started(s'.procs[p].pc)
    {
    }
  }

  lemma NextKeepsAbandoned(s: State, s': State, key: string)
    requires Inv(s) && Next(s, s') && Abandoned(s, key)
    ensures Abandoned(s', key) && |s'.spawns| == |s.spawns|
  {
    var step :| Enabled(s, step) && s' == Apply(s, step);
    AbandonedPersists(s, step, key);
  }

  lemma {:induction false} AbandonedForever(run: seq<State>, t: nat, u: nat, key: string)
    requires IsRun(run) && t <= u < |run|
    requires Abandoned(run[t], key)
    ensures Abandoned(run[u], key)
    ensures |run[u].spawns| == |run[t].spawns|
    decreases u
  {
    if t == u {
    } else {
      AbandonedForever(run, t, u - 1, key);
      AbandonedStep(run, u - 1, u, key);
    }
  }

  lemma AbandonedStep(run: seq<State>, t: nat, u: nat, key: string)
    requires IsRun(run) && u == t + 1 < |run| && Abandoned(run[t], key)
    ensures Abandoned(run[u], key) && |run[u].spawns| == |run[t].spawns|
  {
    RunKeepsInv(run, t);
    NextKeepsAbandoned(run[t], run[u], key);
  }

  /** A started program that is not settled and whose executor is gone blocks every later start, for the
      rest of the run. */
  lemma IncompleteBlocksForever(run: seq<State>, t: nat, u: nat, i: nat)
    requires IsRun(run) && t <= u < |run|
    requires i < |run[t].spawns|
    requires !Settled(run[t], run[t].spawns[i])
    requires forall p :: p in run[t].procs && Started(run[t].procs[p].pc) ==> run[t].procs[p].pc.slot != i
    ensures |run[u].spawns| == |run[t].spawns|
  {
    RunKeepsInv(run, t);
    var s := run[t];
    var key := s.spawns[i].key;
    assert Durable(s.dir, Pending(key));
    forall p | p in s.procs && s.procs[p].key == key
      ensures !Preparing(s.procs[p].pc) && !Started(s.procs[p].pc)
    {
      assert PreparingInv(s, p) && StartedInv(s, p);
    }
    AbandonedForever(run, t, u, key);
  }

  /** An executor that ends without complete execution leaves exactly such a program behind. */
  lemma IncompleteEndAbandons(s: State, p: nat)
    requires Inv(s) && Enabled(s, KeepPending(p))
    ensures Abandoned(Apply(s, KeepPending(p)), s.procs[p].key)
  {
    var s' := Apply(s, KeepPending(p));
    var key := s.procs[p].key;
    assert StartedInv(s, p);
    forall q | q in s'.procs && s'.procs[q].key == key
      ensures !Preparing(s'.procs[q].pc) && !Started(s'.procs[q].pc)
    {
      if q != p && HoldsLock(s.procs[q].pc) {
        SoleHolder(s, p, q);
      }
    }
  }

  // -------------------------------------------------------------------------
  // Operations do go through

  ghost function Last(run: seq<State>): State
    requires run != []
  {
    run[|run| - 1]
  }

  lemma Advance(run: seq<State>, step: Step) returns (longer: seq<State>)
    requires IsRun(run) && Enabled(Last(run), step)
    ensures IsRun(longer) && Last(longer) == Apply(Last(run), step)
  {
    longer := run + [Apply(Last(run), step)];
    assert Next(Last(run), Last(longer));
    forall i | 0 <= i < |longer| - 1 ensures Next(longer[i], longer[i + 1]) {
      assert i < |run| - 1 ==> Next(run[i], run[i + 1]);
    }
  }

  /** A journal with nothing in the way of `key`, and no one at work. */
  ghost predicate Idle(s: State, key: string) {
    && s.lock.None?
    && Available(s.dir, key)
    && Capture(key, false) !in s.dir.visible
    && Capture(key, true) !in s.dir.visible
  }

  lemma RunToCleared(run: seq<State>, p: nat, key: string) returns (longer: seq<State>)
    requires IsRun(run) && Idle(Last(run), key) && p !in Last(run).procs
    ensures IsRun(longer) && p in Last(longer).procs && Last(longer).procs[p] == Process(key, Cleared)
    ensures Last(longer) == Last(run).(procs := Last(longer).procs, lock := Some(p))
  {
    longer := Advance(run, Arrive(p, key));
    longer := Advance(longer, AcquireLock(p));
    longer := Advance(longer, FirstCheck(p));
    longer := Advance(longer, SecondCheck(p));
  }

  lemma RunToArmed(run: seq<State>, p: nat, key: string) returns (longer: seq<State>)
    requires IsRun(run) && p in Last(run).procs && Last(run).procs[p] == Process(key, Cleared)
    requires Pending(key) !in Last(run).dir.visible
    requires Capture(key, false) !in Last(run).dir.visible && Capture(key, true) !in Last(run).dir.visible
    ensures IsRun(longer) && p in Last(longer).procs && Last(longer).procs[p] == Process(key, Armed)
    ensures Last(longer) == Last(run).(procs := Last(longer).procs, dir := Last(longer).dir, begun := Last(longer).begun)
    ensures Last(longer).dir.visible == Last(run).dir.visible[Pending(key) := true][Capture(key, false) := true][Capture(key, true) := true]
  {
    longer := Advance(run, OpenPending(p));
    longer := Advance(longer, SyncPending(p));
    longer := Advance(longer, OpenStdout(p));
    longer := Advance(longer, OpenStderr(p));
  }

  lemma RunToEnd(run: seq<State>, p: nat, key: string, slot: nat) returns (longer: seq<State>)
    requires IsRun(run) && At?(Last(run), p, Running(slot)) && slot < |Last(run).spawns|
    requires Last(run).procs[p].key == key && Last(run).lock == Some(p)
    requires Terminal(key) !in Last(run).dir.visible && Pending(key) in Last(run).dir.visible
    ensures IsRun(longer) && Last(longer).lock.None?
    ensures Last(longer).spawns == Last(run).spawns[slot := Last(run).spawns[slot].(finish := Some(Finish(true, true, true, true)))]
    ensures Last(longer).dir == Directory((Last(run).dir.visible[Terminal(key) := true]) - {Pending(key)}, {})
  {
    longer := Advance(run, Collect(p, Finish(true, true, true, true)));
    longer := Advance(longer, OpenTerminal(p));
    longer := Advance(longer, SyncTerminal(p));
    longer := Advance(longer, RemovePending(p));
    longer := Advance(longer, SyncRemoval(p));
  }

  /** From an idle journal an operation can run to its receipt, after which only its own key is refused. */
  lemma CompleteOperationUnblocks(run: seq<State>, p: nat, key: string) returns (longer: seq<State>)
    requires IsRun(run) && Idle(Last(run), key) && p !in Last(run).procs
    ensures IsRun(longer)
    ensures Last(longer).spawns == Last(run).spawns + [Spawn(key, Some(Finish(true, true, true, true)))]
    ensures Last(longer).lock.None? && !Blocked(Last(longer).dir) && !Available(Last(longer).dir, key)
    ensures forall other :: other != key && Available(Last(run).dir, other) ==> Available(Last(longer).dir, other)
  {
    var started := RunToCleared(run, p, key);
    started := RunToArmed(started, p, key);
    started := Advance(started, StartProgram(p));
    longer := RunToEnd(started, p, key, |Last(run).spawns|);
    var d := Last(longer).dir;
    forall n | n in d.visible ensures d.visible[n] && !IsPendingName(n) {
      assert n in Last(started).dir.visible || n == Terminal(key);
      if n in Last(run).dir.visible {
        assert !Blocked(Last(run).dir);
      }
    }
  }
}
