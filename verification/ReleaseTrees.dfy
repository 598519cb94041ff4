/** The stack / previous / next / rollback directories and the renames that move releases between them
    (`apply_digest_bound_bundle`, `rollback_bundle` in `main.rs`).

    What the file system does to an operation is an input: every call it makes may fail, a directory removal or a
    write may be cut short, and dying at a call is that call failing with nothing after it succeeding.  So a statement
    about every such input covers every failure and every process death. */
module ReleaseTrees {
  import opened Common

  // -------------------------------------------------------------------------
  // Trees

  /** Contents by relative path.  It also stands for the bundle digest over them, taken to be collision free. */
  type Files = map<string, string>

  datatype Release = Release(bundleId: string, digest: Files)

  /** The release marker, the beginning of one, or anything else. */
  datatype File = Marker(release: Release) | Scrap | Plain(content: string)

  type Tree = map<string, File>

  const MARKER := ".application-release.pb"
  const POLICY := ".env.runtime.policy"
  const RUNTIME := ".env.runtime"
  const RUNTIME_NEW := ".env.runtime.new"

  /** Names the agent itself writes into a release. */
  const AGENT_FILES: set<string> := {MARKER, RUNTIME, RUNTIME_NEW}

  datatype Slot = Stack | Previous | Next | Rollback

  /** Which of the four directories exist, and what they hold. */
  datatype Layout = Layout(stack: Option<Tree>, previous: Option<Tree>, next: Option<Tree>, rollback: Option<Tree>)

  function Get(l: Layout, s: Slot): Option<Tree> {
    match s
    case Stack => l.stack
    case Previous => l.previous
    case Next => l.next
    case Rollback => l.rollback
  }

  function Put(l: Layout, s: Slot, t: Option<Tree>): Layout {
    match s
    case Stack => l.(stack := t)
    case Previous => l.(previous := t)
    case Next => l.(next := t)
    case Rollback => l.(rollback := t)
  }

  /** `read_application_release`: nothing if the directory, the marker or a valid marker is missing. */
  function ReadRelease(t: Option<Tree>): Option<Release> {
    if t.Some? && MARKER in t.value && t.value[MARKER].Marker? then Some(t.value[MARKER].release) else None
  }

  // -------------------------------------------------------------------------
  // Requests and what they stage

  datatype BundleFile = BundleFile(path: string, content: string)

  /** `wellFormed` covers the checks on names and shape, `env` is the runtime environment the host renders, and
      `initial` asks for the first, credential-free installation. */
  datatype Request = Request(
    bundleId: string, digest: Files, files: seq<BundleFile>, env: string, wellFormed: bool, initial: bool
  )

  function Contents(files: seq<BundleFile>): Files {
    if files == [] then map[]
    else
      var n := |files| - 1;
      Contents(files[..n])[files[n].path := files[n].content]
  }

  /** `validate_digest_bound_bundle_request`; a first installation must bring its runtime policy. */
  predicate Valid(q: Request) {
    q.wellFormed && q.digest == Contents(q.files) && (q.initial ==> POLICY in q.digest)
  }

  function ReleaseOf(q: Request): Release {
    Release(q.bundleId, q.digest)
  }

  /** One step of filling the staging directory. */
  datatype Step = Write(path: string, file: File) | Publish(from: string, to: string)

  function Writes(files: seq<BundleFile>): (r: seq<Step>)
    ensures |r| == |files|
    ensures forall i :: 0 <= i < |r| ==> r[i] == Write(files[i].path, Plain(files[i].content))
  {
    seq(|files|, i requires 0 <= i < |files| => Write(files[i].path, Plain(files[i].content)))
  }

  /** The runtime environment is written under a temporary name and renamed, when there is a policy for it. */
  function RuntimeSteps(q: Request): seq<Step> {
    if POLICY in Contents(q.files) && !q.initial then [Write(RUNTIME_NEW, Plain(q.env)), Publish(RUNTIME_NEW, RUNTIME)] else []
  }

  /** The bundle's files in order, the runtime environment, and the marker last. */
  function Steps(q: Request): seq<Step> {
    Writes(q.files) + RuntimeSteps(q) + [Write(MARKER, Marker(ReleaseOf(q)))]
  }

  function Do(t: Tree, s: Step): Tree {
    match s
    case Write(path, file) => t[path := file]
    case Publish(from, to) => if from in t then (t - {from})[to := t[from]] else t
  }

  function After(steps: seq<Step>, k: nat): Tree
    requires k <= |steps|
  {
    if k == 0 then map[] else Do(After(steps, k - 1), steps[k - 1])
  }

  /** The whole release a request builds. */
  function Target(q: Request): Tree {
    After(Steps(q), |Steps(q)|)
  }

  function Head(f: File, n: nat): File {
    if f.Plain? then Plain(f.content[..Min(n, |f.content|)]) else Scrap
  }

  /** Step `k` is where the staging was cut, with `n` bytes of its file written, if it was opened at all. */
  function CutAt(steps: seq<Step>, k: nat, n: Option<nat>): Tree
    requires k < |steps|
  {
    var t := After(steps, k);
    if n.Some? && steps[k].Write? then t[steps[k].path := Head(steps[k].file, n.value)] else t
  }

  // -------------------------------------------------------------------------
  // Where an apply can end

  /** The first installation refuses anything but an empty host. */
  predicate EmptyHost(l: Layout) {
    l.next.None? && l.previous.None? && l.rollback.None? && (l.stack.Some? ==> l.stack.value == map[])
  }

  predicate SameRelease(l: Layout, q: Request) {
    ReadRelease(l.stack) == Some(ReleaseOf(q))
  }

  predicate Admitted(q: Request, l: Layout) {
    Valid(q) && (q.initial ==> EmptyHost(l))
  }

  /** The apply has something to do and may do it. */
  predicate Goes(q: Request, l: Layout) {
    Admitted(q, l) && !SameRelease(l, q)
  }

  /** The last thing an apply did. */
  datatype ApplyEnd =
    | Untouched
    | Clearing(removed: set<string>)
    | Cleared
    | Staging(step: nat, bytes: Option<nat>)
    | Staged
    | Removing(removed: set<string>)
    | Removed
    | Rotated
    | Restored
    | Activated

  predicate CanEnd(q: Request, l: Layout, end: ApplyEnd) {
    end.Untouched? || (Goes(q, l) &&
    match end
    case Clearing(_) => l.next.Some?
    case Cleared => l.next.Some?
    case Staging(step, _) => step < |Steps(q)|
    case Removing(_) => !q.initial && l.stack.Some? && l.previous.Some?
    case Removed => !q.initial && l.stack.Some? && l.previous.Some?
    case Rotated => l.stack.Some?
    case Restored => SetAside(q, l).Some?
    case _ => true)
  }

  /** The previous release once the active one is out of the way. */
  function SetAside(q: Request, l: Layout): Option<Tree> {
    if l.stack.Some? && !q.initial then l.stack else l.previous
  }

  /** The layout an apply leaves by ending there. */
  function ApplyAt(q: Request, l: Layout, end: ApplyEnd): Layout
    requires CanEnd(q, l, end)
  {
    var staged := l.(next := Some(Target(q)));
    match end
    case Untouched => l
    case Clearing(removed) => l.(next := Some(l.next.value - removed))
    case Cleared => l.(next := None)
    case Staging(step, bytes) => l.(next := Some(CutAt(Steps(q), step, bytes)))
    case Staged => staged
    case Removing(removed) => staged.(previous := Some(l.previous.value - removed))
    case Removed => staged.(previous := None)
    case Rotated => staged.(stack := None, previous := SetAside(q, l))
    case Restored => staged.(stack := SetAside(q, l), previous := None)
    case Activated => l.(stack := Some(Target(q)), previous := SetAside(q, l), next := None)
  }

  // -------------------------------------------------------------------------
  // Where a rollback can end

  /** Both releases are marked and the scratch name is free. */
  predicate RollbackAdmitted(l: Layout) {
    ReadRelease(l.stack).Some? && ReadRelease(l.previous).Some? && l.rollback.None?
  }

  predicate RollbackAuthorized(l: Layout, expected: Files) {
    RollbackAdmitted(l) && ReadRelease(l.stack).value.digest == expected
  }

  datatype RollbackEnd = Unmoved | StackAside | PreviousUp | Swapped

  predicate CanRollTo(l: Layout, expected: Files, end: RollbackEnd) {
    end.Unmoved? || RollbackAuthorized(l, expected)
  }

  function RollbackAt(l: Layout, end: RollbackEnd): Layout {
    match end
    case Unmoved => l
    case StackAside => l.(stack := None, rollback := l.stack)
    case PreviousUp => l.(stack := l.previous, previous := None, rollback := l.stack)
    case Swapped => l.(stack := l.previous, previous := l.stack)
  }

  // -------------------------------------------------------------------------
  // What the file system does

  /** The calls of one apply: `true` or `None` for success; a removal reports what it had removed, the staging where
      it stopped. */
  datatype ApplyCalls = ApplyCalls(
    alive: bool, clear: Option<set<string>>, create: bool, stage: Option<(nat, Option<nat>)>, drop: Option<set<string>>,
    rotate: bool, activate: bool, restore: bool
  )

  datatype RollbackCalls = RollbackCalls(alive: bool, aside: bool, up: bool, complete: bool, undo: bool, back: bool)

  /** Where the calls lead. */
  function EndOf(q: Request, l: Layout, c: ApplyCalls): ApplyEnd {
    if !Goes(q, l) || !c.alive then Untouched
    else if l.next.Some? && c.clear.Some? then Clearing(c.clear.value)
    else if !c.create then if l.next.Some? then Cleared else Untouched
    else if c.stage.Some? && c.stage.value.0 < |Steps(q)| then Staging(c.stage.value.0, c.stage.value.1)
    else if l.stack.Some? && !q.initial && l.previous.Some? && c.drop.Some? then Removing(c.drop.value)
    else if l.stack.Some? && !c.rotate then if !q.initial && l.previous.Some? then Removed else Staged
    else if c.activate then Activated
    else if SetAside(q, l).Some? && c.restore then Restored
    else if l.stack.Some? then Rotated
    else Staged
  }

  function RollbackEndOf(l: Layout, expected: Files, c: RollbackCalls): RollbackEnd {
    if !RollbackAuthorized(l, expected) || !c.alive || !c.aside then Unmoved else SwapEndOf(c)
  }

  function SwapEndOf(c: RollbackCalls): RollbackEnd {
    if !c.up then if c.back then Unmoved else StackAside
    else if c.complete then Swapped
    else if !c.undo then PreviousUp
    else if c.back then Unmoved
    else StackAside
  }

  lemma CallsLeadToEnds(q: Request, l: Layout, c: ApplyCalls, expected: Files, d: RollbackCalls)
    ensures CanEnd(q, l, EndOf(q, l, c))
    ensures CanRollTo(l, expected, RollbackEndOf(l, expected, d))
  {
  }

  function CallsFor(end: ApplyEnd): ApplyCalls {
    var all := ApplyCalls(true, None, true, None, None, true, true, true);
    match end
    case Untouched => all.(alive := false)
    case Clearing(removed) => all.(clear := Some(removed))
    case Cleared => all.(create := false)
    case Staging(step, bytes) => all.(stage := Some((step, bytes)))
    case Staged => all.(drop := Some({}), rotate := false, activate := false, restore := false)
    case Removing(removed) => all.(drop := Some(removed))
    case Removed => all.(rotate := false)
    case Rotated => all.(activate := false, restore := false)
    case Restored => all.(activate := false)
    case Activated => all
  }

  function RollbackCallsFor(end: RollbackEnd): RollbackCalls {
    var all := RollbackCalls(true, true, true, true, true, true);
    match end
    case Unmoved => all.(alive := false)
    case StackAside => all.(up := false, back := false)
    case PreviousUp => all.(complete := false, undo := false)
    case Swapped => all
  }

  /** No end is listed that the operations cannot come to. */
  lemma EveryEndIsReached(q: Request, l: Layout, end: ApplyEnd, expected: Files, rolled: RollbackEnd)
    requires CanEnd(q, l, end) && CanRollTo(l, expected, rolled)
    ensures ApplyAt(q, l, EndOf(q, l, CallsFor(end))) == ApplyAt(q, l, end)
    ensures RollbackEndOf(l, expected, RollbackCallsFor(rolled)) == rolled
  {
    if end.Staged? && l.stack.Some? && l.previous.Some? {
      assert l.previous.value - {} == l.previous.value;
    }
  }

  // -------------------------------------------------------------------------
  // The host

  /** Rename succeeds only from an existing directory onto a missing or empty one. */
  predicate CanRename(l: Layout, from: Slot, to: Slot) {
    Get(l, from).Some? && from != to && (Get(l, to).Some? ==> Get(l, to).value == map[])
  }

  function Moved(l: Layout, from: Slot, to: Slot): Layout {
    Put(Put(l, from, None), to, Get(l, from))
  }

  class Host {
    var layout: Layout

    constructor (layout: Layout)
      ensures this.layout == layout
    {
      this.layout := layout;
    }

    method Rename(from: Slot, to: Slot, works: bool) returns (ok: bool)
      modifies this
      ensures ok <==> works && CanRename(old(layout), from, to)
      ensures layout == if ok then Moved(old(layout), from, to) else old(layout)
    {
      ok := works && CanRename(layout, from, to);
      if ok {
        layout := Moved(layout, from, to);
      }
    }

    /** `remove_dir_all`: file by file, so a cut leaves the rest of the tree. */
    method RemoveAll(s: Slot, cut: Option<set<string>>) returns (ok: bool)
      requires Get(layout, s).Some?
      modifies this
      ensures ok <==> cut.None?
      ensures layout == Put(old(layout), s, if ok then None else Some(Get(old(layout), s).value - cut.value))
    {
      ok := cut.None?;
      layout := Put(layout, s, if ok then None else Some(Get(layout, s).value - cut.value));
    }

    method CreateNext(works: bool) returns (ok: bool)
      requires layout.next.None?
      modifies this
      ensures ok == works && layout == if ok then old(layout).(next := Some(map[])) else old(layout)
    {
      ok := works;
      if ok {
        layout := layout.(next := Some(map[]));
      }
    }

    /** Fills the staging directory step by step; the marker is the last file written. */
    method Fill(steps: seq<Step>, cut: Option<(nat, Option<nat>)>) returns (ok: bool)
      requires layout.next == Some(map[])
      modifies this
      ensures ok <==> cut.None? || cut.value.0 >= |steps|
      ensures layout == old(layout).(next := Some(
                if ok then After(steps, |steps|) else CutAt(steps, cut.value.0, cut.value.1)))
    {
      var i := 0;
      while i < |steps|
        invariant 0 <= i <= |steps|
        invariant layout == old(layout).(next := Some(After(steps, i)))
        invariant cut.Some? ==> i <= cut.value.0
      {
        if cut.Some? && cut.value.0 == i {
          layout := layout.(next := Some(CutAt(steps, i, cut.value.1)));
          return false;
        }
        layout := layout.(next := Some(Do(layout.next.value, steps[i])));
        i := i + 1;
      }
      ok := true;
    }
  }

  // -------------------------------------------------------------------------
  // The two operations

  /** `apply_digest_bound_bundle`. */
  method ApplyBundle(host: Host, q: Request, c: ApplyCalls) returns (r: Result<()>)
    modifies host
    ensures CanEnd(q, old(host.layout), EndOf(q, old(host.layout), c))
    ensures host.layout == ApplyAt(q, old(host.layout), EndOf(q, old(host.layout), c))
    ensures !q.wellFormed || q.digest != Contents(q.files) ==> r.Err? && host.layout == old(host.layout)
    ensures q.initial && old(host.layout).stack.Some? && old(host.layout).stack.value != map[] ==> r.Err? && host.layout == old(host.layout)
    ensures q.initial && (old(host.layout).next.Some? || old(host.layout).previous.Some? || old(host.layout).rollback.Some?) ==>
      r.Err? && host.layout == old(host.layout)
    ensures ReadRelease(old(host.layout).stack) == Some(Release(q.bundleId, q.digest)) ==> host.layout == old(host.layout)
    ensures r.Ok? <==> Admitted(q, old(host.layout)) && (SameRelease(old(host.layout), q) || EndOf(q, old(host.layout), c).Activated?)
  {
    if !Valid(q) {
      return Err("bundle invalid");
    }
    if q.initial && !EmptyHost(host.layout) {
      return Err("host not empty");
    }
    if SameRelease(host.layout, q) {
      return Ok(());
    }
    if !c.alive {
      return Err("died");
    }
    var staged := StageNext(host, q, c);
    if !staged {
      return Err("not staged");
    }
    if host.layout.stack.Some? {
      var vacated := Vacate(host, q, c);
      if !vacated {
        return Err("not rotated");
      }
    }
    r := Activate(host, c);
  }

  /** Puts the staged release in place, or puts the rotated one back. */
  method Activate(host: Host, c: ApplyCalls) returns (r: Result<()>)
    requires host.layout.stack.None? && host.layout.next.Some?
    modifies host
    ensures r.Ok? <==> c.activate
    ensures host.layout == ActivatedBy(old(host.layout), c)
  {
    var activated := host.Rename(Next, Stack, c.activate);
    if !activated {
      if host.layout.previous.Some? && host.layout.stack.None? {
        var restored := host.Rename(Previous, Stack, c.restore);
      }
      return Err("not activated");
    }
    r := Ok(());
  }

  function ActivatedBy(l: Layout, c: ApplyCalls): Layout {
    if c.activate then l.(stack := l.next, next := None)
    else if l.previous.Some? && c.restore then l.(stack := l.previous, previous := None)
    else l
  }

  /** Clears a stale staging directory and fills a new one. */
  method StageNext(host: Host, q: Request, c: ApplyCalls) returns (ok: bool)
    requires Goes(q, host.layout) && c.alive
    modifies host
    ensures ok ==> host.layout == old(host.layout).(next := Some(Target(q)))
    ensures ok ==> (old(host.layout).next.Some? ==> c.clear.None?) && c.create && (c.stage.Some? ==> c.stage.value.0 >= |Steps(q)|)
    ensures !ok ==> host.layout == ApplyAt(q, old(host.layout), EndOf(q, old(host.layout), c))
    ensures !ok ==> var end := EndOf(q, old(host.layout), c); end.Clearing? || end.Cleared? || end.Staging? || end.Untouched?
  {
    if host.layout.next.Some? {
      var cleared := host.RemoveAll(Next, c.clear);
      if !cleared {
        return false;
      }
    }
    var created := host.CreateNext(c.create);
    if !created {
      return false;
    }
    ok := host.Fill(Steps(q), c.stage);
  }

  /** What a failed rotation has left of the previous release. */
  function PreviousLeft(q: Request, l: Layout, c: ApplyCalls): Option<Tree> {
    if q.initial || l.previous.None? then l.previous
    else if c.drop.None? then None
    else Some(l.previous.value - c.drop.value)
  }

  /** Gets the active directory out of the way: an empty one is removed, a release becomes the previous one. */
  method Vacate(host: Host, q: Request, c: ApplyCalls) returns (ok: bool)
    requires host.layout.stack.Some? && (q.initial ==> host.layout.stack.value == map[])
    modifies host
    ensures ok <==> c.rotate && (!q.initial && old(host.layout).previous.Some? ==> c.drop.None?)
    ensures ok ==> host.layout == old(host.layout).(stack := None, previous := SetAside(q, old(host.layout)))
    ensures !ok ==> host.layout == old(host.layout).(previous := PreviousLeft(q, old(host.layout), c))
  {
    if q.initial {
      if c.rotate {
        host.layout := host.layout.(stack := None);
      }
      return c.rotate;
    }
    if host.layout.previous.Some? {
      var removed := host.RemoveAll(Previous, c.drop);
      if !removed {
        return false;
      }
    }
    ok := host.Rename(Stack, Previous, c.rotate);
  }

  /** `rollback_bundle`. */
  method RollbackBundle(host: Host, expected: Files, c: RollbackCalls) returns (r: Result<()>)
    modifies host
    ensures host.layout == RollbackAt(old(host.layout), RollbackEndOf(old(host.layout), expected, c))
    ensures r.Ok? <==> RollbackEndOf(old(host.layout), expected, c).Swapped?
    ensures ReadRelease(old(host.layout).stack).None? || ReadRelease(old(host.layout).stack).value.digest != expected ==>
      r.Err? && host.layout == old(host.layout)
    ensures ReadRelease(old(host.layout).previous).None? || old(host.layout).rollback.Some? ==> r.Err? && host.layout == old(host.layout)
  {
    var current := ReadRelease(host.layout.stack);
    if current.None? {
      return Err("no active release");
    }
    if current.value.digest != expected {
      return Err("stale rollback");
    }
    if ReadRelease(host.layout.previous).None? {
      return Err("no previous release");
    }
    if host.layout.rollback.Some? {
      return Err("scratch exists");
    }
    var staged := host.Rename(Stack, Rollback, c.alive && c.aside);
    if !staged {
      return Err("not set aside");
    }
    assert host.layout == RollbackAt(old(host.layout), StackAside);
    r := SwapIn(host, c);
    SwapEnds(old(host.layout), c);
  }

  /** The renames after the first lead where the calls say. */
  lemma SwapEnds(l: Layout, c: RollbackCalls)
    requires l.rollback.None? && l.stack.Some?
    ensures SwappedBy(RollbackAt(l, StackAside), c) == RollbackAt(l, SwapEndOf(c))
  {
  }

  /** The second and third rename, with their compensations. */
  method SwapIn(host: Host, c: RollbackCalls) returns (r: Result<()>)
    requires host.layout.stack.None? && ReadRelease(host.layout.previous).Some? && host.layout.rollback.Some?
    modifies host
    ensures r.Ok? <==> c.up && c.complete
    ensures host.layout == SwappedBy(old(host.layout), c)
  {
    var activated := host.Rename(Previous, Stack, c.up);
    if !activated {
      var back := host.Rename(Rollback, Stack, c.back);
      return Err("not brought back");
    }
    var completed := host.Rename(Rollback, Previous, c.complete);
    if !completed {
      var undone := host.Rename(Stack, Previous, c.undo);
      var back := host.Rename(Rollback, Stack, c.back);
      return Err("not swapped");
    }
    r := Ok(());
  }

  function SwappedBy(l: Layout, c: RollbackCalls): Layout {
    var back := if c.back then l.(stack := l.rollback, rollback := None) else l;
    if !c.up then back
    else if c.complete then l.(stack := l.previous, previous := l.rollback, rollback := None)
    else if !c.undo then l.(stack := l.previous, previous := None)
    else back
  }

  // -------------------------------------------------------------------------
  // Single operations

  /** Wherever an apply ends, the release active when it began is still whole in stack or previous. */
  lemma ActiveReleaseKept(q: Request, l: Layout, end: ApplyEnd)
    requires CanEnd(q, l, end) && l.stack.Some? && !q.initial
    ensures ApplyAt(q, l, end).stack == l.stack || ApplyAt(q, l, end).previous == l.stack
    ensures ApplyAt(q, l, end).rollback == l.rollback
  {
  }

  /** Wherever a rollback ends, both trees are there, in two different directories, and nothing else has changed. */
  lemma BothReleasesKept(l: Layout, expected: Files, end: RollbackEnd)
    requires CanRollTo(l, expected, end) && RollbackAdmitted(l)
    ensures exists s, s' :: s != s' && s != Next && s' != Next
                            && Get(RollbackAt(l, end), s) == l.stack && Get(RollbackAt(l, end), s') == l.previous
    ensures RollbackAt(l, end).next == l.next
  {
    var now := RollbackAt(l, end);
    match end
    case Unmoved => assert Get(now, Stack) == l.stack && Get(now, Previous) == l.previous;
    case StackAside => assert Get(now, Rollback) == l.stack && Get(now, Previous) == l.previous;
    case PreviousUp => assert Get(now, Rollback) == l.stack && Get(now, Stack) == l.previous;
    case Swapped => assert Get(now, Previous) == l.stack && Get(now, Stack) == l.previous;
  }

  /** An activation that fails puts the active release back; a rollback that fails puts both back. */
  lemma FailuresArePutBack(q: Request, l: Layout, c: ApplyCalls, expected: Files, d: RollbackCalls)
    ensures Goes(q, l) && l.stack.Some? && !q.initial && !c.activate && c.restore
            && EndOf(q, l, c.(activate := true)).Activated? ==>
            CanEnd(q, l, EndOf(q, l, c)) && ApplyAt(q, l, EndOf(q, l, c)).stack == l.stack
    ensures !(d.up && d.complete) && d.undo && d.back ==> RollbackAt(l, RollbackEndOf(l, expected, d)) == l
  {
  }

  lemma RollbackUndoesApply(q: Request, l: Layout)
    requires l.stack.Some? && Goes(q, l) && !q.initial
    ensures var applied := ApplyAt(q, l, Activated);
            RollbackAt(applied, Swapped) == applied.(stack := l.stack, previous := Some(Target(q)))
  {
  }

  lemma TwoRollbacksCancel(l: Layout)
    ensures RollbackAt(RollbackAt(l, Swapped), Swapped) == l
  {
  }

  // -------------------------------------------------------------------------
  // A test a rollback could make

  /** What the bundle digest of a tree is taken over. */
  function Static(t: Tree): Files {
    map p | p in t && p !in AGENT_FILES && t[p].Plain? :: t[p].content
  }

  /** The marker's digest is that of the files beside it, and the runtime environment is there if it should be. */
  predicate Intact(t: Tree) {
    && MARKER in t && t[MARKER].Marker?
    && t[MARKER].release.digest == Static(t)
    && (forall p :: p in t && p != MARKER ==> t[p].Plain?)
    && RUNTIME_NEW !in t
    && (POLICY in t <==> RUNTIME in t)
  }

  /** A bundle of an enrolled host that names none of the agent's own files. */
  predicate Ordinary(q: Request) {
    Valid(q) && !q.initial && forall p :: p in AGENT_FILES ==> p !in q.digest
  }

  ghost predicate PartOf(part: Tree, whole: Tree) {
    forall p :: p in part ==> p in whole && part[p] == whole[p]
  }

  /** Nothing that is missing a file passes the test. */
  lemma TornIsNotIntact(part: Tree, whole: Tree)
    requires Intact(whole) && PartOf(part, whole) && Intact(part)
    ensures part == whole
  {
    assert Static(part) == Static(whole);
    forall p | p in whole ensures p in part {
      if p !in AGENT_FILES {
        assert p in Static(whole);
      } else if p == RUNTIME {
        assert POLICY in whole;
        assert POLICY in Static(whole);
      }
    }
  }

  function AllPlain(m: Files): Tree {
    map p | p in m :: Plain(m[p])
  }

  /** The tree a request builds, without its steps. */
  function Built(q: Request): Tree {
    var files := AllPlain(Contents(q.files));
    var runtime := if POLICY in Contents(q.files) && !q.initial then (files - {RUNTIME_NEW})[RUNTIME := Plain(q.env)] else files;
    runtime[MARKER := Marker(ReleaseOf(q))]
  }

  lemma {:induction false} AfterPrefix(a: seq<Step>, b: seq<Step>, k: nat)
    requires k <= |a|
    ensures After(a + b, k) == After(a, k)
  {
    if k == 0 {
    } else {
      AfterPrefix(a, b, k - 1);
    }
  }

  lemma {:induction false} FilesWritten(files: seq<BundleFile>, k: nat)
    requires k <= |files|
    ensures After(Writes(files), k) == AllPlain(Contents(files[..k]))
  {
    if k == 0 {
    } else {
      FilesWritten(files, k - 1);
      assert files[..k][..k - 1] == files[..k - 1];
    }
  }

  /** The runtime environment, on top of the bundle's files. */
  lemma RuntimePublished(w: seq<Step>, env: string)
    ensures var steps := w + [Write(RUNTIME_NEW, Plain(env)), Publish(RUNTIME_NEW, RUNTIME)];
            After(steps, |steps|) == (After(w, |w|) - {RUNTIME_NEW})[RUNTIME := Plain(env)]
  {
    var e := [Write(RUNTIME_NEW, Plain(env)), Publish(RUNTIME_NEW, RUNTIME)];
    var t := After(w, |w|);
    AfterPrefix(w, e, |w|);
    assert (w + e)[|w|] == e[0] && (w + e)[|w| + 1] == e[1];
    assert After(w + e, |w| + 1) == t[RUNTIME_NEW := Plain(env)];
    assert t[RUNTIME_NEW := Plain(env)] - {RUNTIME_NEW} == t - {RUNTIME_NEW};
  }

  lemma TargetIsBuilt(q: Request)
    ensures Target(q) == Built(q)
  {
    var w, e := Writes(q.files), RuntimeSteps(q);
    var m := [Write(MARKER, Marker(ReleaseOf(q)))];
    FilesWritten(q.files, |q.files|);
    assert q.files[..|q.files|] == q.files;
    RuntimePublished(w, q.env);
    assert e == [] ==> w + e == w;
    AfterPrefix(w + e, m, |w + e|);
    assert Steps(q)[|w + e|] == m[0];
  }

  /** Until its last step a staged release carries no marker that can be read, so it passes for no release. */
  lemma {:induction false} UnfinishedIsUnmarked(q: Request, k: nat, n: Option<nat>)
    requires k < |Steps(q)|
    ensures forall p :: p in After(Steps(q), k) ==> After(Steps(q), k)[p].Plain?
    ensures ReadRelease(Some(CutAt(Steps(q), k, n))).None?
  {
    if k == 0 {
    } else {
      UnfinishedIsUnmarked(q, k - 1, n);
      assert Steps(q)[k - 1] == (Writes(q.files) + RuntimeSteps(q))[k - 1];
    }
  }

  lemma OrdinaryIsIntact(q: Request)
    requires Ordinary(q)
    ensures Intact(Target(q))
  {
    TargetIsBuilt(q);
    assert Static(Built(q)) == q.digest;
  }

  /** A part of a release passes the test only as the whole of it, whatever its bundle names. */
  lemma PartPassesAsWhole(part: Tree, q: Request)
    requires Valid(q) && PartOf(part, Target(q)) && Intact(part)
    ensures Ordinary(q) && part == Target(q)
  {
    TargetIsBuilt(q);
    assert part[MARKER] == Target(q)[MARKER];
    assert q.digest == Static(part);
    assert forall p :: p in AGENT_FILES ==> p !in q.digest;
    assert POLICY in q.digest ==> RUNTIME in part;
    OrdinaryIsIntact(q);
    TornIsNotIntact(part, Target(q));
  }

  // -------------------------------------------------------------------------
  // Whole runs

  /** One operation and where it ended. */
  datatype Operation = Apply(q: Request, end: ApplyEnd) | Roll(expected: Files, to: RollbackEnd)

  ghost predicate Takes(op: Operation, a: Layout, b: Layout) {
    match op
    case Apply(q, end) => CanEnd(q, a, end) && b == ApplyAt(q, a, end)
    case Roll(expected, to) => CanRollTo(a, expected, to) && b == RollbackAt(a, to)
  }

  ghost predicate IsRun(ops: seq<Operation>, layouts: seq<Layout>) {
    && |layouts| == |ops| + 1
    && forall i, j :: 0 <= i && j == i + 1 <= |ops| ==> Takes(ops[i], layouts[i], layouts[j])
  }

  /** The requests a run has been given, and those whose releases were there at its beginning. */
  ghost function Requests(first: set<Request>, ops: seq<Operation>): set<Request> {
    if ops == [] then first
    else
      var n := |ops| - 1;
      Requests(first, ops[..n]) + (if ops[n].Apply? then {ops[n].q} else {})
  }

  /** `t` is the whole release of one of these requests. */
  ghost predicate WholeOf(qs: set<Request>, t: Tree) {
    exists q :: q in qs && Valid(q) && t == Target(q)
  }

  /** `t` is what is left of one of them. */
  ghost predicate RemnantOf(qs: set<Request>, t: Tree) {
    exists q :: q in qs && Valid(q) && PartOf(t, Target(q))
  }

  /** `t` is in one of the directories that can become active. */
  predicate Holds(l: Layout, t: Tree) {
    l.stack == Some(t) || l.previous == Some(t) || l.rollback == Some(t)
  }

  /** These directories hold nothing but remnants of releases of the run. */
  ghost predicate Traced(qs: set<Request>, l: Layout) {
    forall t :: Holds(l, t) ==> t == map[] || RemnantOf(qs, t)
  }

  /** Every directory that can become active holds a whole release, or nothing. */
  ghost predicate AllWhole(qs: set<Request>, l: Layout) {
    forall t :: Holds(l, t) ==> t == map[] || WholeOf(qs, t)
  }

  /** Where a tree found after an operation comes from. */
  ghost predicate Comes(op: Operation, a: Layout, t: Tree) {
    || Holds(a, t)
    || (op.Apply? && op.end.Removing? && a.previous.Some? && t == a.previous.value - op.end.removed)
    || (op.Apply? && op.end.Activated? && Valid(op.q) && t == Target(op.q))
  }

  lemma TreesComeFrom(op: Operation, a: Layout, b: Layout, t: Tree)
    requires Takes(op, a, b) && Holds(b, t)
    ensures Comes(op, a, t)
  {
  }

  lemma WholeIsRemnant(qs: set<Request>, t: Tree)
    requires WholeOf(qs, t)
    ensures RemnantOf(qs, t)
  {
    var q :| q in qs && Valid(q) && t == Target(q);
    assert PartOf(t, Target(q));
  }

  lemma SmallerIsRemnant(qs: set<Request>, t: Tree, removed: set<string>)
    requires t == map[] || RemnantOf(qs, t)
    ensures t - removed == map[] || RemnantOf(qs, t - removed)
  {
    if t != map[] {
      var q :| q in qs && Valid(q) && PartOf(t, Target(q));
      assert PartOf(t - removed, Target(q));
    }
  }

  lemma StepKeepsTraced(qs: set<Request>, more: set<Request>, op: Operation, a: Layout, b: Layout)
    requires qs <= more && (op.Apply? ==> op.q in more)
    requires Traced(qs, a) && Takes(op, a, b)
    ensures Traced(more, b)
  {
    forall t | Holds(b, t) ensures t == map[] || RemnantOf(more, t) {
      TreesComeFrom(op, a, b, t);
      if Holds(a, t) {
        assert t == map[] || RemnantOf(qs, t);
      } else if op.end.Removing? {
        assert Holds(a, a.previous.value);
        SmallerIsRemnant(qs, a.previous.value, op.end.removed);
      } else {
        assert WholeOf(more, t);
        WholeIsRemnant(more, t);
      }
    }
  }

  lemma {:induction false} RunKeepsTraced(first: set<Request>, ops: seq<Operation>, layouts: seq<Layout>, i: nat)
    requires IsRun(ops, layouts) && i <= |ops| && AllWhole(first, layouts[0])
    ensures Traced(Requests(first, ops[..i]), layouts[i])
  {
    if i == 0 {
      forall t | Holds(layouts[0], t) && t != map[] ensures RemnantOf(first, t) {
        WholeIsRemnant(first, t);
      }
    } else {
      RunKeepsTraced(first, ops, layouts, i - 1);
      assert ops[..i][..i - 1] == ops[..i - 1];
      assert Takes(ops[i - 1], layouts[i - 1], layouts[i]);
      StepKeepsTraced(Requests(first, ops[..i - 1]), Requests(first, ops[..i]), ops[i - 1], layouts[i - 1], layouts[i]);
    }
  }

  /** `t` is the whole release of an ordinary request among these. */
  ghost predicate OrdinaryOf(qs: set<Request>, t: Tree) {
    exists q :: q in qs && Ordinary(q) && t == Target(q)
  }

  /** Over every run of applies and rollbacks, each ending anywhere, the digest test on a directory that can become
      active holds exactly of the whole releases; whatever an interrupted removal has left fails it. */
  lemma TestIsExact(first: set<Request>, ops: seq<Operation>, layouts: seq<Layout>, i: nat, t: Tree)
    requires IsRun(ops, layouts) && i <= |ops| && AllWhole(first, layouts[0]) && Holds(layouts[i], t)
    ensures Intact(t) <==> OrdinaryOf(Requests(first, ops[..i]), t)
  {
    var qs := Requests(first, ops[..i]);
    RunKeepsTraced(first, ops, layouts, i);
    if Intact(t) {
      assert RemnantOf(qs, t);
      var q :| q in qs && Valid(q) && PartOf(t, Target(q));
      PartPassesAsWhole(t, q);
    }
    if OrdinaryOf(qs, t) {
      var q :| q in qs && Ordinary(q) && t == Target(q);
      OrdinaryIsIntact(q);
    }
  }

  /** So a completed rollback makes a whole release active exactly when the previous tree passed the test before. */
  lemma RollbackTestIsExact(first: set<Request>, ops: seq<Operation>, layouts: seq<Layout>, i: nat)
    requires IsRun(ops, layouts) && i < |ops| && AllWhole(first, layouts[0])
    requires ops[i].Roll? && ops[i].to.Swapped?
    ensures layouts[i].previous.Some? && layouts[i + 1].stack.Some?
    ensures OrdinaryOf(Requests(first, ops[..i]), layouts[i + 1].stack.value) <==> Intact(layouts[i].previous.value)
  {
    assert Takes(ops[i], layouts[i], layouts[i + 1]);
    assert Holds(layouts[i], layouts[i].previous.value);
    TestIsExact(first, ops, layouts, i, layouts[i].previous.value);
  }

  /** Trees are torn by removals of a previous release that were cut short, and by nothing else. */
  lemma {:induction false} OnlyCutRemovalsTear(first: set<Request>, ops: seq<Operation>, layouts: seq<Layout>, i: nat)
    requires IsRun(ops, layouts) && i <= |ops| && AllWhole(first, layouts[0])
    requires forall j :: 0 <= j < i && ops[j].Apply? ==> !ops[j].end.Removing?
    ensures AllWhole(Requests(first, ops[..i]), layouts[i])
  {
    if i == 0 {
    } else {
      OnlyCutRemovalsTear(first, ops, layouts, i - 1);
      assert ops[..i][..i - 1] == ops[..i - 1];
      assert Takes(ops[i - 1], layouts[i - 1], layouts[i]);
      WholeAfterStep(Requests(first, ops[..i - 1]), Requests(first, ops[..i]), ops[i - 1], layouts[i - 1], layouts[i]);
    }
  }

  lemma WholeAfterStep(qs: set<Request>, more: set<Request>, op: Operation, a: Layout, b: Layout)
    requires qs <= more && (op.Apply? ==> op.q in more && !op.end.Removing?)
    requires AllWhole(qs, a) && Takes(op, a, b)
    ensures AllWhole(more, b)
  {
    forall t | Holds(b, t) ensures t == map[] || WholeOf(more, t) {
      TreesComeFrom(op, a, b, t);
      if Holds(a, t) {
        assert t == map[] || WholeOf(qs, t);
      }
    }
  }

  /** And each of those does: a release that has lost a file is no longer whole. */
  lemma CutRemovalTears(q: Request, l: Layout, removed: set<string>, lost: string)
    requires CanEnd(q, l, Removing(removed)) && Intact(l.previous.value)
    requires lost in removed && lost in l.previous.value
    ensures !Intact(ApplyAt(q, l, Removing(removed)).previous.value)
  {
    var part := l.previous.value - removed;
    assert PartOf(part, l.previous.value) && lost !in part;
    if Intact(part) {
      TornIsNotIntact(part, l.previous.value);
    }
  }

  // -------------------------------------------------------------------------
  // A whole release, always

  /** The active release, or the one an interrupted operation set aside. */
  function Main(l: Layout): Option<Tree> {
    if l.stack.Some? then l.stack else l.previous
  }

  ghost predicate Sound(qs: set<Request>, l: Layout) {
    Main(l).Some? && WholeOf(qs, Main(l).value)
  }

  /** A rollback is begun only on a previous tree that passes the test. */
  predicate Guarded(op: Operation, l: Layout) {
    op.Roll? && !op.to.Unmoved? && l.previous.Some? ==> Intact(l.previous.value)
  }

  /** Which tree is the main one after an operation on an enrolled host. */
  lemma MainComesFrom(op: Operation, a: Layout, b: Layout)
    requires Takes(op, a, b) && Main(a).Some? && Main(a).value != map[]
    ensures op.Apply? ==> Main(b) == Main(a) || (op.end.Activated? && Valid(op.q) && Main(b) == Some(Target(op.q)))
    ensures op.Roll? ==> Main(b) == Main(a) || (!op.to.Unmoved? && Main(b) == a.previous)
  {
  }

  lemma StepKeepsSound(qs: set<Request>, more: set<Request>, op: Operation, a: Layout, b: Layout)
    requires qs <= more && (op.Apply? ==> op.q in more)
    requires Sound(qs, a) && Takes(op, a, b)
    requires op.Roll? && !op.to.Unmoved? ==> a.previous.Some? && WholeOf(qs, a.previous.value)
    ensures Sound(more, b)
  {
    WholeIsMarked(qs, Main(a).value);
    MainComesFrom(op, a, b);
    assert forall t :: WholeOf(qs, t) ==> WholeOf(more, t);
    assert op.Apply? && Valid(op.q) ==> WholeOf(more, Target(op.q));
  }

  lemma WholeIsMarked(qs: set<Request>, t: Tree)
    requires WholeOf(qs, t)
    ensures MARKER in t && t != map[]
  {
    var q :| q in qs && Valid(q) && t == Target(q);
    TargetIsBuilt(q);
  }

  /** With that test, a whole release stays active or restorable over any run, wherever its operations end. */
  lemma {:induction false} WholeReleaseKept(first: set<Request>, ops: seq<Operation>, layouts: seq<Layout>, i: nat)
    requires IsRun(ops, layouts) && i <= |ops| && AllWhole(first, layouts[0]) && Sound(first, layouts[0])
    requires forall j :: 0 <= j < |ops| ==> Guarded(ops[j], layouts[j])
    ensures Sound(Requests(first, ops[..i]), layouts[i])
  {
    if i == 0 {
    } else {
      WholeReleaseKept(first, ops, layouts, i - 1);
      var qs, op, a := Requests(first, ops[..i - 1]), ops[i - 1], layouts[i - 1];
      assert ops[..i][..i - 1] == ops[..i - 1];
      assert Takes(op, a, layouts[i]);
      if op.Roll? && !op.to.Unmoved? {
        assert Holds(a, a.previous.value);
        TestIsExact(first, ops, layouts, i - 1, a.previous.value);
        var q :| q in qs && Ordinary(q) && a.previous.value == Target(q);
        assert WholeOf(qs, a.previous.value);
      }
      StepKeepsSound(qs, Requests(first, ops[..i]), op, a, layouts[i]);
    }
  }

  // -------------------------------------------------------------------------
  // Without it

  function Sample(id: string): Request {
    Request(id, map["f" := id], [BundleFile("f", id)], "", true, false)
  }

  lemma SampleTree(id: string)
    ensures Ordinary(Sample(id))
    ensures Target(Sample(id)) == map["f" := Plain(id), MARKER := Marker(Release(id, map["f" := id]))]
  {
    var q := Sample(id);
    TargetIsBuilt(q);
    assert q.files[..0] == [];
    assert Contents(q.files) == map["f" := id];
    assert "f"[0] != MARKER[0] && POLICY[0] == '.';
  }

  /** The operations make every run: each end is what the calls for it lead to. */
  method Replay(host: Host, ops: seq<Operation>, ghost layouts: seq<Layout>)
    requires IsRun(ops, layouts) && host.layout == layouts[0]
    modifies host
    ensures host.layout == layouts[|ops|]
  {
    var i := 0;
    while i < |ops|
      invariant 0 <= i <= |ops| && host.layout == layouts[i]
    {
      assert Takes(ops[i], layouts[i], layouts[i + 1]);
      match ops[i] {
        case Apply(q, end) =>
          EveryEndIsReached(q, host.layout, end, map[], Unmoved);
          var r := ApplyBundle(host, q, CallsFor(end));
        case Roll(expected, to) =>
          EveryEndIsReached(Sample("q"), host.layout, Untouched, expected, to);
          var r := RollbackBundle(host, expected, RollbackCallsFor(to));
      }
      i := i + 1;
    }
  }

  function Torn(id: string): Tree {
    map[MARKER := Marker(Release(id, map["f" := id]))]
  }

  lemma TornSample(id: string)
    ensures Target(Sample(id)) - {"f"} == Torn(id)
    ensures ReadRelease(Some(Target(Sample(id)))) == Some(Release(id, map["f" := id]))
    ensures ReadRelease(Some(Torn(id))) == Some(Release(id, map["f" := id]))
  {
    SampleTree(id);
    assert "f"[0] != MARKER[0];
  }

  /** From two whole releases: an apply cut while it removes the previous one, a rollback to what is left of it, and two
      more applies cut while they remove. */
  function FatalRun(): seq<Operation> {
    var q := Sample("q");
    [Apply(q, Removing({"f"})), Roll(map["f" := "a"], Swapped), Apply(q, Removing({"f"})), Apply(q, Clearing({"f"}))]
  }

  function FatalLayouts(): seq<Layout> {
    var a, p, q := Target(Sample("a")), Target(Sample("p")), Target(Sample("q"));
    [ Layout(Some(a), Some(p), None, None),
      Layout(Some(a), Some(Torn("p")), Some(q), None),
      Layout(Some(Torn("p")), Some(a), Some(q), None),
      Layout(Some(Torn("p")), Some(Torn("a")), Some(q), None),
      Layout(Some(Torn("p")), Some(Torn("a")), Some(Torn("q")), None) ]
  }

  lemma FatalStep(i: nat)
    requires i < 4
    ensures Takes(FatalRun()[i], FatalLayouts()[i], FatalLayouts()[i + 1])
  {
    TornSample("a");
    TornSample("p");
    TornSample("q");
    SampleTree("q");
    assert "a"[0] != "q"[0] && "p"[0] != "q"[0];
  }

  function FatalFirst(): set<Request> {
    {Sample("a"), Sample("p")}
  }

  lemma FatalIsRun()
    ensures IsRun(FatalRun(), FatalLayouts())
  {
    forall i, j | 0 <= i && j == i + 1 <= 4 ensures Takes(FatalRun()[i], FatalLayouts()[i], FatalLayouts()[j]) {
      FatalStep(i);
    }
  }

  lemma FatalBegins()
    ensures AllWhole(FatalFirst(), FatalLayouts()[0]) && Sound(FatalFirst(), FatalLayouts()[0])
  {
    SampleTree("a");
    SampleTree("p");
    assert WholeOf(FatalFirst(), Target(Sample("a"))) && WholeOf(FatalFirst(), Target(Sample("p")));
  }

  /** What has lost its only file is none of the sample releases. */
  lemma TornIsNotWhole(qs: set<Request>, id: string)
    requires forall q :: q in qs ==> q == Sample(q.bundleId)
    ensures !WholeOf(qs, Torn(id))
  {
    assert "f"[0] != MARKER[0];
    assert "f" !in Torn(id);
    forall q | q in qs ensures "f" in Target(q) {
      SampleTree(q.bundleId);
    }
  }

  /** The code makes no such test: it only looks for a marker, which what an interrupted removal leaves can still have.
      This run begins with two whole releases, and at its end no directory holds a whole one. */
  lemma UnguardedRollbackLosesEverything()
    ensures IsRun(FatalRun(), FatalLayouts())
    ensures AllWhole(FatalFirst(), FatalLayouts()[0]) && Sound(FatalFirst(), FatalLayouts()[0])
    ensures forall q :: q in Requests(FatalFirst(), FatalRun()) ==> Ordinary(q)
    ensures forall s :: Get(FatalLayouts()[4], s).Some? ==> !WholeOf(Requests(FatalFirst(), FatalRun()), Get(FatalLayouts()[4], s).value)
  {
    FatalIsRun();
    FatalBegins();
    FatalRequests(FatalFirst());
    SamplesOnly(Requests(FatalFirst(), FatalRun()));
    FatalEnds(Requests(FatalFirst(), FatalRun()));
  }

  lemma SamplesOnly(qs: set<Request>)
    requires qs == FatalFirst() + {Sample("q")}
    ensures forall q :: q in qs ==> Ordinary(q) && q == Sample(q.bundleId)
  {
    SampleTree("a");
    SampleTree("p");
    SampleTree("q");
  }

  lemma FatalEnds(qs: set<Request>)
    requires forall q :: q in qs ==> q == Sample(q.bundleId)
    ensures forall s :: Get(FatalLayouts()[4], s).Some? ==> !WholeOf(qs, Get(FatalLayouts()[4], s).value)
  {
    TornIsNotWhole(qs, "a");
    TornIsNotWhole(qs, "p");
    TornIsNotWhole(qs, "q");
  }

  lemma FatalRequests(first: set<Request>)
    ensures Requests(first, FatalRun()) == first + {Sample("q")}
  {
    var ops := FatalRun();
    assert ops[..3][..2] == ops[..2] && ops[..2][..1] == ops[..1] && ops[..1][..0] == [];
    assert Requests(first, ops[..1]) == first + {Sample("q")};
    assert Requests(first, ops[..2]) == Requests(first, ops[..1]);
    assert Requests(first, ops[..3]) == Requests(first, ops[..2]) + {Sample("q")};
  }

  /** The operations themselves, with these calls failing, lose every release. */
  method LoseEverything() returns (host: Host)
    ensures host.layout == FatalLayouts()[4]
  {
    FatalIsRun();
    host := new Host(Layout(Some(Target(Sample("a"))), Some(Target(Sample("p"))), None, None));
    Replay(host, FatalRun(), FatalLayouts());
  }
}
