/** Planning and applying a release that changes one managed file (`docker_managed_file.rs`). */
module ManagedFilePlan {
  import opened Common
  import opened FileReplace
  import ManagedObject

  /** One file of a release bundle; `pathValid` is the verdict of `validate_bundle_relative_path`. */
  datatype BundleFile = BundleFile(path: string, pathValid: bool, content: Bytes, sensitive: bool, executable: bool)

  /** `before` and `after` are the file's bytes, absent when there is no file. */
  datatype FileChange = FileChange(path: string, before: Option<Bytes>, after: Option<Bytes>)

  /** A repair changes no file. `kept` stands for the recorded digests, taken to be collision free. */
  datatype FilePlan = FilePlan(change: Option<FileChange>, kept: map<string, Bytes>)

  type Contents = map<string, Bytes>

  const POLICY_LIMIT: nat := 4 * 1024 * 1024
  const BUNDLE_LIMIT: nat := 128

  function At(m: Contents, n: string): Option<Bytes> {
    if n in m then Some(m[n]) else None
  }

  predicate Alphanumeric(c: char) {
    'a' <= c <= 'z' || 'A' <= c <= 'Z' || '0' <= c <= '9'
  }

  /** `managed_file_path`. */
  predicate ManagedPath(path: string) {
    && StartsWith(path, "managed/")
    && var name := path[8..];
       && 0 < |name| <= 64
       && Alphanumeric(name[0])
       && (forall i :: 0 <= i < |name| ==> Alphanumeric(name[i]) || name[i] == '.' || name[i] == '-' || name[i] == '_')
       && (forall i :: 0 <= i < |name| - 1 ==> !(name[i] == '.' && name[i + 1] == '.'))
       && name[|name| - 1] != '.'
  }

  /** A managed file lies directly in the managed directory, under a name that is neither hidden nor a way out. */
  lemma ManagedPathStays(path: string) returns (name: string)
    requires ManagedPath(path)
    ensures path == "managed/" + name && '/' !in name && '\\' !in name
    ensures name != "" && name[0] != '.' && |name| <= 64
    ensures forall i :: 0 <= i < |name| - 1 ==> !(name[i] == '.' && name[i + 1] == '.')
  {
    name := path[8..];
  }

  // -------------------------------------------------------------------------
  // What a plan may do

  /** The bundle as a map; the first file of a path counts. */
  function Desired(files: seq<BundleFile>): (m: map<string, BundleFile>)
    ensures forall n :: n in m ==> m[n].path == n && m[n] in files
    ensures forall f :: f in files ==> f.path in m
  {
    if files == [] then map[]
    else
      var rest := Desired(files[1..]);
      assert files == [files[0]] + files[1..];
      rest[files[0].path := files[0]]
  }

  function Release(files: seq<BundleFile>): (m: Contents)
    ensures m.Keys == Desired(files).Keys
    ensures forall n :: n in m ==> m[n] == Desired(files)[n].content
  {
    map n | n in Desired(files) :: Desired(files)[n].content
  }

  predicate DistinctPaths(files: seq<BundleFile>) {
    forall i, j :: 0 <= i < j < |files| ==> files[i].path != files[j].path
  }

  predicate WellFormed(files: seq<BundleFile>) {
    && 0 < |files| <= BUNDLE_LIMIT
    && (forall i :: 0 <= i < |files| ==> files[i].pathValid)
    && DistinctPaths(files)
  }

  predicate PayloadAllowed(f: BundleFile) {
    !f.sensitive && !f.executable && 0 < |f.content| <= MANAGED_LIMIT
  }

  /** The change at `n` is one the operation may make. */
  predicate ChangeAllowed(installed: Contents, desired: map<string, BundleFile>, n: string) {
    && ManagedPath(n)
    && (n in desired ==> PayloadAllowed(desired[n]))
    && (n in installed ==> |installed[n]| <= MANAGED_LIMIT)
  }

  /** A change may be made to a managed file only, to plain non-empty content of at most 64 KiB, from at most that. */
  lemma ChangeAllowedIff(installed: Contents, desired: map<string, BundleFile>, n: string)
    ensures ChangeAllowed(installed, desired, n) <==>
      && ManagedPath(n)
      && (n in desired ==> !desired[n].sensitive && !desired[n].executable && 0 < |desired[n].content| <= 65536)
      && (n in installed ==> |installed[n]| <= 65536)
  {
  }

  predicate Readables(installed: Contents) {
    forall n :: n in installed ==> 0 < |installed[n]| <= POLICY_LIMIT
  }

  predicate Differs(installed: Contents, desired: map<string, BundleFile>, n: string) {
    At(installed, n) != (if n in desired then Some(desired[n].content) else None)
  }

  /** The two sides differ nowhere, or at one name only, and there in an allowed way. */
  ghost predicate SingleChange(installed: Contents, desired: map<string, BundleFile>) {
    || (forall n :: !Differs(installed, desired, n))
    || (exists p :: Differs(installed, desired, p) && ChangeAllowed(installed, desired, p)
                    && forall n :: n != p ==> !Differs(installed, desired, n))
  }

  /** `m` with one file's bytes set or removed. */
  function WithChange(m: Contents, c: FileChange): Contents {
    if c.after.Some? then m[c.path := c.after.value] else m - {c.path}
  }

  /** A plan is exact: its one change turns what is installed into the release, and it recorded everything else. */
  ghost predicate ExactPlan(plan: FilePlan, installed: Contents, release: Contents) {
    match plan.change
    case None => installed == release && plan.kept == release
    case Some(c) =>
      && c.before == At(installed, c.path) && c.after == At(release, c.path) && c.before != c.after
      && WithChange(installed, c) == release
      && plan.kept == release - {c.path}
  }

  // -------------------------------------------------------------------------
  // The diff loop

  /** What the loop keeps once it has looked at the names in `seen`. */
  ghost predicate DiffInv(
    installed: Contents, desired: map<string, BundleFile>, seen: set<string>, changed: Option<FileChange>, kept: map<string, Bytes>
  ) {
    && (changed.None? ==> forall n :: n in seen ==> !Differs(installed, desired, n))
    && (changed.Some? ==>
          var c := changed.value;
          && c.path in seen
          && c.before == At(installed, c.path)
          && c.after == (if c.path in desired then Some(desired[c.path].content) else None)
          && c.before != c.after
          && ChangeAllowed(installed, desired, c.path)
          && forall n :: n in seen && n != c.path ==> !Differs(installed, desired, n))
    && (forall n :: n in kept <==> n in seen && n in installed && !Differs(installed, desired, n))
    && (forall n :: n in kept ==> kept[n] == installed[n])
  }

  /** The loop over all installed and desired names, in any order. */
  method DiffNames(installed: Contents, desired: map<string, BundleFile>) returns (ok: bool, plan: FilePlan)
    ensures ok ==> DiffInv(installed, desired, installed.Keys + desired.Keys, plan.change, plan.kept)
    ensures !ok ==> !SingleChange(installed, desired)
  {
    ghost var all := installed.Keys + desired.Keys;
    var left := installed.Keys + desired.Keys;
    var changed: Option<FileChange>, kept: map<string, Bytes> := None, map[];
    while left != {}
      invariant left <= all
      invariant DiffInv(installed, desired, all - left, changed, kept)
      decreases left
    {
      var name :| name in left;
      assert all - (left - {name}) == (all - left) + {name};
      if !Differs(installed, desired, name) {
        VisitEqual(installed, desired, all - left, changed, kept, name);
        if name in installed {
          kept := kept[name := installed[name]];
        }
      } else {
        if changed.Some? || !ChangeAllowed(installed, desired, name) {
          TwoOrForbidden(installed, desired, changed, name);
          return false, FilePlan(None, map[]);
        }
        VisitChange(installed, desired, all - left, kept, name);
        changed := Some(FileChange(name, At(installed, name), if name in desired then Some(desired[name].content) else None));
      }
      left := left - {name};
    }
    assert all - {} == all;
    ok, plan := true, FilePlan(changed, kept);
  }

  // -------------------------------------------------------------------------
  // The one lost object of a repair

  /** What the readback of a declared route, firewall table or DNS link says. */
  datatype RowState = Converged | KnownMissing | Unknown

  /** `manifest` is the installed manifest the row is about, if it is there and unchanged. */
  datatype NetworkRow = NetworkRow(path: string, state: RowState, manifest: Option<Bytes>)

  /** Row `i` is the only one that is not converged, and it is known to be missing. */
  ghost predicate OnlyLost(rows: seq<NetworkRow>, i: nat) {
    && i < |rows| && rows[i].state.KnownMissing? && rows[i].manifest.Some?
    && forall j :: 0 <= j < |rows| && j != i ==> rows[j].state.Converged?
  }

  /** `select_exact_missing_managed_network`, over routes, firewall tables and DNS links in turn. */
  method SelectLost(dockerConverged: bool, rows: seq<NetworkRow>) returns (r: Result<(string, Bytes)>, ghost at: nat)
    ensures r.Ok? ==> dockerConverged && OnlyLost(rows, at) && r.value == (rows[at].path, rows[at].manifest.value)
    ensures r.Err? ==> !dockerConverged || forall i: nat :: !OnlyLost(rows, i)
  {
    at := 0;
    if !dockerConverged {
      return Err("HOST_VM_MANAGED_REPAIR_DOCKER_NOT_CONVERGED"), at;
    }
    var missing: seq<(string, Bytes)> := [];
    var i := 0;
    while i < |rows|
      invariant 0 <= i <= |rows|
      invariant forall j :: 0 <= j < i ==> !rows[j].state.Unknown? && (rows[j].state.KnownMissing? ==> rows[j].manifest.Some?)
      invariant missing == [] ==> forall j :: 0 <= j < i ==> rows[j].state.Converged?
      invariant |missing| == 1 ==> OnlyLost(rows[..i], at) && missing[0] == (rows[at].path, rows[at].manifest.value)
      invariant |missing| > 1 ==> exists j, k :: 0 <= j < k < i && rows[j].state.KnownMissing? && rows[k].state.KnownMissing?
    {
      if !rows[i].state.Converged? {
        if rows[i].state.Unknown? {
          return Err("HOST_VM_MANAGED_REPAIR_UNKNOWN_OR_FOREIGN_NO_REPLAY"), at;
        }
        if rows[i].manifest.None? {
          return Err("HOST_VM_MANAGED_REPAIR_MANIFEST_MISSING"), at;
        }
        if missing == [] {
          at := i;
        }
        missing := missing + [(rows[i].path, rows[i].manifest.value)];
      }
      i := i + 1;
    }
    assert rows[..i] == rows;
    if |missing| != 1 {
      return Err("HOST_VM_MANAGED_REPAIR_NOT_EXACTLY_ONE_KNOWN_MISSING"), at;
    }
    r := Ok(missing[0]);
  }

  /** A bundle that changes nothing is for exactly one lost object, whose manifest it carries unchanged. */
  ghost predicate RepairsOne(installed: Contents, release: Contents, dockerConverged: bool, rows: seq<NetworkRow>) {
    dockerConverged && exists i: nat :: OnlyLost(rows, i) && At(release, rows[i].path) == rows[i].manifest && rows[i].path in installed
  }

  /** The planning part of `preflight_native_vm_managed_file`.  `current` is the installed release's digest. */
  method PlanManagedFile(
    installed: Contents, files: seq<BundleFile>, current: Option<string>, digest: string, dockerConverged: bool, rows: seq<NetworkRow>
  )
    returns (r: Result<FilePlan>)
    ensures r.Ok? ==> ExactPlan(r.value, installed, Release(files))
    ensures r.Ok? && r.value.change.Some? ==> ManagedPath(r.value.change.value.path)
    ensures r.Ok? <==>
      && current.Some? && current.value != digest
      && 0 < |files| <= 128 && (forall i :: 0 <= i < |files| ==> files[i].pathValid)
      && (forall i, j :: 0 <= i < j < |files| ==> files[i].path != files[j].path)
      && (forall n :: n in installed ==> 0 < |installed[n]| <= 4194304)
      && SingleChange(installed, Desired(files))
      && (installed == Release(files) ==> RepairsOne(installed, Release(files), dockerConverged, rows))
  {
    if current.None? {
      return Err("HOST_VM_MANAGED_FILE_INSTALLED_RELEASE_MISSING");
    }
    if current.value == digest {
      return Err("HOST_VM_MANAGED_FILE_RELEASE_UNCHANGED");
    }
    if !WellFormed(files) {
      return Err("HOST_VM_MANAGED_FILE_MANIFEST_INVALID");
    }
    if !Readables(installed) {
      return Err("HOST_NATIVE_VM_POLICY_FILE_UNTRUSTED");
    }
    var ok, plan := DiffNames(installed, Desired(files));
    if !ok {
      return Err("HOST_VM_MANAGED_FILE_MULTI_OR_FOREIGN_CHANGE");
    }
    DiffComplete(installed, files, plan.change, plan.kept);
    ChangeDiffers(plan, installed, Release(files));
    if plan.change.None? {
      var repair := AdmitRepair(installed, Release(files), dockerConverged, rows);
      if repair.Err? {
        return Err(repair.code);
      }
    }
    r := Ok(plan);
  }

  method AdmitRepair(installed: Contents, release: Contents, dockerConverged: bool, rows: seq<NetworkRow>) returns (r: Result<()>)
    ensures r.Ok? <==> RepairsOne(installed, release, dockerConverged, rows)
  {
    var lost, at := SelectLost(dockerConverged, rows);
    if lost.Err? {
      return Err(lost.code);
    }
    OneLostRow(rows, at);
    if At(release, lost.value.0) != Some(lost.value.1) || lost.value.0 !in installed {
      return Err("HOST_VM_MANAGED_REPAIR_DESIRED_MISMATCH");
    }
    r := Ok(());
  }

  lemma ChangeDiffers(plan: FilePlan, installed: Contents, release: Contents)
    requires ExactPlan(plan, installed, release)
    ensures plan.change.None? <==> installed == release
  {
  }

  lemma OneLostRow(rows: seq<NetworkRow>, at: nat)
    requires OnlyLost(rows, at)
    ensures forall i: nat :: OnlyLost(rows, i) ==> i == at
  {
  }

  lemma VisitEqual(
    installed: Contents, desired: map<string, BundleFile>, seen: set<string>, changed: Option<FileChange>, kept: map<string, Bytes>, name: string
  )
    requires DiffInv(installed, desired, seen, changed, kept) && name !in seen && !Differs(installed, desired, name)
    ensures DiffInv(installed, desired, seen + {name}, changed, if name in installed then kept[name := installed[name]] else kept)
  {
  }

  lemma VisitChange(installed: Contents, desired: map<string, BundleFile>, seen: set<string>, kept: map<string, Bytes>, name: string)
    requires DiffInv(installed, desired, seen, None, kept) && name !in seen
    requires Differs(installed, desired, name) && ChangeAllowed(installed, desired, name)
    ensures DiffInv(installed, desired, seen + {name},
              Some(FileChange(name, At(installed, name), if name in desired then Some(desired[name].content) else None)), kept)
  {
  }

  lemma TwoOrForbidden(installed: Contents, desired: map<string, BundleFile>, changed: Option<FileChange>, name: string)
    requires Differs(installed, desired, name)
    requires changed.Some? ==> changed.value.path != name && Differs(installed, desired, changed.value.path)
    requires changed.Some? || !ChangeAllowed(installed, desired, name)
    ensures !SingleChange(installed, desired)
  {
  }

  lemma DiffComplete(installed: Contents, files: seq<BundleFile>, changed: Option<FileChange>, kept: map<string, Bytes>)
    requires DiffInv(installed, Desired(files), installed.Keys + Desired(files).Keys, changed, kept)
    ensures ExactPlan(FilePlan(changed, kept), installed, Release(files))
    ensures SingleChange(installed, Desired(files))
  {
    var desired, release := Desired(files), Release(files);
    AgreeElsewhere(installed, desired, changed, kept);
    if changed.None? {
      SameMap(installed, release, desired);
      KeptIsRelease(installed, release, desired, kept, None);
      assert release - {} == release;
    } else {
      SameButOne(installed, release, desired, changed.value);
      KeptIsRelease(installed, release, desired, kept, Some(changed.value.path));
    }
  }

  lemma AgreeElsewhere(installed: Contents, desired: map<string, BundleFile>, changed: Option<FileChange>, kept: map<string, Bytes>)
    requires DiffInv(installed, desired, installed.Keys + desired.Keys, changed, kept)
    ensures changed.None? ==> forall n :: !Differs(installed, desired, n)
    ensures changed.Some? ==> Differs(installed, desired, changed.value.path)
    ensures changed.Some? ==> forall n :: n != changed.value.path ==> !Differs(installed, desired, n)
  {
    forall n | Differs(installed, desired, n) ensures n in installed.Keys + desired.Keys {
    }
  }

  lemma KeptIsRelease(installed: Contents, release: Contents, desired: map<string, BundleFile>, kept: map<string, Bytes>, but: Option<string>)
    requires release.Keys == desired.Keys && forall n :: n in release ==> release[n] == desired[n].content
    requires forall n :: Differs(installed, desired, n) <==> but == Some(n)
    requires forall n :: n in kept <==> (n in installed || n in desired) && n in installed && !Differs(installed, desired, n)
    requires forall n :: n in kept ==> kept[n] == installed[n]
    ensures kept == release - (if but.Some? then {but.value} else {})
  {
    var rest := release - (if but.Some? then {but.value} else {});
    forall n ensures n in kept <==> n in rest {
      assert Differs(installed, desired, n) <==> but == Some(n);
    }
    forall n | n in kept ensures kept[n] == rest[n] {
      assert !Differs(installed, desired, n);
    }
  }

  lemma SameMap(installed: Contents, release: Contents, desired: map<string, BundleFile>)
    requires release.Keys == desired.Keys && forall n :: n in release ==> release[n] == desired[n].content
    requires forall n :: !Differs(installed, desired, n)
    ensures installed == release
  {
    forall n ensures n in installed <==> n in release {
      assert !Differs(installed, desired, n);
    }
    forall n | n in installed ensures installed[n] == release[n] {
      assert !Differs(installed, desired, n);
    }
  }

  lemma SameButOne(installed: Contents, release: Contents, desired: map<string, BundleFile>, c: FileChange)
    requires release.Keys == desired.Keys && forall n :: n in release ==> release[n] == desired[n].content
    requires c.after == (if c.path in desired then Some(desired[c.path].content) else None)
    requires forall n :: n != c.path ==> !Differs(installed, desired, n)
    ensures WithChange(installed, c) == release
  {
    var m := WithChange(installed, c);
    forall n ensures n in m <==> n in release {
      assert n != c.path ==> !Differs(installed, desired, n);
    }
    forall n | n in m ensures m[n] == release[n] {
      assert n != c.path ==> !Differs(installed, desired, n);
    }
  }

  // -------------------------------------------------------------------------
  // Applying the plan

  function Visible(names: Names): Contents {
    map n | n in names :: names[n].bytes
  }

  /** The release marker file.  It is written in place: a write that fails at its opening leaves the old one, one cut
      short leaves none that can be read. */
  class MarkerFile {
    var release: Option<string>
    const reliable: bool
    /** What was installed each time the marker was written. */
    ghost var touchedOn: seq<Contents>

    constructor (release: Option<string>, reliable: bool)
      ensures this.release == release && this.reliable == reliable && touchedOn == []
    {
      this.release, this.reliable := release, reliable;
      touchedOn := [];
    }

    method Write(release: string, ghost installed: Contents) returns (ok: bool)
      modifies this
      ensures touchedOn == old(touchedOn) + [installed]
      ensures ok ==> this.release == Some(release)
      ensures !ok ==> this.release == old(this.release) || this.release == None
      ensures reliable ==> ok
    {
      touchedOn := touchedOn + [installed];
      var openable: bool := *;
      if !openable && !reliable {
        return false;
      }
      ok := *;
      ok := ok || reliable;
      this.release := if ok then Some(release) else None;
    }
  }

  /** Nothing is installed that the plan did not look at. */
  ghost predicate NoStranger(plan: FilePlan, installed: Contents) {
    forall n :: n in installed ==> n in plan.kept || (plan.change.Some? && n == plan.change.value.path)
  }

  predicate NeighboursHold(plan: FilePlan, names: Names) {
    forall n :: n in plan.kept ==> Content(names, n) == Some(plan.kept[n])
  }

  predicate ChangeApplicable(plan: FilePlan, d: Disk) {
    plan.change.Some? ==> Applicable(d, plan.change.value.path, plan.change.value.before, plan.change.value.after)
  }

  /** A route, firewall or DNS call, or a read of the graph.  It touches no static file and no Docker object. */
  method OtherEffect(reliable: bool) returns (ok: bool)
    ensures reliable ==> ok
  {
    ok := *;
    ok := ok || reliable;
  }

  /** How far an apply has come: which of object, file and marker it may have moved. */
  datatype Progress = Checking | AtObject | AtFile | AtMarker

  /** The object is where its manifest wants it, by the separate readback. */
  ghost predicate ObjectDone(docker: Option<ManagedObject.Prepared>, o: ManagedObject.Objects) {
    docker.Some? ==>
      && (docker.value.next.Some? ==> ManagedObject.ReadbackConverged(o, docker.value.next.value))
      && (!ManagedObject.Wanted(docker.value.next) && ManagedObject.Planned(docker.value) ==>
            ManagedObject.KeyOf(ManagedObject.Subject(docker.value)) !in o)
  }

  /** The object has stayed within its own effect. */
  ghost predicate ObjectWithin(docker: Option<ManagedObject.Prepared>, before: ManagedObject.Objects, o: ManagedObject.Objects) {
    if docker.None? then o == before else ManagedObject.Planned(docker.value) && ManagedObject.Within(docker.value, before, o)
  }

  predicate ObjectReady(docker: Option<ManagedObject.Prepared>, o: ManagedObject.Objects) {
    docker.Some? ==> ManagedObject.Planned(docker.value) && ManagedObject.CasHolds(o, docker.value)
  }

  /** The file has its new bytes, and no other file has changed. */
  ghost predicate FileDone(plan: FilePlan, before: Names, now: Names) {
    match plan.change
    case None => now == before
    case Some(c) => Content(now, c.path) == c.after && SameElsewhere(before, now, c.path)
  }

  /** The Docker part: the object's own compare-and-swap and effect. */
  method ApplyObject(engine: ManagedObject.Engine, docker: Option<ManagedObject.Prepared>) returns (r: Result<()>)
    requires engine.Valid() && (docker.Some? ==> ManagedObject.Planned(docker.value))
    modifies engine
    ensures engine.Valid() && ObjectWithin(docker, old(engine.objects), engine.objects)
    ensures r.Ok? ==> ObjectDone(docker, engine.objects)
    ensures engine.reliable && ObjectReady(docker, old(engine.objects)) ==> r.Ok?
  {
    if docker.None? {
      return Ok(());
    }
    r := ManagedObject.ApplyManagedObject(engine, docker.value);
  }

  /** The checks before any effect. */
  predicate Unmoved(plan: FilePlan, d: Disk) {
    && NeighboursHold(plan, d.now)
    && (plan.change.Some? ==> Seen(d, plan.change.value.path) == plan.change.value.before)
  }

  /** The change is one that never shows part of a file. */
  ghost predicate SafeChange(plan: FilePlan, d: Disk) {
    plan.change.Some? ==>
      && Certain(d, plan.change.value.path, plan.change.value.before)
      && !WritesInPlace(plan.change.value.path, plan.change.value.before, plan.change.value.after)
  }

  ghost predicate ShowsOldOrNew(plan: FilePlan, d: Disk) {
    plan.change.Some? ==> OldOrNew(d, plan.change.value.path, plan.change.value.before, plan.change.value.after)
  }

  predicate AllReliable(dir: Directory, marker: MarkerFile, engine: ManagedObject.Engine) {
    dir.reliable && marker.reliable && engine.reliable
  }

  /** Object, file and neighbours are still as planned. */
  predicate Ready(plan: FilePlan, docker: Option<ManagedObject.Prepared>, installed: Contents, d: Disk, o: ManagedObject.Objects) {
    ObjectReady(docker, o) && Visible(d.now) == installed && ChangeApplicable(plan, d)
  }

  /** `apply_native_vm_managed_file_once`: checks, then the object, then the file, then the marker. */
  method ApplyManagedFile(
    dir: Directory, marker: MarkerFile, engine: ManagedObject.Engine, plan: FilePlan, docker: Option<ManagedObject.Prepared>,
    newRelease: string, ghost installed: Contents, ghost release: Contents
  )
    returns (r: Result<()>, ghost reached: Progress)
    requires ExactPlan(plan, installed, release)
    requires engine.Valid() && (docker.Some? ==> ManagedObject.Planned(docker.value))
    modifies dir, marker, engine
    ensures engine.Valid() && ObjectWithin(docker, old(engine.objects), engine.objects)
    ensures reached.Checking? ==> r.Err? && engine.objects == old(engine.objects)
    ensures !Unmoved(plan, old(dir.disk)) ==> reached.Checking?
    ensures (exists n :: n in plan.kept && Content(old(dir.disk).now, n) != Some(plan.kept[n])) ==> reached.Checking?
    ensures plan.change.Some? && Content(old(dir.disk).now, plan.change.value.path) != plan.change.value.before ==> reached.Checking?
    ensures reached.Checking? || reached.AtObject? ==> r.Err? && dir.disk == old(dir.disk) && dir.points == old(dir.points)
    ensures !reached.AtMarker? ==> r.Err? && marker.release == old(marker.release) && marker.touchedOn == old(marker.touchedOn)
    ensures reached.AtFile? || reached.AtMarker? ==> ObjectDone(docker, engine.objects)
    ensures reached.AtMarker? ==>
      && FileDone(plan, old(dir.disk).now, dir.disk.now)
      && marker.touchedOn == old(marker.touchedOn) + [Visible(dir.disk.now)]
      && (Visible(dir.disk.now) == release <==> NoStranger(plan, Visible(old(dir.disk).now)))
    ensures r.Ok? ==> reached.AtMarker? && marker.release == Some(newRelease)
    ensures r.Err? ==> marker.release == old(marker.release) || marker.release == None
    ensures SafeChange(plan, old(dir.disk)) ==> forall d :: d in dir.points ==> d in old(dir.points) || ShowsOldOrNew(plan, d)
    ensures AllReliable(dir, marker, engine) && Ready(plan, docker, installed, old(dir.disk), old(engine.objects)) ==> r.Ok?
  {
    reached := Checking;
    var graph := OtherEffect(dir.reliable);
    if !graph {
      return Err("HOST_VM_MANAGED_GRAPH_CHANGED_NO_REPLAY"), reached;
    }
    if !Unmoved(plan, dir.disk) {
      return Err("HOST_VM_MANAGED_CAS_CHANGED_NO_REPLAY"), reached;
    }
    reached := AtObject;
    r := ApplyObject(engine, docker);
    if r.Err? {
      return r, reached;
    }
    var effect := OtherEffect(dir.reliable);
    if !effect {
      return Err("HOST_VM_MANAGED_EFFECT_UNCERTAIN_NO_REPLAY"), reached;
    }
    ghost var marked;
    r, marked := ChangeAndMark(dir, marker, plan, newRelease, installed, release);
    reached := if marked then AtMarker else AtFile;
  }

  /** The file, then the marker. */
  method ChangeAndMark(
    dir: Directory, marker: MarkerFile, plan: FilePlan, newRelease: string, ghost installed: Contents, ghost release: Contents
  )
    returns (r: Result<()>, ghost marked: bool)
    requires ExactPlan(plan, installed, release) && Unmoved(plan, dir.disk)
    modifies dir, marker
    ensures !marked ==> r.Err? && marker.release == old(marker.release) && marker.touchedOn == old(marker.touchedOn)
    ensures marked ==>
      && FileDone(plan, old(dir.disk).now, dir.disk.now)
      && marker.touchedOn == old(marker.touchedOn) + [Visible(dir.disk.now)]
      && (Visible(dir.disk.now) == release <==> NoStranger(plan, Visible(old(dir.disk).now)))
    ensures r.Ok? ==> marker.release == Some(newRelease)
    ensures r.Err? ==> marker.release == old(marker.release) || marker.release == None
    ensures SafeChange(plan, old(dir.disk)) ==> forall d :: d in dir.points ==> d in old(dir.points) || ShowsOldOrNew(plan, d)
    ensures dir.reliable && marker.reliable && ChangeApplicable(plan, old(dir.disk)) ==> r.Ok?
  {
    marked := false;
    if plan.change.Some? {
      var c := plan.change.value;
      r := AtomicManagedFileChange(dir, c.path, c.before, c.after);
      if r.Err? {
        return r, marked;
      }
    }
    var poststate := OtherEffect(dir.reliable);
    if !poststate {
      return Err("HOST_VM_MANAGED_GRAPH_POSTSTATE_UNPROVEN_NO_REPLAY"), marked;
    }
    marked := true;
    ChangeWritten(plan, old(dir.disk), dir.disk);
    InstalledAfter(plan, installed, release, old(dir.disk).now, dir.disk.now);
    var written := marker.Write(newRelease, Visible(dir.disk.now));
    if !written {
      return Err("HOST_VM_MANAGED_RELEASE_UNCERTAIN_NO_REPLAY"), marked;
    }
    r := Ok(());
  }

  lemma ChangeWritten(plan: FilePlan, before: Disk, now: Disk)
    requires plan.change.None? ==> now == before
    requires plan.change.Some? ==>
      Certain(now, plan.change.value.path, plan.change.value.after) && SameElsewhere(before.now, now.now, plan.change.value.path)
    ensures FileDone(plan, before.now, now.now)
  {
    if plan.change.Some? {
      CertainView(now, plan.change.value.path, plan.change.value.after, now.now);
    }
  }

  /** With the neighbours and the target as checked, the release is installed exactly when nothing else is there. */
  lemma InstalledAfter(plan: FilePlan, installed: Contents, release: Contents, before: Names, now: Names)
    requires ExactPlan(plan, installed, release)
    requires NeighboursHold(plan, before)
    requires FileDone(plan, before, now)
    ensures Visible(now) == release <==> NoStranger(plan, Visible(before))
  {
    var m := Visible(now);
    if NoStranger(plan, Visible(before)) {
      forall n ensures n in m <==> n in release {
        assert Content(now, n).Some? <==> n in m;
        assert Content(before, n).Some? <==> n in Visible(before);
      }
      forall n | n in m ensures m[n] == release[n] {
        assert Content(now, n) == Some(m[n]);
      }
    } else {
      var n :| n in Visible(before) && !(n in plan.kept || (plan.change.Some? && n == plan.change.value.path));
      assert Content(now, n) == Content(before, n);
      assert n in m && n !in release;
    }
  }
}
