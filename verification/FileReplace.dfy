/** Replacing one file through a staging name (`atomic_managed_file_change` in `docker_managed_file.rs`, and the
    `.images.env` commit in `docker_observation.rs`), with process death and power loss at every point. */
module FileReplace {
  import opened Common

  /** `synced` says the bytes themselves are on disk. */
  datatype File = File(bytes: Bytes, synced: bool)

  type Names = map<string, File>

  /** `now` is what processes see; `since` holds every earlier view that a directory sync has not yet ruled out. */
  datatype Disk = Disk(now: Names, since: seq<Names>)

  function Content(names: Names, n: string): Option<Bytes> {
    if n in names then Some(names[n].bytes) else None
  }

  function Seen(d: Disk, n: string): Option<Bytes> {
    Content(d.now, n)
  }

  /** One view's contribution to what a power loss can leave: an unsynced file may come back with any bytes. */
  ghost predicate LossFrom(names: Names, n: string, found: Option<Bytes>) {
    if n in names && !names[n].synced then found.Some? else found == Content(names, n)
  }

  /** `found` is what a reader may find under `n` after a power loss. */
  ghost predicate AfterPowerLoss(d: Disk, n: string, found: Option<Bytes>) {
    LossFrom(d.now, n, found) || exists v :: v in d.since && LossFrom(v, n, found)
  }

  /** Neither a process death nor a power loss can show anything but `value` under `n`. */
  ghost predicate Certain(d: Disk, n: string, value: Option<Bytes>) {
    Seen(d, n) == value && forall found :: AfterPowerLoss(d, n, found) ==> found == value
  }

  /** A death or power loss here shows the old or the new value, whole. */
  ghost predicate OldOrNew(d: Disk, n: string, before: Option<Bytes>, after: Option<Bytes>) {
    && (Seen(d, n) == before || Seen(d, n) == after)
    && forall found :: AfterPowerLoss(d, n, found) ==> found == before || found == after
  }

  function Change(d: Disk, names: Names): Disk {
    Disk(names, d.since + [d.now])
  }

  // -------------------------------------------------------------------------
  // Names

  const STAGING_EXTENSION := ".native-next"

  /** Position of the last dot, or the length when there is none. */
  function LastDot(name: string): (p: nat)
    ensures p <= |name|
    ensures p < |name| ==> name[p] == '.'
    ensures forall i :: p < i < |name| ==> name[i] != '.'
    ensures p == |name| ==> '.' !in name
  {
    if name == [] then 0
    else if name[|name| - 1] == '.' then |name| - 1
    else
      var p := LastDot(name[..|name| - 1]);
      if p == |name| - 1 then
        assert name == name[..|name| - 1] + [name[|name| - 1]];
        |name|
      else p
  }

  /** `Path::with_extension("native-next")` for a name that does not begin with a dot. */
  function Staging(name: string): string {
    name[..LastDot(name)] + STAGING_EXTENSION
  }

  /** The staging name is the target itself exactly for targets that already carry the staging extension. */
  lemma StagingIsTargetIff(name: string)
    ensures Staging(name) == name <==> EndsWith(name, STAGING_EXTENSION)
  {
    var p := LastDot(name);
    if EndsWith(name, STAGING_EXTENSION) {
      var q := |name| - |STAGING_EXTENSION|;
      var ext := STAGING_EXTENSION;
      assert name[q..] == ext;
      assert ext[0] == '.' && forall i :: 0 < i < |ext| ==> ext[i] != '.';
      assert name[q] == name[q..][0];
      forall i | q < i < |name| ensures name[i] != '.' {
        assert name[i] == name[q..][i - q];
      }
      assert p == q;
      assert name == name[..q] + name[q..];
    } else {
      assert Staging(name)[p..] == STAGING_EXTENSION;
    }
  }

  // -------------------------------------------------------------------------
  // The file system

  class Directory {
    var disk: Disk
    const reliable: bool
    /** Every disk in which the process could have died. */
    ghost var points: seq<Disk>

    constructor (disk: Disk, reliable: bool)
      ensures this.disk == disk && this.reliable == reliable && points == []
    {
      this.disk, this.reliable := disk, reliable;
      points := [];
    }

    /** `create_new`. */
    method CreateNew(n: string) returns (ok: bool)
      modifies this
      ensures disk == if ok then Change(old(disk), old(disk).now[n := File([], false)]) else old(disk)
      ensures ok ==> n !in old(disk).now
      ensures reliable && n !in old(disk).now ==> ok
      ensures points == old(points) + [disk]
    {
      ok := *;
      ok := (ok || reliable) && n !in disk.now;
      if ok {
        disk := Change(disk, disk.now[n := File([], false)]);
      }
      points := points + [disk];
    }

    /** Writes into an open file; a failure leaves any bytes there. */
    method WriteAll(n: string, bytes: Bytes) returns (ok: bool)
      requires n in disk.now
      modifies this
      ensures n in disk.now && disk == Change(old(disk), old(disk).now[n := File(disk.now[n].bytes, false)])
      ensures ok ==> disk == Change(old(disk), old(disk).now[n := File(bytes, false)])
      ensures points == old(points) + [disk]
      ensures reliable ==> ok
    {
      ok := *;
      ok := ok || reliable;
      var torn: Bytes := *;
      disk := Change(disk, disk.now[n := File(if ok then bytes else torn, false)]);
      points := points + [disk];
    }

    method SyncFile(n: string) returns (ok: bool)
      requires n in disk.now
      modifies this
      ensures disk == if ok then Change(old(disk), old(disk).now[n := old(disk).now[n].(synced := true)]) else old(disk)
      ensures points == old(points) + [disk]
      ensures reliable ==> ok
    {
      ok := *;
      ok := ok || reliable;
      if ok {
        disk := Change(disk, disk.now[n := disk.now[n].(synced := true)]);
      }
      points := points + [disk];
    }

    /** Atomic on a name that may exist. */
    method Rename(from: string, to: string) returns (ok: bool)
      modifies this
      ensures ok ==> from in old(disk).now
      ensures disk == if ok then Change(old(disk), Renamed(old(disk).now, from, to)) else old(disk)
      ensures reliable && from in old(disk).now ==> ok
      ensures points == old(points) + [disk]
    {
      ok := *;
      ok := (ok || reliable) && from in disk.now;
      if ok {
        disk := Change(disk, Renamed(disk.now, from, to));
      }
      points := points + [disk];
    }

    method Unlink(n: string) returns (ok: bool)
      modifies this
      ensures disk == if ok then Change(old(disk), old(disk).now - {n}) else old(disk)
      ensures ok ==> n in old(disk).now
      ensures reliable && n in old(disk).now ==> ok
      ensures points == old(points) + [disk]
    {
      ok := *;
      ok := (ok || reliable) && n in disk.now;
      if ok {
        disk := Change(disk, disk.now - {n});
      }
      points := points + [disk];
    }

    method SyncDirectory() returns (ok: bool)
      modifies this
      ensures disk == if ok then Disk(old(disk).now, []) else old(disk)
      ensures points == old(points) + [disk]
      ensures reliable ==> ok
    {
      ok := *;
      ok := ok || reliable;
      if ok {
        disk := Disk(disk.now, []);
      }
      points := points + [disk];
    }
  }

  function Renamed(names: Names, from: string, to: string): Names {
    if from in names && from != to then (names - {from})[to := names[from]] else names
  }

  // -------------------------------------------------------------------------
  // Managed files

  /** Every view so far shows the old value or the new one, synced. */
  ghost predicate ViewOk(v: Names, n: string, before: Option<Bytes>, after: Option<Bytes>) {
    (n in v ==> v[n].synced) && (Content(v, n) == before || Content(v, n) == after)
  }

  ghost predicate ViewsOk(d: Disk, n: string, before: Option<Bytes>, after: Option<Bytes>) {
    ViewOk(d.now, n, before, after) && forall v :: v in d.since ==> ViewOk(v, n, before, after)
  }

  lemma ViewsOkMeaning(d: Disk, n: string, before: Option<Bytes>, after: Option<Bytes>)
    requires ViewsOk(d, n, before, after)
    ensures OldOrNew(d, n, before, after)
  {
    forall found | AfterPowerLoss(d, n, found) ensures found == before || found == after {
      if !LossFrom(d.now, n, found) {
        var v :| v in d.since && LossFrom(v, n, found);
        assert ViewOk(v, n, before, after);
      }
    }
  }

  lemma CertainViews(d: Disk, n: string, value: Option<Bytes>)
    requires Certain(d, n, value)
    ensures ViewsOk(d, n, value, value)
  {
    CertainView(d, n, value, d.now);
    forall v | v in d.since ensures ViewOk(v, n, value, value) {
      CertainView(d, n, value, v);
    }
  }

  lemma CertainView(d: Disk, n: string, value: Option<Bytes>, v: Names)
    requires Certain(d, n, value) && (v == d.now || v in d.since)
    ensures ViewOk(v, n, value, value)
  {
    if n in v && !v[n].synced {
      assert LossFrom(v, n, Some([])) && AfterPowerLoss(d, n, Some([]));
      assert LossFrom(v, n, Some([0])) && AfterPowerLoss(d, n, Some([0]));
      assert false;
    } else {
      assert LossFrom(v, n, Content(v, n)) && AfterPowerLoss(d, n, Content(v, n));
    }
  }

  const MANAGED_LIMIT: nat := 65536

  /** The one combination in which the staging name is the target and nothing stands in the way. */
  predicate WritesInPlace(target: string, before: Option<Bytes>, after: Option<Bytes>) {
    EndsWith(target, STAGING_EXTENSION) && before.None? && after.Some?
  }

  predicate Readable(existing: Option<Bytes>) {
    existing.Some? ==> |existing.value| <= MANAGED_LIMIT
  }

  ghost predicate SameElsewhere(a: Names, b: Names, target: string) {
    forall n :: n != target ==> Content(b, n) == Content(a, n)
  }

  /** Inputs the change is meant for, with nothing left over from an earlier one. */
  predicate Applicable(d: Disk, target: string, before: Option<Bytes>, after: Option<Bytes>) {
    && Seen(d, target) == before
    && Readable(before)
    && (after.None? ==> before.Some?)
    && (after.Some? ==> 0 < |after.value| <= MANAGED_LIMIT && Staging(target) !in d.now)
  }

  lemma ApplicableIff(d: Disk, target: string, before: Option<Bytes>, after: Option<Bytes>)
    ensures Applicable(d, target, before, after) <==>
      && Content(d.now, target) == before && (before.Some? ==> |before.value| <= 65536)
      && (before.Some? || after.Some?)
      && (after.Some? ==> 0 < |after.value| <= 65536 && Staging(target) !in d.now)
  {
  }

  /** Creates, fills and syncs the staging file, then renames it over the target. */
  method StageAndRename(dir: Directory, target: string, before: Option<Bytes>, bytes: Bytes) returns (ok: bool)
    requires Seen(dir.disk, target) == before
    modifies dir
    ensures ViewsOk(old(dir.disk), target, before, before) && !WritesInPlace(target, before, Some(bytes)) ==>
              && ViewsOk(dir.disk, target, before, Some(bytes))
              && forall d :: d in dir.points ==> d in old(dir.points) || ViewsOk(d, target, before, Some(bytes))
    ensures Staging(target) in old(dir.disk).now ==> !ok && dir.disk == old(dir.disk)
    ensures ok ==> dir.disk.now == old(dir.disk).now[target := File(bytes, true)]
    ensures dir.reliable && Staging(target) !in old(dir.disk).now ==> ok
  {
    StagingIsTargetIff(target);
    var staged := FillStaging(dir, target, before, bytes);
    if !staged {
      return false;
    }
    ok := dir.Rename(Staging(target), target);
    assert ok ==> dir.disk.now == old(dir.disk).now[target := File(bytes, true)];
  }

  /** Creates, fills and syncs the staging file. */
  method FillStaging(dir: Directory, target: string, before: Option<Bytes>, bytes: Bytes) returns (ok: bool)
    requires Seen(dir.disk, target) == before
    modifies dir
    ensures ViewsOk(old(dir.disk), target, before, before) && Staging(target) != target ==>
              && ViewsOk(dir.disk, target, before, Some(bytes))
              && forall d :: d in dir.points ==> d in old(dir.points) || ViewsOk(d, target, before, Some(bytes))
    ensures Staging(target) in old(dir.disk).now ==> !ok && dir.disk == old(dir.disk)
    ensures Staging(target) in old(dir.disk).now ==> forall d :: d in dir.points ==> d in old(dir.points) || d == old(dir.disk)
    ensures ok ==> dir.disk.now == old(dir.disk).now[Staging(target) := File(bytes, true)]
    ensures dir.reliable && Staging(target) !in old(dir.disk).now ==> ok
  {
    var created := dir.CreateNew(Staging(target));
    if !created {
      return false;
    }
    var written := dir.WriteAll(Staging(target), bytes);
    if !written {
      return false;
    }
    ok := dir.SyncFile(Staging(target));
  }

  method DeleteTarget(dir: Directory, target: string, before: Option<Bytes>) returns (ok: bool)
    requires Seen(dir.disk, target) == before
    modifies dir
    ensures ViewsOk(old(dir.disk), target, before, before) ==>
              && ViewsOk(dir.disk, target, before, None)
              && forall d :: d in dir.points ==> d in old(dir.points) || ViewsOk(d, target, before, None)
    ensures ok ==> before.Some? && dir.disk.now == old(dir.disk).now - {target}
    ensures dir.reliable && before.Some? ==> ok
  {
    ok := dir.Unlink(target);
  }

  /** `atomic_managed_file_change`. */
  method AtomicManagedFileChange(dir: Directory, target: string, before: Option<Bytes>, after: Option<Bytes>)
    returns (r: Result<()>)
    modifies dir
    ensures Certain(old(dir.disk), target, before) && !WritesInPlace(target, before, after) ==>
              forall d :: d in dir.points ==> d in old(dir.points) || OldOrNew(d, target, before, after)
    ensures Seen(old(dir.disk), target) != before ==> r.Err? && dir.disk == old(dir.disk) && dir.points == old(dir.points)
    ensures after.Some? && Staging(target) in old(dir.disk).now ==> r.Err? && dir.disk == old(dir.disk)
    ensures r.Ok? ==> Applicable(old(dir.disk), target, before, after) && Certain(dir.disk, target, after)
    ensures r.Ok? ==> SameElsewhere(old(dir.disk).now, dir.disk.now, target)
    ensures dir.reliable && Applicable(old(dir.disk), target, before, after) ==> r.Ok?
  {
    ghost var atomic := Certain(dir.disk, target, before) && !WritesInPlace(target, before, after);
    if atomic {
      CertainViews(dir.disk, target, before);
    }
    var existing := Seen(dir.disk, target);
    if !Readable(existing) {
      return Err("HOST_VM_MANAGED_FILE_OWNER_UNTRUSTED");
    }
    if existing != before {
      return Err("HOST_VM_MANAGED_FILE_CAS_CHANGED_NO_REPLAY");
    }
    var replaced: bool;
    if after.None? {
      replaced := DeleteTarget(dir, target, before);
    } else {
      if |after.value| == 0 || |after.value| > MANAGED_LIMIT {
        return Err("HOST_VM_MANAGED_FILE_CONTENT_INVALID");
      }
      replaced := StageAndRename(dir, target, before, after.value);
    }
    if !replaced {
      return Err("HOST_VM_MANAGED_FILE_ACTIVATION_UNCERTAIN_NO_REPLAY");
    }
    var synced := dir.SyncDirectory();
    if !synced {
      return Err("HOST_VM_MANAGED_FILE_SYNC_UNCERTAIN_NO_REPLAY");
    }
    if Seen(dir.disk, target) != after {
      return Err("HOST_VM_MANAGED_FILE_POSTSTATE_UNPROVEN_NO_REPLAY");
    }
    r := Ok(());
  }

  /** The exclusion is exact: a file created under the staging extension is written in place, and a death right
      after its creation shows an empty file; under any other name nothing of the kind shows. */
  lemma InPlaceWriteIsTheOnlyException(d: Disk, target: string, bytes: Bytes)
    requires Certain(d, target, None) && 0 < |bytes|
    ensures var created := Change(d, d.now[Staging(target) := File([], false)]);
            OldOrNew(created, target, None, Some(bytes)) <==> !WritesInPlace(target, None, Some(bytes))
  {
    StagingIsTargetIff(target);
    var created := Change(d, d.now[Staging(target) := File([], false)]);
    if WritesInPlace(target, None, Some(bytes)) {
      assert Seen(created, target) == Some([]);
    } else {
      CertainViews(d, target, None);
      ViewsOkMeaning(created, target, None, Some(bytes));
    }
  }

  // -------------------------------------------------------------------------
  // The image pins file

  const IMAGES := ".images.env"
  const IMAGES_STAGING := ".images.env.next"

  /** The `.images.env` commit of `apply_gateway_image_replace_once`: no sync of the staged bytes. */
  method CommitImages(dir: Directory, bytes: Bytes) returns (r: Result<()>)
    modifies dir
    ensures forall d :: d in dir.points ==> d in old(dir.points) || Seen(d, IMAGES) == Seen(old(dir.disk), IMAGES) || Seen(d, IMAGES) == Some(bytes)
    ensures IMAGES_STAGING in old(dir.disk).now ==> r.Err? && dir.disk == old(dir.disk)
    ensures r.Ok? ==> dir.disk == Disk(old(dir.disk).now[IMAGES := File(bytes, false)], [])
    ensures dir.reliable && IMAGES_STAGING !in old(dir.disk).now ==> r.Ok?
  {
    assert IMAGES != IMAGES_STAGING by { assert |IMAGES| != |IMAGES_STAGING|; }
    if IMAGES_STAGING in dir.disk.now {
      return Err("HOST_VM_IMAGE_STAGING_EXISTS_NO_REPLAY");
    }
    var created := dir.CreateNew(IMAGES_STAGING);
    if !created {
      return Err("HOST_VM_IMAGE_STAGE_UNCERTAIN_NO_REPLAY");
    }
    var written := dir.WriteAll(IMAGES_STAGING, bytes);
    if !written {
      return Err("HOST_VM_IMAGE_STAGE_UNCERTAIN_NO_REPLAY");
    }
    var activated := dir.Rename(IMAGES_STAGING, IMAGES);
    if !activated {
      return Err("HOST_VM_IMAGE_ACTIVATE_UNCERTAIN_NO_REPLAY");
    }
    assert dir.disk.now == old(dir.disk).now[IMAGES := File(bytes, false)];
    var synced := dir.SyncDirectory();
    if !synced {
      return Err("HOST_VM_IMAGE_SYNC_UNCERTAIN_NO_REPLAY");
    }
    r := Ok(());
  }

  /** So a committed pins file, unlike a managed file, may come back with any bytes after a power loss. */
  lemma CommittedImagesCanTear(names: Names, bytes: Bytes, found: Bytes)
    ensures AfterPowerLoss(Disk(names[IMAGES := File(bytes, false)], []), IMAGES, Some(found))
    ensures !Certain(Disk(names[IMAGES := File(bytes, false)], []), IMAGES, Some(bytes))
  {
    var d := Disk(names[IMAGES := File(bytes, false)], []);
    assert AfterPowerLoss(d, IMAGES, Some(found));
    assert AfterPowerLoss(d, IMAGES, Some(bytes + [0]));
    assert Some(bytes + [0]) != Some(bytes);
  }
}
