/** Paired gateway/WARP image replacement (`docker_observation.rs`, `docker_native_gateway.rs`): containers first,
    then the image pins, then the release marker.  Every engine call may fail with or without its effect. */
module ImageReplace {
  import opened Common

  datatype Service = Line1 | Line2 | Warp

  datatype Repository = GatewayRepository | WarpRepository | OtherRepository

  /** A digest-pinned image reference. */
  datatype Image = Image(repository: Repository, digest: string)

  datatype Live = Live(id: nat, running: bool, image: Image)

  /** The two pins an image release may change; the Mesh pin is fixed by the policy check. */
  datatype Pins = Pins(gateway: Image, warp: Image)

  datatype Release = Release(digest: string, pins: Pins)

  /** `staging` says that `.images.env.next` exists; `marker` is absent when it cannot be read back. */
  datatype World = World(
    line1: Option<Live>, line2: Option<Live>, warp: Option<Live>, pins: Pins, staging: bool, marker: Option<string>
  )

  function Find(w: World, s: Service): Option<Live> {
    match s
    case Line1 => w.line1
    case Line2 => w.line2
    case Warp => w.warp
  }

  function Set(w: World, s: Service, x: Option<Live>): World {
    match s
    case Line1 => w.(line1 := x)
    case Line2 => w.(line2 := x)
    case Warp => w.(warp := x)
  }

  function TargetOf(pins: Pins, s: Service): Image {
    if s.Warp? then pins.warp else pins.gateway
  }

  predicate AllPresent(w: World) {
    w.line1.Some? && w.line2.Some? && w.warp.Some?
  }

  predicate OffTarget(w: World, pins: Pins, s: Service) {
    Find(w, s).Some? && Find(w, s).value.image != TargetOf(pins, s)
  }

  /** Which services are recreated, in order: WARP, on which both gateways depend, comes first. */
  function Todo(w: World, pins: Pins): (r: seq<Service>)
    ensures forall s :: s in r <==> OffTarget(w, pins, s)
    ensures forall i, j :: 0 <= i < j < |r| ==> r[i] != r[j]
  {
    (if OffTarget(w, pins, Warp) then [Warp] else [])
    + (if OffTarget(w, pins, Line2) then [Line2] else [])
    + (if OffTarget(w, pins, Line1) then [Line1] else [])
  }

  // -------------------------------------------------------------------------
  // Planning

  /** `valid_gateway_image_replace_prestate`. */
  predicate ValidPrestate(w: World, targetWarp: Image) {
    && AllPresent(w)
    && w.line1.value.running
    && w.line2.value.running
    && (w.warp.value.running || w.warp.value.image != targetWarp)
  }

  /** `owned_runtime_image_drift`. */
  predicate Drift(w: World, pins: Pins) {
    exists s :: OffTarget(w, pins, s)
  }

  predicate RepositoriesHold(w: World) {
    forall s :: Find(w, s).Some? ==>
      Find(w, s).value.image.repository == if s.Warp? then WarpRepository else GatewayRepository
  }

  predicate PinsValid(pins: Pins) {
    pins.gateway.repository.GatewayRepository? && pins.warp.repository.WarpRepository?
  }

  datatype Plan = Plan(release: Release, before: World)

  /** The image branch of `preflight_native_vm_replace` with `preflight_gateway_image_replace`.  `otherFilesMatch`
      is the comparison of all static files but the pins. */
  function Preflight(w: World, release: Release, otherFilesMatch: bool): Result<Plan> {
    if !PinsValid(release.pins) then Err("HOST_VM_RELEASE_IMAGE_KEYS_INVALID")
    else if w.pins != release.pins && w.pins.gateway == release.pins.gateway then Err("HOST_VM_RECONCILE_EFFECTOR_NOT_IMPLEMENTED")
    else if w.pins == release.pins && !ValidPrestate(w, release.pins.warp) then Err("HOST_VM_IMAGE_RUNTIME_INCOMPLETE_NO_REPLAY")
    else if w.pins == release.pins && !Drift(w, release.pins) then Err("MANAGED_FILE_PLANNING")
    else if w.marker.None? then Err("HOST_VM_IMAGE_PREVIOUS_RELEASE_UNPROVEN")
    else if w.marker.value == release.digest then Err("HOST_VM_IMAGE_RELEASE_ALREADY_INSTALLED")
    else if !otherFilesMatch || w.staging then Err("HOST_VM_STATIC_BUNDLE_MANIFEST_DRIFT")
    else if !ValidPrestate(w, release.pins.warp) then Err("HOST_VM_IMAGE_ALL_REGISTERED_MUST_RUN")
    else if !RepositoriesHold(w) then Err("RUNNING_IMAGE")
    else Ok(Plan(release, w))
  }

  /** When an image release can be planned. */
  lemma PlannableIff(w: World, release: Release, otherFilesMatch: bool)
    ensures Preflight(w, release, otherFilesMatch).Ok? <==>
      && release.pins.gateway.repository == GatewayRepository && release.pins.warp.repository == WarpRepository
      && (w.pins == release.pins || w.pins.gateway != release.pins.gateway)
      && w.line1.Some? && w.line1.value.running && w.line1.value.image.repository == GatewayRepository
      && w.line2.Some? && w.line2.value.running && w.line2.value.image.repository == GatewayRepository
      && w.warp.Some? && w.warp.value.image.repository == WarpRepository
      && (w.warp.value.running || w.warp.value.image != release.pins.warp)
      && (w.pins == release.pins ==>
            || w.line1.value.image != release.pins.gateway || w.line2.value.image != release.pins.gateway
            || w.warp.value.image != release.pins.warp)
      && w.marker.Some? && w.marker.value != release.digest
      && otherFilesMatch && !w.staging
  {
    DriftIs(w, release.pins);
    RepositoriesAre(w);
  }

  lemma DriftIs(w: World, pins: Pins)
    ensures Drift(w, pins) <==>
      || (w.line1.Some? && w.line1.value.image != pins.gateway)
      || (w.line2.Some? && w.line2.value.image != pins.gateway)
      || (w.warp.Some? && w.warp.value.image != pins.warp)
  {
    assert OffTarget(w, pins, Line1) || OffTarget(w, pins, Line2) || OffTarget(w, pins, Warp) ==> Drift(w, pins);
  }

  lemma RepositoriesAre(w: World)
    ensures RepositoriesHold(w) <==>
      && (w.line1.Some? ==> w.line1.value.image.repository == GatewayRepository)
      && (w.line2.Some? ==> w.line2.value.image.repository == GatewayRepository)
      && (w.warp.Some? ==> w.warp.value.image.repository == WarpRepository)
  {
    assert Find(w, Line1) == w.line1 && Find(w, Line2) == w.line2 && Find(w, Warp) == w.warp;
  }

  /** What a plan can rely on. */
  ghost predicate Planned(p: Plan) {
    Preflight(p.before, p.release, true) == Ok(p)
  }

  /** The containers can be recreated from where they stand. */
  predicate Grounded(p: Plan) {
    ValidPrestate(p.before, p.release.pins.warp)
  }

  /** The apply compares containers and pins with the plan, but neither the marker nor the staging name. */
  predicate SamePrestate(w: World, p: Plan) {
    w == p.before.(staging := w.staging, marker := w.marker)
  }

  // -------------------------------------------------------------------------
  // The states a run passes through

  /** `now` is where the recreation of `was` can be interrupted. */
  ghost predicate InFlight(was: Live, target: Image, floor: nat, now: Option<Live>) {
    || now.None?
    || now.value == was
    || now.value == was.(running := false)
    || (now.value.image == target && now.value.id >= floor)
  }

  ghost predicate Recreated(target: Image, floor: nat, now: Option<Live>) {
    now.Some? && now.value.image == target && now.value.id >= floor && now.value.running
  }

  /** The first `k` services are recreated, the next may be in flight, the others and every file are untouched. */
  ghost predicate AtPhase(p: Plan, floor: nat, k: nat, now: World)
    requires k <= |Todo(p.before, p.release.pins)|
  {
    Phase(Todo(p.before, p.release.pins), p.release.pins, p.before, floor, k, now)
  }

  ghost predicate Phase(todo: seq<Service>, pins: Pins, before: World, floor: nat, k: nat, now: World)
    requires k <= |todo| && forall s :: s in todo ==> Find(before, s).Some?
  {
    && now.pins == before.pins && now.staging == before.staging && now.marker == before.marker
    && (forall j :: 0 <= j < k ==> Recreated(TargetOf(pins, todo[j]), floor, Find(now, todo[j])))
    && (k < |todo| ==> InFlight(Find(before, todo[k]).value, TargetOf(pins, todo[k]), floor, Find(now, todo[k])))
    && (forall s :: s !in todo[..k] && (k < |todo| ==> s != todo[k]) ==> Find(now, s) == Find(before, s))
  }

  /** All containers are in place; pins, staging file and marker may be anywhere on their way. */
  ghost predicate Committing(p: Plan, floor: nat, now: World) {
    && AtPhase(p, floor, |Todo(p.before, p.release.pins)|, now.(pins := p.before.pins, staging := p.before.staging, marker := p.before.marker))
    && (now.pins == p.before.pins || now.pins == p.release.pins)
    && (now.marker == p.before.marker || (now.pins == p.release.pins && (now.marker.None? || now.marker == Some(p.release.digest))))
    && (now.staging ==> p.before.staging || (now.pins == p.before.pins && p.before.pins != p.release.pins))
  }

  /** A state in which the run can be interrupted. */
  ghost predicate Point(p: Plan, floor: nat, now: World) {
    || (exists k: nat :: k <= |Todo(p.before, p.release.pins)| && AtPhase(p, floor, k, now))
    || Committing(p, floor, now)
  }

  ghost predicate Replaced(p: Plan, floor: nat, now: World) {
    && Committing(p, floor, now)
    && now.pins == p.release.pins && (now.staging ==> p.before.staging) && now.marker == Some(p.release.digest)
  }

  // -------------------------------------------------------------------------
  // Stop readback

  datatype StopReadback =
    | ReadStopped | ReadRunning | ReadRestarting | ReadPaused | ReadDead | ReadUnavailable | ReadUnknown | ReadIdentityChanged

  /** Docker's typed state; each field may be missing. */
  datatype Inspection = Inspection(
    identityVerified: bool, running: Option<bool>, restarting: Option<bool>, paused: Option<bool>, dead: Option<bool>
  )

  /** `classify_native_vm_stop_readback`. */
  function ClassifyStop(i: Inspection): StopReadback {
    if !i.identityVerified then ReadIdentityChanged
    else if i.restarting == Some(true) then ReadRestarting
    else if i.paused == Some(true) then ReadPaused
    else if i.dead == Some(true) then ReadDead
    else if i.running == Some(false) then ReadStopped
    else if i.running == Some(true) then ReadRunning
    else ReadUnknown
  }

  /** Only a container of this identity that plainly does not run counts as stopped. */
  lemma StoppedIff(i: Inspection)
    ensures ClassifyStop(i).ReadStopped? <==>
      && i.identityVerified && i.running == Some(false)
      && i.restarting != Some(true) && i.paused != Some(true) && i.dead != Some(true)
    ensures ClassifyStop(i).ReadIdentityChanged? <==> !i.identityVerified
  {
  }

  predicate IdsBelow(w: World, n: nat) {
    && (w.line1.Some? ==> w.line1.value.id < n)
    && (w.line2.Some? ==> w.line2.value.id < n)
    && (w.warp.Some? ==> w.warp.value.id < n)
  }

  function Halted(w: World, s: Service): World
    requires Find(w, s).Some?
  {
    Set(w, s, Some(Find(w, s).value.(running := false)))
  }

  // -------------------------------------------------------------------------
  // The engine and the files

  class Engine {
    var world: World
    var nextId: nat
    const reliable: bool
    /** Every state a call or a write has left behind. */
    ghost var points: seq<World>
    /** The stop requests sent so far. */
    ghost var stops: nat

    ghost predicate Valid()
      reads this
    {
      IdsBelow(world, nextId)
    }

    constructor (world: World, nextId: nat, reliable: bool)
      requires IdsBelow(world, nextId)
      ensures Valid() && this.world == world && this.reliable == reliable && points == [] && stops == 0
    {
      this.world, this.nextId, this.reliable := world, nextId, reliable;
      points, stops := [], 0;
    }

    /** A stop request: its effect may come at once, later or never, and its reply may be lost either way. */
    method SendStop(s: Service)
      requires Valid() && Find(world, s).Some?
      modifies this`world, this`points, this`stops
      ensures Valid()
      ensures world == old(world) || world == Halted(old(world), s)
      ensures points == old(points) + [world] && stops == old(stops) + 1
    {
      var effect: bool := *;
      if effect {
        world := Halted(world, s);
      }
      points, stops := points + [world], stops + 1;
    }

    /** One inspection after a stop request, which may only now take effect.  What it reports is true. */
    method InspectAfterStop(s: Service, id: nat) returns (found: Option<Inspection>)
      requires Valid() && Find(world, s).Some?
      modifies this`world, this`points
      ensures Valid()
      ensures world == old(world) || world == Halted(old(world), s)
      ensures points == old(points) + [world]
      ensures found.Some? && ClassifyStop(found.value).ReadStopped? ==> !Find(world, s).value.running && Find(world, s).value.id == id
      ensures reliable && Find(old(world), s).value.id == id ==> found.Some? && ClassifyStop(found.value).ReadStopped?
    {
      var landed: bool := *;
      if landed || reliable {
        world := Halted(world, s);
      }
      points := points + [world];
      var available: bool := *;
      if !available && !reliable {
        return None;
      }
      var current := Find(world, s).value;
      var known: bool := *;
      var restarting: bool := *;
      found := Some(Inspection(
        current.id == id,
        if known || reliable then Some(current.running) else None,
        Some(restarting && !reliable), Some(false), Some(false)));
    }

    /** A running container is not removed. */
    method RemoveContainer(s: Service) returns (ok: bool)
      requires Valid() && Find(world, s).Some?
      modifies this`world, this`points
      ensures Valid()
      ensures world == old(world) || world == Set(old(world), s, None)
      ensures ok ==> world == Set(old(world), s, None)
      ensures points == old(points) + [world]
      ensures reliable && !Find(old(world), s).value.running ==> ok
    {
      var effect: bool := *;
      ok := *;
      ok := (ok || reliable) && !Find(world, s).value.running;
      if (effect || ok) && !Find(world, s).value.running {
        world := Set(world, s, None);
      }
      points := points + [world];
    }

    method CreateContainer(s: Service, image: Image) returns (ok: bool)
      requires Valid() && Find(world, s).None?
      modifies this`world, this`nextId, this`points
      ensures Valid() && nextId > old(nextId)
      ensures world == old(world) || world == Set(old(world), s, Some(Live(old(nextId), false, image)))
      ensures ok ==> world == Set(old(world), s, Some(Live(old(nextId), false, image)))
      ensures points == old(points) + [world]
      ensures reliable ==> ok
    {
      var effect: bool := *;
      ok := *;
      ok := ok || reliable;
      if effect || ok {
        world := Set(world, s, Some(Live(nextId, false, image)));
      }
      nextId := nextId + 1;
      points := points + [world];
    }

    method StartContainer(s: Service) returns (ok: bool)
      requires Valid() && Find(world, s).Some?
      modifies this`world, this`points
      ensures Valid()
      ensures world == old(world) || world == Set(old(world), s, Some(Find(old(world), s).value.(running := true)))
      ensures ok ==> world == Set(old(world), s, Some(Find(old(world), s).value.(running := true)))
      ensures points == old(points) + [world]
      ensures reliable ==> ok
    {
      var effect: bool := *;
      ok := *;
      ok := ok || reliable;
      if effect || ok {
        world := Set(world, s, Some(Find(world, s).value.(running := true)));
      }
      points := points + [world];
    }

    /** Stage, rename, sync: at every process death the pins file holds the old or the new pins. */
    method CommitPins(pins: Pins) returns (ok: bool)
      requires Valid()
      modifies this`world, this`points
      ensures Valid()
      ensures forall w :: w in points ==> w in old(points) || w == old(world) || (!old(world).staging && (w == old(world).(staging := true) || w == old(world).(pins := pins)))
      ensures old(world).staging ==> !ok && world == old(world)
      ensures world == old(world) || (!old(world).staging && (world == old(world).(staging := true) || world == old(world).(pins := pins)))
      ensures ok ==> world == old(world).(pins := pins)
      ensures reliable && !old(world).staging ==> ok
    {
      if world.staging {
        return false;
      }
      var staged: bool := *;
      if staged || reliable {
        world := world.(staging := true);
      }
      points := points + [world];
      if !world.staging {
        return false;
      }
      var renamed: bool := *;
      if renamed || reliable {
        world := world.(staging := false, pins := pins);
      }
      points := points + [world];
      if world.staging {
        return false;
      }
      var synced: bool := *;
      ok := synced || reliable;
    }

    /** The marker is written in place: a write that fails at its opening leaves the old one, one cut short none that
        can be read. */
    method WriteMarker(digest: string) returns (ok: bool)
      requires Valid()
      modifies this`world, this`points
      ensures Valid()
      ensures forall w :: w in points ==>
                w in old(points) || w == old(world) || w == old(world).(marker := None) || w == old(world).(marker := Some(digest))
      ensures world == old(world) || world == old(world).(marker := None) || world == old(world).(marker := Some(digest))
      ensures ok ==> world == old(world).(marker := Some(digest))
      ensures reliable ==> ok
    {
      var openable: bool := *;
      if !openable && !reliable {
        points := points + [world];
        return false;
      }
      world := world.(marker := None);
      points := points + [world];
      ok := *;
      ok := ok || reliable;
      if ok {
        world := world.(marker := Some(digest));
        points := points + [world];
      }
    }

    method Readable() returns (ok: bool)
      ensures reliable ==> ok
    {
      ok := *;
      ok := ok || reliable;
    }
  }

  // -------------------------------------------------------------------------
  // Recreating one service

  /** Only `s` differs from `base`, and it is somewhere on its way. */
  ghost predicate RecreatePath(base: World, s: Service, target: Image, floor: nat, w: World) {
    && Find(base, s).Some?
    && w == Set(base, s, Find(w, s))
    && InFlight(Find(base, s).value, target, floor, Find(w, s))
  }

  /** An already stopped WARP is sent no stop; anything else is sent one. */
  ghost function StopsDue(s: Service, w: World): nat {
    if s.Warp? && Find(w, s).Some? && !Find(w, s).value.running then 0 else 1
  }

  /** At most one stop, then a bounded series of inspections that alone decides. */
  method StopAndConfirm(engine: Engine, s: Service, id: nat, polls: nat) returns (ok: bool)
    requires engine.Valid() && Find(engine.world, s).Some?
    modifies engine`world, engine`points, engine`stops
    ensures engine.Valid() && Find(engine.world, s).Some?
    ensures engine.stops == old(engine.stops) + StopsDue(s, old(engine.world))
    ensures forall w :: w in engine.points ==> w in old(engine.points) || HaltPath(old(engine.world), s, w)
    ensures HaltPath(old(engine.world), s, engine.world)
    ensures ok ==> !Find(engine.world, s).value.running
    ensures engine.reliable && Find(old(engine.world), s).value.id == id ==> ok
  {
    var alreadyStopped := s.Warp? && !Find(engine.world, s).value.running;
    if !alreadyStopped {
      engine.SendStop(s);
    }
    var left := polls;
    while true
      invariant engine.Valid() && Find(engine.world, s).Some?
      invariant forall w :: w in engine.points ==> w in old(engine.points) || HaltPath(old(engine.world), s, w)
      invariant HaltPath(old(engine.world), s, engine.world)
      invariant engine.stops == old(engine.stops) + StopsDue(s, old(engine.world))
      decreases left
    {
      var found := engine.InspectAfterStop(s, id);
      if found.Some? && ClassifyStop(found.value).ReadStopped? {
        return true;
      }
      if found.Some? && ClassifyStop(found.value).ReadIdentityChanged? {
        return false;
      }
      if left == 0 {
        return false;
      }
      left := left - 1;
    }
  }

  ghost predicate HaltPath(base: World, s: Service, w: World) {
    Find(base, s).Some? && (w == base || w == Halted(base, s))
  }

  lemma HaltIsRecreate(base: World, s: Service, target: Image, floor: nat, w: World)
    requires HaltPath(base, s, w)
    ensures RecreatePath(base, s, target, floor, w)
  {
  }

  /** `recreate_native_vm_container_once`. */
  method RecreateOnce(engine: Engine, s: Service, id: nat, target: Image, polls: nat) returns (ok: bool)
    requires engine.Valid() && Find(engine.world, s).Some?
    modifies engine
    ensures engine.Valid() && engine.nextId >= old(engine.nextId)
    ensures forall w :: w in engine.points ==> w in old(engine.points) || RecreatePath(old(engine.world), s, target, old(engine.nextId), w)
    ensures RecreatePath(old(engine.world), s, target, old(engine.nextId), engine.world)
    ensures engine.stops <= old(engine.stops) + StopsDue(s, old(engine.world))
    ensures Find(old(engine.world), s).value.id != id || (!s.Warp? && !Find(old(engine.world), s).value.running) ==>
      !ok && engine.world == old(engine.world) && engine.stops == old(engine.stops)
    ensures ok ==> Recreated(target, old(engine.nextId), Find(engine.world, s))
    ensures engine.reliable && Find(old(engine.world), s).value.id == id && (Find(old(engine.world), s).value.running || s.Warp?) ==> ok
  {
    ghost var base, floor := engine.world, engine.nextId;
    var current := Find(engine.world, s).value;
    var readable := engine.Readable();
    if !readable || current.id != id || (!current.running && !s.Warp?) {
      return false;
    }
    var stopped := StopAndConfirm(engine, s, id, polls);
    forall w | HaltPath(base, s, w) ensures RecreatePath(base, s, target, floor, w) {
      HaltIsRecreate(base, s, target, floor, w);
    }
    if !stopped {
      return false;
    }
    ok := Rebuild(engine, s, target);
  }

  /** Only `s` differs from `base`: removed, or new at the target image. */
  ghost predicate RebuildPath(base: World, s: Service, target: Image, floor: nat, w: World) {
    && w == Set(base, s, Find(w, s))
    && (Find(w, s).None? || Find(w, s) == Find(base, s) || (Find(w, s).value.image == target && Find(w, s).value.id >= floor))
  }

  /** Remove, create, start. */
  method Rebuild(engine: Engine, s: Service, target: Image) returns (ok: bool)
    requires engine.Valid() && Find(engine.world, s).Some?
    modifies engine`world, engine`nextId, engine`points
    ensures engine.Valid() && engine.nextId >= old(engine.nextId)
    ensures forall w :: w in engine.points ==> w in old(engine.points) || RebuildPath(old(engine.world), s, target, old(engine.nextId), w)
    ensures RebuildPath(old(engine.world), s, target, old(engine.nextId), engine.world)
    ensures ok ==> Recreated(target, old(engine.nextId), Find(engine.world, s))
    ensures engine.reliable && !Find(old(engine.world), s).value.running ==> ok
  {
    var removed := engine.RemoveContainer(s);
    if !removed {
      return false;
    }
    var created := engine.CreateContainer(s, target);
    if !created {
      return false;
    }
    ok := engine.StartContainer(s);
  }

  // -------------------------------------------------------------------------
  // The whole replacement

  lemma StartsAtPhaseZero(p: Plan, floor: nat)
    ensures AtPhase(p, floor, 0, p.before)
  {
  }

  lemma OthersKept(base: World, s: Service, w: World, o: Service)
    requires w == Set(base, s, Find(w, s)) && o != s
    ensures Find(w, o) == Find(base, o)
  {
  }

  /** A recreation begun with everything before it done stays in its phase. */
  lemma RecreateInPhase(p: Plan, floor: nat, k: nat, base: World, w: World, low: nat)
    requires k < |Todo(p.before, p.release.pins)| && Clean(p, floor, k, base) && floor <= low
    requires var s := Todo(p.before, p.release.pins)[k]; RecreatePath(base, s, TargetOf(p.release.pins, s), low, w)
    ensures AtPhase(p, floor, k, w)
  {
    var todo := Todo(p.before, p.release.pins);
    var s := todo[k];
    forall o | o != s ensures Find(w, o) == Find(base, o) {
      OthersKept(base, s, w, o);
    }
    forall j | 0 <= j < k ensures Recreated(TargetOf(p.release.pins, todo[j]), floor, Find(w, todo[j])) {
      assert todo[j] != s;
    }
  }

  /** Its success opens the next phase. */
  lemma RecreateOpensNext(p: Plan, floor: nat, k: nat, w: World, low: nat)
    requires k < |Todo(p.before, p.release.pins)| && AtPhase(p, floor, k, w) && floor <= low
    requires var s := Todo(p.before, p.release.pins)[k]; Recreated(TargetOf(p.release.pins, s), low, Find(w, s))
    ensures Clean(p, floor, k + 1, w)
  {
    NextPhase(Todo(p.before, p.release.pins), p.release.pins, p.before, floor, k, w);
  }

  lemma NextPhase(todo: seq<Service>, pins: Pins, before: World, floor: nat, k: nat, w: World)
    requires k < |todo| && forall s :: s in todo ==> Find(before, s).Some?
    requires forall i, j :: 0 <= i < j < |todo| ==> todo[i] != todo[j]
    requires Phase(todo, pins, before, floor, k, w) && Recreated(TargetOf(pins, todo[k]), floor, Find(w, todo[k]))
    ensures k + 1 < |todo| ==> Find(w, todo[k + 1]) == Find(before, todo[k + 1])
    ensures Phase(todo, pins, before, floor, k + 1, w)
  {
    assert todo[..k + 1] == todo[..k] + [todo[k]];
  }

  /** Between two recreations: the next one has not begun. */
  ghost predicate Clean(p: Plan, floor: nat, k: nat, w: World)
    requires k <= |Todo(p.before, p.release.pins)|
  {
    && AtPhase(p, floor, k, w)
    && (k < |Todo(p.before, p.release.pins)| ==>
          var s := Todo(p.before, p.release.pins)[k]; Find(w, s) == Find(p.before, s))
  }

  /** One turn of the recreation: service `k` of those off target. */
  method RecreateNext(engine: Engine, p: Plan, k: nat, polls: nat, ghost floor: nat) returns (ok: bool)
    requires Grounded(p) && engine.Valid() && k < |Todo(p.before, p.release.pins)|
    requires engine.nextId >= floor && Clean(p, floor, k, engine.world)
    modifies engine
    ensures engine.Valid() && engine.nextId >= old(engine.nextId) && engine.stops <= old(engine.stops) + 1
    ensures forall w :: w in engine.points ==> w in old(engine.points) || AtPhase(p, floor, k, w)
    ensures AtPhase(p, floor, k, engine.world)
    ensures ok ==> Clean(p, floor, k + 1, engine.world)
    ensures engine.reliable ==> ok
  {
    var s := Todo(p.before, p.release.pins)[k];
    ghost var base, low := engine.world, engine.nextId;
    assert s in Todo(p.before, p.release.pins) && OffTarget(p.before, p.release.pins, s);
    assert Find(engine.world, s) == Some(Find(p.before, s).value);
    ok := RecreateOnce(engine, s, Find(p.before, s).value.id, TargetOf(p.release.pins, s), polls);
    forall w | RecreatePath(base, s, TargetOf(p.release.pins, s), low, w) ensures AtPhase(p, floor, k, w) {
      RecreateInPhase(p, floor, k, base, w, low);
    }
    if ok {
      RecreateOpensNext(p, floor, k, engine.world, low);
    }
  }

  method RecreateAll(engine: Engine, p: Plan, polls: nat) returns (ok: bool)
    requires Grounded(p) && engine.Valid() && engine.world == p.before
    modifies engine
    ensures engine.Valid() && engine.nextId >= old(engine.nextId)
    ensures engine.stops <= old(engine.stops) + |Todo(p.before, p.release.pins)|
    ensures forall w :: w in engine.points ==> w in old(engine.points) || Point(p, old(engine.nextId), w)
    ensures Point(p, old(engine.nextId), engine.world)
    ensures ok ==> AtPhase(p, old(engine.nextId), |Todo(p.before, p.release.pins)|, engine.world)
    ensures engine.reliable ==> ok
  {
    ghost var floor := engine.nextId;
    var todo := Todo(p.before, p.release.pins);
    StartsAtPhaseZero(p, floor);
    var k := 0;
    while k < |todo|
      invariant 0 <= k <= |todo|
      invariant engine.Valid() && engine.nextId >= floor && engine.stops <= old(engine.stops) + k
      invariant Clean(p, floor, k, engine.world)
      invariant forall w :: w in engine.points ==> w in old(engine.points) || Point(p, floor, w)
    {
      var done := RecreateNext(engine, p, k, polls, floor);
      if !done {
        return false;
      }
      k := k + 1;
    }
    ok := true;
  }

  /** The poststate loop of `apply_gateway_image_replace_once`. */
  predicate PoststateHolds(p: Plan, now: World)
    requires AllPresent(p.before)
  {
    AllPresent(now) && forall s :: Verified(Find(p.before, s).value, Find(now, s).value, TargetOf(p.release.pins, s))
  }

  /** `verified_image_transition`, with the running check. */
  predicate Verified(was: Live, now: Live, target: Image) {
    now.running && now.image == target && ((now.id != was.id) == (was.image != target))
  }

  /** One service after the release: running at `target`, under a new id exactly if its image was another. */
  predicate OnTarget(was: Option<Live>, now: Option<Live>, target: Image) {
    && was.Some? && now.Some? && now.value.running && now.value.image == target
    && (now.value.id != was.value.id <==> was.value.image != target)
  }

  /** The poststate loop passes exactly when both gateways are on the gateway pin and WARP on its own. */
  lemma PoststateIff(p: Plan, now: World)
    requires AllPresent(p.before)
    ensures PoststateHolds(p, now) <==>
      && OnTarget(p.before.line1, now.line1, p.release.pins.gateway)
      && OnTarget(p.before.line2, now.line2, p.release.pins.gateway)
      && OnTarget(p.before.warp, now.warp, p.release.pins.warp)
  {
    assert Find(now, Line1) == now.line1 && Find(now, Line2) == now.line2 && Find(now, Warp) == now.warp;
    assert Find(p.before, Line1) == p.before.line1 && Find(p.before, Line2) == p.before.line2 && Find(p.before, Warp) == p.before.warp;
  }

  lemma AllRecreatedVerifies(p: Plan, floor: nat, now: World)
    requires Grounded(p) && IdsBelow(p.before, floor)
    requires AtPhase(p, floor, |Todo(p.before, p.release.pins)|, now)
    ensures PoststateHolds(p, now)
  {
    var todo := Todo(p.before, p.release.pins);
    assert todo[..|todo|] == todo;
    forall s ensures Find(now, s).Some? && Verified(Find(p.before, s).value, Find(now, s).value, TargetOf(p.release.pins, s)) {
      if s in todo {
        var j :| 0 <= j < |todo| && todo[j] == s;
        assert Recreated(TargetOf(p.release.pins, todo[j]), floor, Find(now, todo[j]));
      } else {
        assert !OffTarget(p.before, p.release.pins, s);
      }
    }
    assert Find(now, Line1).Some? && Find(now, Line2).Some? && Find(now, Warp).Some?;
  }

  /** The plan, from the world the apply found. */
  function From(p: Plan, w: World): Plan {
    p.(before := w)
  }

  /** Some container or pin is another. */
  predicate Differs(a: World, b: World) {
    a.line1 != b.line1 || a.line2 != b.line2 || a.warp != b.warp || a.pins != b.pins
  }

  lemma DifferentPrestate(p: Plan, w: World)
    ensures SamePrestate(w, p) <==> !Differs(w, p.before)
  {
  }

  lemma SamePrestateGrounds(p: Plan, w: World)
    requires Planned(p) && SamePrestate(w, p)
    ensures Grounded(From(p, w))
  {
  }

  lemma PointsAreOrderly(p: Plan, w: World, floor: nat)
    requires Planned(p) && IdsBelow(w, floor)
    ensures SamePrestate(w, p) ==>
      Grounded(From(p, w)) && forall now :: Point(From(p, w), floor, now) ==> Orderly(From(p, w), now)
  {
    if SamePrestate(w, p) {
      SamePrestateGrounds(p, w);
      forall now | Point(From(p, w), floor, now) ensures Orderly(From(p, w), now) {
        EveryInterruption(From(p, w), floor, now);
      }
    }
  }

  lemma RestIsAPoint(p: Plan, floor: nat)
    ensures Point(p, floor, p.before)
  {
    StartsAtPhaseZero(p, floor);
  }

  /** `apply_gateway_image_replace_once`. */
  method ApplyImageReplace(engine: Engine, p: Plan, polls: nat) returns (r: Result<()>)
    requires Planned(p) && engine.Valid()
    modifies engine
    ensures engine.Valid() && engine.stops <= old(engine.stops) + |Todo(old(engine.world), p.release.pins)|
    ensures !SamePrestate(old(engine.world), p) ==> r.Err? && engine.world == old(engine.world) && engine.points == old(engine.points)
    ensures Differs(old(engine.world), p.before) ==> r.Err? && engine.world == old(engine.world)
    ensures forall w :: w in engine.points ==> w in old(engine.points) || Point(From(p, old(engine.world)), old(engine.nextId), w)
    ensures Point(From(p, old(engine.world)), old(engine.nextId), engine.world)
    ensures SamePrestate(old(engine.world), p) ==>
      && Grounded(From(p, old(engine.world)))
      && (forall w :: w in engine.points ==> w in old(engine.points) || Orderly(From(p, old(engine.world)), w))
      && Orderly(From(p, old(engine.world)), engine.world)
    ensures r.Ok? ==> Replaced(From(p, old(engine.world)), old(engine.nextId), engine.world)
    ensures engine.reliable && SamePrestate(old(engine.world), p) && CommitOpen(From(p, old(engine.world))) ==> r.Ok?
  {
    RestIsAPoint(From(p, engine.world), engine.nextId);
    DifferentPrestate(p, engine.world);
    PointsAreOrderly(p, engine.world, engine.nextId);
    var readable := engine.Readable();
    if !readable || !SamePrestate(engine.world, p) {
      return Err("HOST_VM_IMAGE_PRESTATE_CHANGED_NO_REPLAY");
    }
    r := ReplaceFrom(engine, From(p, engine.world), polls);
  }

  /** Pull, recreate, verify, commit. */
  method ReplaceFrom(engine: Engine, p: Plan, polls: nat) returns (r: Result<()>)
    requires Grounded(p) && engine.Valid() && engine.world == p.before
    modifies engine
    ensures engine.Valid() && engine.stops <= old(engine.stops) + |Todo(p.before, p.release.pins)|
    ensures forall w :: w in engine.points ==> w in old(engine.points) || Point(p, old(engine.nextId), w)
    ensures Point(p, old(engine.nextId), engine.world)
    ensures r.Ok? ==> Replaced(p, old(engine.nextId), engine.world)
    ensures engine.reliable && CommitOpen(p) ==> r.Ok?
  {
    ghost var floor := engine.nextId;
    StartsAtPhaseZero(p, floor);
    var pulled := engine.Readable();
    if !pulled {
      return Err("HOST_VM_INSTALL_PULL_ACK_UNCERTAIN_NO_REPLAY");
    }
    var recreated := RecreateAll(engine, p, polls);
    if !recreated {
      return Err("HOST_VM_NATIVE_RECREATE_UNCERTAIN_NO_REPLAY");
    }
    AllRecreatedVerifies(p, floor, engine.world);
    var aliases := engine.Readable();
    if !aliases || !PoststateHolds(p, engine.world) {
      return Err("HOST_VM_IMAGE_POSTSTATE_NOT_RUNNING_NO_REPLAY");
    }
    r := CommitRelease(engine, p, floor);
  }

  /** New pins need a free staging name. */
  predicate CommitOpen(p: Plan) {
    p.before.pins != p.release.pins ==> !p.before.staging
  }

  /** Pins, then marker. */
  method CommitRelease(engine: Engine, p: Plan, ghost floor: nat) returns (r: Result<()>)
    requires Grounded(p) && engine.Valid()
    requires AtPhase(p, floor, |Todo(p.before, p.release.pins)|, engine.world)
    modifies engine`world, engine`points
    ensures engine.Valid()
    ensures forall w :: w in engine.points ==> w in old(engine.points) || Point(p, floor, w)
    ensures Point(p, floor, engine.world)
    ensures r.Ok? ==> Replaced(p, floor, engine.world)
    ensures engine.reliable && CommitOpen(p) ==> r.Ok?
  {
    if p.before.pins != p.release.pins {
      var committed := engine.CommitPins(p.release.pins);
      if !committed {
        return Err("HOST_VM_IMAGE_ACTIVATE_UNCERTAIN_NO_REPLAY");
      }
    }
    var poststate := engine.Readable();
    if !poststate || engine.world.pins != p.release.pins {
      return Err("HOST_VM_IMAGE_ENV_NOT_CONVERGED_NO_REPLAY");
    }
    var written := engine.WriteMarker(p.release.digest);
    if !written {
      return Err("HOST_VM_IMAGE_RELEASE_UNCERTAIN_NO_REPLAY");
    }
    r := Ok(());
  }

  // -------------------------------------------------------------------------
  // What every interruption leaves

  predicate Down(w: World, s: Service) {
    Find(w, s).None? || !Find(w, s).value.running
  }

  predicate RunningAt(w: World, s: Service) {
    Find(w, s).Some? && Find(w, s).value.running
  }

  /** `s` is untouched, in flight, or recreated. */
  ghost predicate ServicePoint(p: Plan, floor: nat, s: Service, now: World)
    requires AllPresent(p.before)
  {
    || Find(now, s) == Find(p.before, s)
    || (OffTarget(p.before, p.release.pins, s) && InFlight(Find(p.before, s).value, TargetOf(p.release.pins, s), floor, Find(now, s)))
  }

  lemma PhaseMeaning(p: Plan, floor: nat, k: nat, now: World)
    requires Grounded(p) && k <= |Todo(p.before, p.release.pins)| && AtPhase(p, floor, k, now)
    ensures forall s :: ServicePoint(p, floor, s, now)
    ensures forall s, s' :: RunningAt(p.before, s) && Down(now, s) && RunningAt(p.before, s') && Down(now, s') ==> s == s'
  {
    var todo := Todo(p.before, p.release.pins);
    forall s ensures ServicePoint(p, floor, s, now)
      ensures RunningAt(p.before, s) && Down(now, s) ==> k < |todo| && s == todo[k]
    {
      ServiceInPhase(p, floor, k, now, s);
    }
  }

  lemma ServiceInPhase(p: Plan, floor: nat, k: nat, now: World, s: Service)
    requires Grounded(p) && k <= |Todo(p.before, p.release.pins)| && AtPhase(p, floor, k, now)
    ensures ServicePoint(p, floor, s, now)
    ensures RunningAt(p.before, s) && Down(now, s) ==> k < |Todo(p.before, p.release.pins)| && s == Todo(p.before, p.release.pins)[k]
  {
    var todo := Todo(p.before, p.release.pins);
    if s in todo[..k] {
      var j :| 0 <= j < k && todo[j] == s;
      assert Recreated(TargetOf(p.release.pins, todo[j]), floor, Find(now, todo[j]));
      assert s in todo;
    } else if k < |todo| && s == todo[k] {
      assert s in todo;
    }
  }

  /** What every interruption leaves: each container present has its old or its target image; at most one service that
      was running is down; changed pins mean that all three services run at target images, under a new id exactly where
      the image differed; and a changed marker means the new pins. */
  ghost predicate Orderly(p: Plan, now: World)
    requires Grounded(p)
  {
    && (forall s :: Find(now, s).Some? ==>
          Find(now, s).value.image == Find(p.before, s).value.image || Find(now, s).value.image == TargetOf(p.release.pins, s))
    && (forall s, s' :: RunningAt(p.before, s) && Down(now, s) && RunningAt(p.before, s') && Down(now, s') ==> s == s')
    && (now.pins == p.before.pins || now.pins == p.release.pins)
    && (now.pins != p.before.pins ==> PoststateHolds(p, now))
    && (now.marker != p.before.marker ==> now.pins == p.release.pins && PoststateHolds(p, now))
    && WarpFirst(p, now)
  }

  predicate Touched(p: Plan, now: World, s: Service) {
    Find(now, s) != Find(p.before, s)
  }

  /** A new container, running at `target`. */
  predicate Renewed(p: Plan, now: World, s: Service, target: Image)
    requires AllPresent(p.before)
  {
    && Find(now, s).Some? && Find(now, s).value.running && Find(now, s).value.image == target
    && Find(now, s).value.id != Find(p.before, s).value.id
  }

  /** No gateway is touched before a WARP that needs it is renewed, and Line 1 not before such a Line 2. */
  predicate WarpFirst(p: Plan, now: World)
    requires AllPresent(p.before)
  {
    && (p.before.warp.value.image != p.release.pins.warp && (Touched(p, now, Line1) || Touched(p, now, Line2)) ==>
          Renewed(p, now, Warp, p.release.pins.warp))
    && (p.before.line2.value.image != p.release.pins.gateway && Touched(p, now, Line1) ==>
          Renewed(p, now, Line2, p.release.pins.gateway))
  }

  function Turn(s: Service): nat {
    match s
    case Warp => 0
    case Line2 => 1
    case Line1 => 2
  }

  lemma TodoInTurn(w: World, pins: Pins, i: nat, j: nat)
    requires i < |Todo(w, pins)| && j < |Todo(w, pins)|
    ensures i < j <==> Turn(Todo(w, pins)[i]) < Turn(Todo(w, pins)[j])
  {
  }

  /** Once `s` is touched, whatever comes before it in turn is renewed. */
  lemma EarlierRenewed(p: Plan, floor: nat, k: nat, now: World, s: Service, earlier: Service)
    requires Grounded(p) && IdsBelow(p.before, floor)
    requires k <= |Todo(p.before, p.release.pins)| && AtPhase(p, floor, k, now)
    requires Touched(p, now, s) && Turn(earlier) < Turn(s) && OffTarget(p.before, p.release.pins, earlier)
    ensures Renewed(p, now, earlier, TargetOf(p.release.pins, earlier))
  {
    var todo := Todo(p.before, p.release.pins);
    assert s in todo[..k] || (k < |todo| && s == todo[k]);
    var i :| 0 <= i < |todo| && todo[i] == earlier;
    var j :| 0 <= j <= k && j < |todo| && todo[j] == s;
    TodoInTurn(p.before, p.release.pins, i, j);
    assert Recreated(TargetOf(p.release.pins, todo[i]), floor, Find(now, todo[i]));
  }

  lemma PhaseWarpFirst(p: Plan, floor: nat, k: nat, now: World)
    requires Grounded(p) && IdsBelow(p.before, floor)
    requires k <= |Todo(p.before, p.release.pins)| && AtPhase(p, floor, k, now)
    ensures WarpFirst(p, now)
  {
    if OffTarget(p.before, p.release.pins, Warp) {
      if Touched(p, now, Line1) { EarlierRenewed(p, floor, k, now, Line1, Warp); }
      if Touched(p, now, Line2) { EarlierRenewed(p, floor, k, now, Line2, Warp); }
    }
    if OffTarget(p.before, p.release.pins, Line2) && Touched(p, now, Line1) {
      EarlierRenewed(p, floor, k, now, Line1, Line2);
    }
  }

  lemma EveryInterruption(p: Plan, floor: nat, now: World)
    requires Grounded(p) && IdsBelow(p.before, floor) && Point(p, floor, now)
    ensures Orderly(p, now)
  {
    if Committing(p, floor, now) {
      var base := now.(pins := p.before.pins, staging := p.before.staging, marker := p.before.marker);
      PhaseMeaning(p, floor, |Todo(p.before, p.release.pins)|, base);
      AllRecreatedVerifies(p, floor, base);
      PhaseWarpFirst(p, floor, |Todo(p.before, p.release.pins)|, base);
      assert forall s :: Find(now, s) == Find(base, s);
      SameContainers(p, floor, base, now);
    } else {
      var k: nat :| k <= |Todo(p.before, p.release.pins)| && AtPhase(p, floor, k, now);
      PhaseMeaning(p, floor, k, now);
      PhaseWarpFirst(p, floor, k, now);
      ImagesOldOrTarget(p, floor, now);
    }
  }

  lemma ImagesOldOrTarget(p: Plan, floor: nat, now: World)
    requires Grounded(p) && forall s :: ServicePoint(p, floor, s, now)
    ensures forall s :: Find(now, s).Some? ==>
      Find(now, s).value.image == Find(p.before, s).value.image || Find(now, s).value.image == TargetOf(p.release.pins, s)
  {
    forall s | Find(now, s).Some?
      ensures Find(now, s).value.image == Find(p.before, s).value.image || Find(now, s).value.image == TargetOf(p.release.pins, s)
    {
      assert ServicePoint(p, floor, s, now);
    }
  }

  lemma SameContainers(p: Plan, floor: nat, a: World, b: World)
    requires Grounded(p) && forall s :: Find(a, s) == Find(b, s)
    requires PoststateHolds(p, a)
    ensures PoststateHolds(p, b)
    ensures forall s :: RunningAt(b, s)
    ensures forall s :: Find(b, s).Some? ==> Find(b, s).value.image == TargetOf(p.release.pins, s)
  {
    forall s ensures Find(b, s).Some? && Verified(Find(p.before, s).value, Find(b, s).value, TargetOf(p.release.pins, s)) {
      assert Find(a, s) == Find(b, s);
    }
    assert Find(b, Line1).Some? && Find(b, Line2).Some? && Find(b, Warp).Some?;
  }

  /** A completed run: the target everywhere, new ids exactly where the image differed. */
  lemma ReplacedMeaning(p: Plan, floor: nat, now: World)
    requires Planned(p) && IdsBelow(p.before, floor) && Replaced(p, floor, now)
    ensures PoststateHolds(p, now)
    ensures now.pins == p.release.pins && now.marker == Some(p.release.digest) && !now.staging
  {
    EveryInterruption(p, floor, now);
    assert p.before.marker != Some(p.release.digest);
  }

  // -------------------------------------------------------------------------
  // Resuming

  /** A fresh plan and apply. */
  method PlanAndApply(engine: Engine, release: Release, polls: nat) returns (r: Result<()>)
    requires engine.Valid()
    modifies engine
    ensures engine.Valid()
    ensures r.Ok? ==> Preflight(old(engine.world), release, true).Ok? && PoststateHolds(Plan(release, old(engine.world)), engine.world)
    ensures r.Ok? ==> engine.world.pins == release.pins && engine.world.marker == Some(release.digest) && !engine.world.staging
    ensures engine.reliable ==> (r.Ok? <==> Preflight(old(engine.world), release, true).Ok?)
  {
    var plan := Preflight(engine.world, release, true);
    if plan.Err? {
      return Err(plan.code);
    }
    ghost var floor := engine.nextId;
    r := ApplyImageReplace(engine, plan.value, polls);
    if r.Ok? {
      ReplacedMeaning(plan.value, floor, engine.world);
    }
  }

  /** The marker names another release. */
  predicate MarkerOpen(w: World, digest: string) {
    w.marker.Some? && w.marker.value != digest
  }

  /** Exactly which interruptions of an image release can be finished by planning and applying it again: all three
      services present, both gateways running, WARP running or still off target, no staging file left behind, a marker
      of another release, and either the pins not yet committed, or (when they were new from the start) some container
      still off target.  Nothing is supposed of the marker and the staging name `w` that the apply found. */
  lemma ResumableIff(p: Plan, w: World, floor: nat, now: World)
    requires Planned(p) && SamePrestate(w, p) && IdsBelow(w, floor) && Point(From(p, w), floor, now)
    ensures Preflight(now, p.release, true).Ok? <==>
      && ValidPrestate(now, p.release.pins.warp)
      && !now.staging
      && MarkerOpen(now, p.release.digest)
      && (now.pins == p.release.pins ==> Drift(now, p.release.pins))
    ensures p.before.pins != p.release.pins && now.pins == p.release.pins ==> !Preflight(now, p.release, true).Ok?
    ensures now.marker == w.marker || !MarkerOpen(now, p.release.digest)
  {
    PointsAreOrderly(p, w, floor);
    PointRepositories(p, w, now);
    PointMarker(p, w, floor, now);
    CommittedHasNoDrift(p, w, now);
    PlannableAgain(p, now);
  }

  /** Of the conditions of planning, only these can have changed. */
  lemma PlannableAgain(p: Plan, now: World)
    requires Planned(p) && RepositoriesHold(now) && (now.pins == p.before.pins || now.pins == p.release.pins)
    ensures Preflight(now, p.release, true).Ok? <==>
      && ValidPrestate(now, p.release.pins.warp)
      && !now.staging
      && MarkerOpen(now, p.release.digest)
      && (now.pins == p.release.pins ==> Drift(now, p.release.pins))
  {
  }

  lemma PointMarker(p: Plan, w: World, floor: nat, now: World)
    requires Point(From(p, w), floor, now)
    ensures now.marker == w.marker || !MarkerOpen(now, p.release.digest)
  {
  }

  lemma CommittedHasNoDrift(p: Plan, w: World, now: World)
    requires Grounded(From(p, w)) && Orderly(From(p, w), now)
    ensures w.pins != p.release.pins && now.pins == p.release.pins ==> !Drift(now, p.release.pins)
  {
    if w.pins != p.release.pins && now.pins == p.release.pins {
      forall s ensures !OffTarget(now, p.release.pins, s) {
        assert Verified(Find(w, s).value, Find(now, s).value, TargetOf(p.release.pins, s));
      }
    }
  }

  lemma PointRepositories(p: Plan, w: World, now: World)
    requires Planned(p) && SamePrestate(w, p)
    requires forall s :: Find(now, s).Some? ==> Find(w, s).Some?
    requires forall s :: Find(now, s).Some? ==>
      Find(now, s).value.image == Find(w, s).value.image || Find(now, s).value.image == TargetOf(p.release.pins, s)
    ensures RepositoriesHold(now)
  {
    forall s | Find(now, s).Some?
      ensures Find(now, s).value.image.repository == if s.Warp? then WarpRepository else GatewayRepository
    {
      assert Find(p.before, s) == Find(w, s);
    }
  }
}
