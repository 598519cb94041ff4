/** Git-declared Docker volumes, networks and containers (`docker_managed_object.rs`) and the separate readback
    that classifies them (`docker_managed_file.rs`). */
module ManagedObject {
  import opened Common

  datatype Kind = LocalVolume | BridgeNetwork | Container

  datatype Desired = Present | Absent | Stopped

  /** A decoded manifest.  `network` is absent for a container without one; `ipam` covers subnet, gateway and
      bridge name of a network. */
  datatype Spec = Spec(
    name: string, kind: Kind, desired: Desired, image: string, network: Option<string>, dns: seq<string>,
    restartGeneration: nat, ipam: string
  )

  /** The part of `resource_path_expected` the planner relies on. */
  predicate Decodable(s: Spec) {
    && s.restartGeneration <= U64_MAX
    && (!s.kind.Container? ==> !s.desired.Stopped? && s.restartGeneration == 0 && s.network.None?)
  }

  // -------------------------------------------------------------------------
  // Planning

  datatype Effect = Create | Delete | Start | Stop | Restart | Replace

  /** `present`. */
  predicate IsPresent(s: Spec) {
    s.desired.Present? || (s.kind.Container? && s.desired.Stopped?)
  }

  predicate Wanted(s: Option<Spec>) {
    s.Some? && IsPresent(s.value)
  }

  function SaturatingSucc(n: nat): nat {
    if n >= U64_MAX then U64_MAX else n + 1
  }

  /** `plan_effect`. */
  function PlanEffect(previous: Option<Spec>, next: Option<Spec>): Result<Effect> {
    if !Wanted(previous) && Wanted(next) then Ok(Create)
    else if Wanted(previous) && !Wanted(next) then Ok(Delete)
    else if !Wanted(previous) then Err("HOST_VM_DOCKER_NO_RESOURCE_STATE_CHANGE")
    else
      var was, now := previous.value, next.value;
      if !was.kind.Container? then Err("HOST_VM_DOCKER_CONFIG_UPDATE_UNSUPPORTED")
      else if now.restartGeneration != was.restartGeneration
              && now.restartGeneration != SaturatingSucc(was.restartGeneration) then
        Err("HOST_VM_DOCKER_RESTART_REVISION_NOT_MONOTONIC")
      else if was.image != now.image || was.network != now.network || was.dns != now.dns then Ok(Replace)
      else if was.desired != now.desired then Ok(if now.desired.Present? then Start else Stop)
      else if now.restartGeneration > was.restartGeneration && now.desired.Present? then Ok(Restart)
      else Err("HOST_VM_DOCKER_NO_RESOURCE_STATE_CHANGE")
  }

  /** A decoded manifest asks for the object unless it says it should be absent. */
  predicate Asks(s: Option<Spec>) {
    s.Some? && !s.value.desired.Absent?
  }

  predicate SameConfiguration(a: Spec, b: Spec) {
    a.image == b.image && a.network == b.network && a.dns == b.dns
  }

  /** The generation stays or rises by one. */
  predicate GenerationFollows(a: Spec, b: Spec) {
    b.restartGeneration == a.restartGeneration || b.restartGeneration == a.restartGeneration + 1
  }

  /** Two manifests of one container that may follow each other. */
  predicate Follows(previous: Option<Spec>, next: Option<Spec>) {
    && Asks(previous) && Asks(next) && previous.value.kind.Container?
    && GenerationFollows(previous.value, next.value)
  }

  /** Which change of manifests gets which effect, and when planning refuses. */
  lemma EffectsExactly(previous: Option<Spec>, next: Option<Spec>)
    requires previous.Some? ==> Decodable(previous.value)
    requires next.Some? ==> Decodable(next.value)
    requires previous.Some? && next.Some? ==> previous.value.kind == next.value.kind
    ensures forall e :: PlanEffect(previous, next) == Ok(e) <==> CalledFor(previous, next, e)
    ensures PlanEffect(previous, next).Err? <==> Asks(previous) == Asks(next) && (Asks(next) ==> Refused(previous.value, next.value))
  {
  }

  /** Manifests of a present object that cannot follow each other, or between which there is nothing to do. */
  predicate Refused(a: Spec, b: Spec) {
    || !a.kind.Container?
    || !GenerationFollows(a, b)
    || (SameConfiguration(a, b) && a.desired == b.desired && (a.restartGeneration == b.restartGeneration || b.desired.Stopped?))
  }

  /** The effect is the one the two manifests call for. */
  predicate CalledFor(previous: Option<Spec>, next: Option<Spec>, effect: Effect) {
    match effect
    case Create => !Asks(previous) && Asks(next)
    case Delete => Asks(previous) && !Asks(next)
    case Replace => Follows(previous, next) && !SameConfiguration(previous.value, next.value)
    case Start => Follows(previous, next) && SameConfiguration(previous.value, next.value)
                  && previous.value.desired.Stopped? && next.value.desired.Present?
    case Stop => Follows(previous, next) && SameConfiguration(previous.value, next.value)
                 && previous.value.desired.Present? && next.value.desired.Stopped?
    case Restart => Follows(previous, next) && SameConfiguration(previous.value, next.value)
                    && previous.value.desired.Present? && next.value.desired.Present?
                    && next.value.restartGeneration == previous.value.restartGeneration + 1
  }

  // -------------------------------------------------------------------------
  // Restart accounting

  /** A run of accepted changes to one container that is never absent. */
  ghost predicate AcceptedRun(specs: seq<Spec>) {
    && |specs| > 0
    && (forall i :: 0 <= i < |specs| ==> specs[i].kind.Container? && IsPresent(specs[i]) && Decodable(specs[i]))
    && (forall i :: 0 <= i < |specs| - 1 ==> Accepted(specs[i], specs[i + 1]))
  }

  predicate Accepted(a: Spec, b: Spec) {
    PlanEffect(Some(a), Some(b)).Ok?
  }

  predicate IsRestart(a: Spec, b: Spec) {
    PlanEffect(Some(a), Some(b)) == Ok(Restart)
  }

  /** How many of the first `t` changes are restarts. */
  ghost function Restarts(specs: seq<Spec>, t: nat): nat
    requires t < |specs|
  {
    if t == 0 then 0 else Restarts(specs, t - 1) + (if IsRestart(specs[t - 1], specs[t]) then 1 else 0)
  }

  lemma StepGeneration(a: Spec, b: Spec)
    requires a.kind.Container? && IsPresent(a) && IsPresent(b) && b.kind.Container? && Decodable(a) && Accepted(a, b)
    ensures a.restartGeneration <= b.restartGeneration <= a.restartGeneration + 1
    ensures a.restartGeneration == U64_MAX ==> b.restartGeneration == U64_MAX
    ensures IsRestart(a, b) ==> b.restartGeneration == a.restartGeneration + 1
  {
  }

  /** Over a whole run the generation never falls, rises by at most one a step, and pays for every restart;
      at its upper bound it stays put. */
  lemma {:induction false} RestartAccounting(specs: seq<Spec>, t: nat)
    requires AcceptedRun(specs) && t < |specs|
    ensures specs[0].restartGeneration + Restarts(specs, t) <= specs[t].restartGeneration <= specs[0].restartGeneration + t
    ensures specs[0].restartGeneration == U64_MAX ==> specs[t].restartGeneration == U64_MAX && Restarts(specs, t) == 0
  {
    if t == 0 {
    } else {
      RestartAccounting(specs, t - 1);
      assert Accepted(specs[t - 1], specs[t - 1 + 1]);
      StepGeneration(specs[t - 1], specs[t]);
    }
  }

  // -------------------------------------------------------------------------
  // Docker

  /** `owned` says that labels and every fixed setting are the ones this agent gives. */
  datatype Object = Object(
    owned: bool, id: nat, running: bool, startedAt: nat, image: string, network: Option<string>, dns: seq<string>, ipam: string
  )

  datatype Key = Key(kind: Kind, name: string)

  type Objects = map<Key, Object>

  /** What a compare-and-swap looks at. */
  datatype Fingerprint = Fingerprint(id: nat, running: bool, startedAt: nat)

  function KeyOf(s: Spec): Key {
    Key(s.kind, s.name)
  }

  function Find(o: Objects, k: Key): Option<Object> {
    if k in o then Some(o[k]) else None
  }

  function NetworkSpec(name: string): Spec {
    Spec(name, BridgeNetwork, Present, "", None, [], 0, "")
  }

  /** Some running container is on network `name`. */
  predicate Attached(o: Objects, name: string) {
    exists k :: k in o && k.kind.Container? && o[k].running && o[k].network == Some(name)
  }

  predicate Configured(s: Spec, x: Object, checkIpam: bool) {
    match s.kind
    case LocalVolume => x.owned
    case BridgeNetwork => x.owned && (checkIpam ==> x.ipam == s.ipam)
    case Container => x.owned && x.image == s.image && x.network == s.network && x.dns == s.dns
  }

  function Print(s: Spec, x: Object): Fingerprint {
    if s.kind.Container? then Fingerprint(x.id, x.running, x.startedAt) else Fingerprint(x.id, false, 0)
  }

  /** `observe_managed_docker_object`: absent, ours, or an error for anything foreign or drifted. */
  function Observe(o: Objects, s: Spec, forDelete: bool, checkIpam: bool): Result<Option<Fingerprint>> {
    if KeyOf(s) !in o then Ok(None)
    else if !Configured(s, o[KeyOf(s)], checkIpam) then Err("HOST_VM_DOCKER_FOREIGN_OR_CONFIG_DRIFT")
    else if s.kind.BridgeNetwork? && forDelete && Attached(o, s.name) then Err("HOST_VM_DOCKER_NETWORK_ATTACHED_OR_UNPROVEN")
    else Ok(Some(Print(s, o[KeyOf(s)])))
  }

  // -------------------------------------------------------------------------
  // The separate readback

  datatype Reason =
    | DesiredAbsent | UnexpectedPresent | MissingObject | DesiredRunning | DesiredStopped | StateMismatch | DesiredPresent

  /** `managed_docker_state_reason`. */
  function StateReason(kind: Kind, desired: Desired, found: Option<Fingerprint>): (Reason, bool) {
    if desired.Absent? then (if found.None? then (DesiredAbsent, true) else (UnexpectedPresent, false))
    else if found.None? then (MissingObject, false)
    else if kind.Container? then
      if desired.Present? && found.value.running then (DesiredRunning, true)
      else if desired.Stopped? && !found.value.running then (DesiredStopped, true)
      else (StateMismatch, false)
    else (DesiredPresent, true)
  }

  /** One row of `collect_native_managed_docker_readback`. */
  predicate ReadbackConverged(o: Objects, s: Spec) {
    && (s.kind.Container? && !s.desired.Absent? && s.network.Some? ==>
          var n := Observe(o, NetworkSpec(s.network.value), false, false);
          n.Ok? && n.value.Some?)
    && var own := Observe(o, s, false, true);
       own.Ok? && StateReason(s.kind, s.desired, own.value).1
  }

  /** The object is as the manifest says: absent, or there with its configuration and running state. */
  predicate AsDeclared(o: Objects, s: Spec) {
    if s.desired.Absent? then KeyOf(s) !in o
    else
      && KeyOf(s) in o && o[KeyOf(s)].owned
      && (s.kind.BridgeNetwork? ==> o[KeyOf(s)].ipam == s.ipam)
      && (s.kind.Container? ==>
            && o[KeyOf(s)].image == s.image && o[KeyOf(s)].network == s.network && o[KeyOf(s)].dns == s.dns
            && o[KeyOf(s)].running == s.desired.Present?
            && (s.network.Some? ==> OwnNetwork(o, s.network.value)))
  }

  predicate OwnNetwork(o: Objects, name: string) {
    Key(BridgeNetwork, name) in o && o[Key(BridgeNetwork, name)].owned
  }

  /** The readback calls converged exactly what is as declared. */
  lemma ConvergedIff(o: Objects, s: Spec)
    requires Decodable(s)
    ensures ReadbackConverged(o, s) <==> AsDeclared(o, s)
  {
  }

  // -------------------------------------------------------------------------
  // Prepared plans

  datatype Prepared = Prepared(
    previous: Option<Spec>,
    next: Option<Spec>,
    effect: Effect,
    original: Option<Fingerprint>,
    originalNetwork: Option<Fingerprint>,
    targetNetwork: Option<Fingerprint>
  )

  /** The manifest the plan is about. */
  function Subject(p: Prepared): Spec
    requires p.next.Some? || p.previous.Some?
  {
    if p.next.Some? then p.next.value else p.previous.value
  }

  /** What the object is compared against before the effect. */
  function OldSpec(p: Prepared): Spec
    requires p.next.Some? || p.previous.Some?
  {
    if Wanted(p.previous) then p.previous.value else Subject(p)
  }

  /** The plan's own consistency, which `preflight_managed_docker_object` establishes. */
  predicate Planned(p: Prepared) {
    && (p.next.Some? || p.previous.Some?)
    && (p.previous.Some? ==> Decodable(p.previous.value))
    && (p.next.Some? ==> Decodable(p.next.value))
    && (p.previous.Some? && p.next.Some? ==> p.previous.value.name == p.next.value.name && p.previous.value.kind == p.next.value.kind)
    && PlanEffect(p.previous, p.next) == Ok(p.effect)
    && (p.original.Some? <==> Wanted(p.previous))
    && (p.original.Some? && p.previous.value.kind.Container? ==> (p.original.value.running <==> p.previous.value.desired.Present?))
    && (p.originalNetwork.Some? <==> Wanted(p.previous) && p.previous.value.kind.Container? && p.previous.value.network.Some?)
    && (p.targetNetwork.Some? <==> Wanted(p.next) && p.next.value.kind.Container? && p.next.value.network.Some?)
  }

  predicate NetworkIs(o: Objects, name: string, expected: Fingerprint) {
    Observe(o, NetworkSpec(name), false, false) == Ok(Some(expected))
  }

  /** `exact_network_cas` for both networks: what the plan admitted is still what Docker shows. */
  predicate NetworksHold(o: Objects, p: Prepared)
    requires Planned(p)
  {
    && (p.originalNetwork.Some? ==> NetworkIs(o, p.previous.value.network.value, p.originalNetwork.value))
    && (p.targetNetwork.Some? ==> NetworkIs(o, p.next.value.network.value, p.targetNetwork.value))
  }

  predicate CasHolds(o: Objects, p: Prepared)
    requires Planned(p)
  {
    Observe(o, OldSpec(p), p.effect.Delete?, true) == Ok(p.original) && NetworksHold(o, p)
  }

  // -------------------------------------------------------------------------
  // The states an effect passes through

  ghost predicate FreshObject(s: Spec, x: Object, original: Option<Fingerprint>) {
    Configured(s, x, true) && (original.Some? ==> x.id != original.value.id)
  }

  /** Where the named object can be, given where it was. */
  ghost predicate Intermediate(p: Prepared, was: Option<Object>, now: Option<Object>)
    requires Planned(p)
  {
    var s := Subject(p);
    || now == was
    || (match p.effect
        case Create => now.Some? && FreshObject(s, now.value, p.original) && (now.value.running ==> s.kind.Container? && s.desired.Present?)
        case Delete => now.None? || HaltedFrom(s, was, now)
        case Start => now.Some? && was.Some? && now.value == was.value.(running := true, startedAt := now.value.startedAt)
        case Stop => HaltedFrom(s, was, now)
        case Restart => now.Some? && was.Some? && now.value == was.value.(running := now.value.running, startedAt := now.value.startedAt)
        case Replace =>
          || now.None?
          || HaltedFrom(s, was, now)
          || (FreshObject(s, now.value, p.original) && (now.value.running ==> s.desired.Present?)))
  }

  ghost predicate HaltedFrom(s: Spec, was: Option<Object>, now: Option<Object>) {
    s.kind.Container? && was.Some? && now == Some(was.value.(running := false))
  }

  /** Only the named object may differ, and only within the effect's own sequence. */
  ghost predicate Within(p: Prepared, before: Objects, now: Objects)
    requires Planned(p)
  {
    var k := KeyOf(Subject(p));
    Only(k, before, now) && Intermediate(p, Find(before, k), Find(now, k))
  }

  /** Nothing but `k` differs. */
  ghost predicate Only(k: Key, before: Objects, now: Objects) {
    forall other :: other != k ==> Find(now, other) == Find(before, other)
  }

  // -------------------------------------------------------------------------
  // The engine

  function NewObject(s: Spec, id: nat): Object {
    Object(true, id, false, 0, s.image, s.network, s.dns, s.ipam)
  }

  class Engine {
    var objects: Objects
    var nextId: nat
    const reliable: bool
    /** Every state the engine has been left in by a call. */
    ghost var points: seq<Objects>

    ghost predicate Valid()
      reads this
    {
      forall k :: k in objects ==> objects[k].id < nextId && objects[k].startedAt < nextId
    }

    constructor (objects: Objects, nextId: nat, reliable: bool)
      requires forall k :: k in objects ==> objects[k].id < nextId && objects[k].startedAt < nextId
      ensures Valid() && this.objects == objects && this.reliable == reliable && points == []
    {
      this.objects, this.nextId, this.reliable := objects, nextId, reliable;
      points := [];
    }

    /** One request: refused, or done, or lost with or without its effect. */
    method Request(k: Key, possible: bool, result: Option<Object>) returns (ok: bool)
      requires Valid() && (result.Some? ==> result.value.id <= nextId && result.value.startedAt <= nextId)
      modifies this
      ensures Valid()
      ensures objects == old(objects) || (possible && objects == With(old(objects), k, result))
      ensures ok ==> possible && objects == With(old(objects), k, result)
      ensures points == old(points) + [objects]
      ensures reliable && possible ==> ok
      ensures nextId > old(nextId)
    {
      var effect: bool := *;
      ok := *;
      ok := (ok || reliable) && possible;
      if (effect || ok) && possible {
        objects := With(objects, k, result);
      }
      nextId := nextId + 1;
      points := points + [objects];
    }

    method CreateObject(s: Spec) returns (ok: bool)
      requires Valid()
      modifies this
      ensures Valid()
      ensures objects == old(objects) || (KeyOf(s) !in old(objects) && objects == old(objects)[KeyOf(s) := NewObject(s, old(nextId))])
      ensures ok ==> KeyOf(s) !in old(objects) && objects == old(objects)[KeyOf(s) := NewObject(s, old(nextId))]
      ensures points == old(points) + [objects]
      ensures reliable && KeyOf(s) !in old(objects) ==> ok
      ensures nextId >= old(nextId)
    {
      ok := Request(KeyOf(s), KeyOf(s) !in objects, Some(NewObject(s, nextId)));
    }

    method StartObject(k: Key) returns (ok: bool)
      requires Valid() && k in objects
      modifies this
      ensures Valid()
      ensures objects == old(objects) || objects == old(objects)[k := old(objects)[k].(running := true, startedAt := old(nextId))]
      ensures ok ==> objects == old(objects)[k := old(objects)[k].(running := true, startedAt := old(nextId))]
      ensures points == old(points) + [objects]
      ensures reliable ==> ok
    {
      ok := Request(k, true, Some(objects[k].(running := true, startedAt := nextId)));
    }

    method StopObject(k: Key) returns (ok: bool)
      requires Valid() && k in objects
      modifies this
      ensures Valid()
      ensures objects == old(objects) || objects == old(objects)[k := old(objects)[k].(running := false)]
      ensures ok ==> objects == old(objects)[k := old(objects)[k].(running := false)]
      ensures points == old(points) + [objects]
      ensures reliable ==> ok
      ensures nextId >= old(nextId)
    {
      ok := Request(k, true, Some(objects[k].(running := false)));
    }

    /** A restart that fails can leave the container down. */
    method RestartObject(k: Key) returns (ok: bool)
      requires Valid() && k in objects
      modifies this
      ensures Valid()
      ensures TogglePath(k, Restart, old(objects), objects)
      ensures forall o :: o in points ==> o in old(points) || TogglePath(k, Restart, old(objects), o)
      ensures ok ==> objects[k].running && objects[k].startedAt != old(objects)[k].startedAt
      ensures reliable ==> ok
    {
      var halted := Request(k, true, Some(objects[k].(running := false)));
      if !halted {
        return false;
      }
      ok := Request(k, true, Some(objects[k].(running := true, startedAt := nextId)));
    }

    /** A running container and a network in use cannot be removed. */
    method RemoveObject(k: Key) returns (ok: bool)
      requires Valid() && k in objects
      modifies this
      ensures Valid()
      ensures objects == old(objects) || objects == old(objects) - {k}
      ensures ok ==> objects == old(objects) - {k}
      ensures points == old(points) + [objects]
      ensures reliable && Removable(old(objects), k) ==> ok
      ensures nextId >= old(nextId)
    {
      ok := Request(k, Removable(objects, k), None);
    }

    /** A read that can fail but changes nothing. */
    method Readable() returns (ok: bool)
      ensures reliable ==> ok
    {
      ok := *;
      ok := ok || reliable;
    }
  }

  predicate Removable(o: Objects, k: Key)
    requires k in o
  {
    (k.kind.Container? ==> !o[k].running) && (k.kind.BridgeNetwork? ==> !Attached(o, k.name))
  }

  function With(o: Objects, k: Key, x: Option<Object>): Objects {
    if x.Some? then o[k := x.value] else o - {k}
  }

  // -------------------------------------------------------------------------
  // Preflight

  /** `preflight_managed_docker_object`. */
  method Preflight(engine: Engine, previous: Option<Spec>, next: Option<Spec>) returns (r: Result<Prepared>)
    requires previous.Some? ==> Decodable(previous.value)
    requires next.Some? ==> Decodable(next.value)
    ensures r.Ok? ==> r.value.previous == previous && r.value.next == next && Planned(r.value) && CasHolds(engine.objects, r.value)
    ensures r.Ok? ==> CalledFor(previous, next, r.value.effect)
    ensures engine.reliable && (exists p: Prepared :: p.previous == previous && p.next == next && Planned(p) && CasHolds(engine.objects, p)) ==> r.Ok?
  {
    if previous.None? && next.None? {
      return Err("HOST_VM_DOCKER_RESOURCE_SCOPE_EMPTY");
    }
    if previous.Some? && next.Some? && (previous.value.name != next.value.name || previous.value.kind != next.value.kind) {
      return Err("HOST_VM_DOCKER_RESOURCE_IDENTITY_CHANGE_UNSUPPORTED");
    }
    EffectsExactly(previous, next);
    var effect := PlanEffect(previous, next);
    if effect.Err? {
      return Err(effect.code);
    }
    var readable := engine.Readable();
    if !readable {
      return Err("HOST_VM_DOCKER_READBACK_UNAVAILABLE");
    }
    var subject := if next.Some? then next.value else previous.value;
    var oldSpec := if Wanted(previous) then previous.value else subject;
    var physical := Observe(engine.objects, oldSpec, effect.value.Delete?, true);
    if physical.Err? {
      return Err(physical.code);
    }
    if physical.value.Some? != Wanted(previous) {
      return Err("HOST_VM_DOCKER_PRESTATE_NOT_CONVERGED");
    }
    if physical.value.Some? && previous.value.kind.Container? && physical.value.value.running != previous.value.desired.Present? {
      return Err("HOST_VM_DOCKER_CONTAINER_PRESTATE_RUNNING_DRIFT");
    }
    var originalNetwork, ok1 := AdmitNetwork(engine, previous);
    if !ok1 {
      return Err("HOST_VM_DOCKER_CONTAINER_PREVIOUS_NETWORK_NOT_OWNED");
    }
    var targetNetwork, ok2 := AdmitNetwork(engine, next);
    if !ok2 {
      return Err("HOST_VM_DOCKER_CONTAINER_NETWORK_NOT_OWNED");
    }
    r := Ok(Prepared(previous, next, effect.value, physical.value, originalNetwork, targetNetwork));
  }

  predicate OnNetwork(s: Option<Spec>) {
    Wanted(s) && s.value.kind.Container? && s.value.network.Some?
  }

  /** The fingerprint of the owned network a wanted container is to be on. */
  method AdmitNetwork(engine: Engine, s: Option<Spec>) returns (found: Option<Fingerprint>, ok: bool)
    ensures ok ==> (found.Some? <==> OnNetwork(s))
    ensures ok && found.Some? ==> NetworkIs(engine.objects, s.value.network.value, found.value)
    ensures !ok ==> OnNetwork(s) && forall f :: !NetworkIs(engine.objects, s.value.network.value, f)
  {
    if !OnNetwork(s) {
      return None, true;
    }
    var observed := Observe(engine.objects, NetworkSpec(s.value.network.value), false, false);
    if observed.Err? || observed.value.None? {
      return None, false;
    }
    return observed.value, true;
  }

  // -------------------------------------------------------------------------
  // Effects

  /** The named object is where the effect was to bring it. */
  ghost predicate Achieved(p: Prepared, now: Option<Object>)
    requires Planned(p)
  {
    var s := Subject(p);
    if p.effect.Delete? then now.None?
    else
      && now.Some? && Configured(s, now.value, true)
      && (s.kind.Container? ==> (now.value.running <==> s.desired.Present?))
      && (p.effect.Create? || p.effect.Replace? || p.effect.Restart? ==> p.original != Some(Print(s, now.value)))
  }

  // The calls, without reference to a plan.

  ghost predicate CreatePath(s: Spec, base: Objects, floor: nat, o: Objects) {
    && Only(KeyOf(s), base, o)
    && (KeyOf(s) in o ==>
          var x := o[KeyOf(s)];
          Configured(s, x, true) && x.id >= floor && (x.running ==> s.kind.Container? && s.desired.Present?))
  }

  /** `create_managed_container`, or the one call that creates a volume or network. */
  method CreateStep(engine: Engine, s: Spec) returns (ok: bool)
    requires engine.Valid() && KeyOf(s) !in engine.objects
    modifies engine
    ensures engine.Valid()
    ensures CreatePath(s, old(engine.objects), old(engine.nextId), engine.objects)
    ensures forall o :: o in engine.points ==> o in old(engine.points) || CreatePath(s, old(engine.objects), old(engine.nextId), o)
    ensures ok ==> KeyOf(s) in engine.objects && (s.kind.Container? ==> (engine.objects[KeyOf(s)].running <==> s.desired.Present?))
    ensures engine.reliable ==> ok
  {
    var pulled := engine.Readable();
    if !pulled {
      return false;
    }
    ok := engine.CreateObject(s);
    if ok && s.kind.Container? && s.desired.Present? {
      ok := engine.StartObject(KeyOf(s));
    }
  }

  ghost predicate RemovePath(k: Key, base: Objects, o: Objects) {
    && Only(k, base, o)
    && k in base
    && (k in o ==> o[k] == base[k] || (k.kind.Container? && o[k] == base[k].(running := false)))
  }

  /** Stop when asked to, then remove. */
  method RemoveStep(engine: Engine, k: Key, stopFirst: bool) returns (ok: bool)
    requires engine.Valid() && k in engine.objects && (stopFirst ==> k.kind.Container?)
    modifies engine
    ensures engine.Valid() && engine.nextId >= old(engine.nextId)
    ensures RemovePath(k, old(engine.objects), engine.objects)
    ensures forall o :: o in engine.points ==> o in old(engine.points) || RemovePath(k, old(engine.objects), o)
    ensures ok ==> k !in engine.objects
    ensures engine.reliable && (stopFirst || Removable(old(engine.objects), k)) ==> ok
  {
    if stopFirst {
      var stopped := engine.StopObject(k);
      if !stopped {
        return false;
      }
    }
    ok := engine.RemoveObject(k);
  }

  ghost predicate TogglePath(k: Key, effect: Effect, base: Objects, o: Objects) {
    && Only(k, base, o)
    && k in base && k in o
    && (o[k] == base[k] || o[k] == base[k].(running := !effect.Stop?, startedAt := o[k].startedAt)
        || (effect.Restart? && o[k] == base[k].(running := false)))
    && (effect.Stop? ==> o[k].startedAt == base[k].startedAt)
  }

  /** Start, stop or restart of an existing container. */
  method ToggleStep(engine: Engine, k: Key, effect: Effect) returns (ok: bool)
    requires engine.Valid() && k in engine.objects && (effect.Start? || effect.Stop? || effect.Restart?)
    modifies engine
    ensures engine.Valid()
    ensures TogglePath(k, effect, old(engine.objects), engine.objects)
    ensures forall o :: o in engine.points ==> o in old(engine.points) || TogglePath(k, effect, old(engine.objects), o)
    ensures ok ==> engine.objects[k].running == !effect.Stop?
    ensures ok && effect.Restart? ==> engine.objects[k].startedAt != old(engine.objects)[k].startedAt
    ensures engine.reliable ==> ok
  {
    match effect
    case Start => ok := engine.StartObject(k);
    case Stop => ok := engine.StopObject(k);
    case Restart => ok := engine.RestartObject(k);
  }

  // -------------------------------------------------------------------------
  // From calls to the plan

  /** An engine run from `before` has stayed within the plan. */
  ghost predicate StayedWithin(p: Prepared, before: Objects, earlier: seq<Objects>, points: seq<Objects>, now: Objects)
    requires Planned(p)
  {
    Within(p, before, now) && forall o :: o in points ==> o in earlier || Within(p, before, o)
  }

  lemma CreateWithin(p: Prepared, before: Objects, base: Objects, floor: nat, o: Objects)
    requires Planned(p) && (p.effect.Create? || p.effect.Replace?)
    requires Only(KeyOf(Subject(p)), before, base) && (p.original.Some? ==> p.original.value.id < floor)
    requires p.effect.Create? ==> KeyOf(Subject(p)) !in before
    requires CreatePath(Subject(p), base, floor, o)
    ensures Within(p, before, o)
  {
    var k := KeyOf(Subject(p));
    forall other | other != k ensures Find(o, other) == Find(before, other) {
      assert Find(o, other) == Find(base, other);
    }
  }

  lemma RemoveWithin(p: Prepared, before: Objects, o: Objects)
    requires Planned(p) && (p.effect.Delete? || p.effect.Replace?)
    requires RemovePath(KeyOf(Subject(p)), before, o)
    ensures Within(p, before, o)
  {
  }

  lemma ToggleWithin(p: Prepared, before: Objects, o: Objects)
    requires Planned(p) && (p.effect.Start? || p.effect.Stop? || p.effect.Restart?)
    requires TogglePath(KeyOf(Subject(p)), p.effect, before, o)
    ensures Within(p, before, o)
  {
  }

  /** What the compare-and-swap has established about the object itself. */
  lemma CasMeaning(o: Objects, p: Prepared)
    requires Planned(p) && CasHolds(o, p)
    ensures var k := KeyOf(Subject(p));
      && (k in o <==> Wanted(p.previous))
      && (k in o ==> Configured(p.previous.value, o[k], true) && p.original == Some(Print(Subject(p), o[k])))
      && (k in o && k.kind.Container? ==> (o[k].running <==> p.previous.value.desired.Present?))
      && (k in o && p.effect.Delete? ==> (k.kind.BridgeNetwork? ==> !Attached(o, k.name)))
  {
    assert KeyOf(OldSpec(p)) == KeyOf(Subject(p));
  }

  /** What the compare-and-swap refuses: an object that came, went, was exchanged or has changed its running state since
      the plan, and either of its networks exchanged or lost. */
  lemma CasRefuses(o: Objects, p: Prepared)
    requires Planned(p) && CasHolds(o, p)
    ensures var k := KeyOf(Subject(p));
      && (k in o <==> p.original.Some?)
      && (k in o ==> o[k].id == p.original.value.id)
      && (k in o && k.kind.Container? ==> o[k].running == p.original.value.running && o[k].startedAt == p.original.value.startedAt)
    ensures p.originalNetwork.Some? ==>
      OwnNetwork(o, p.previous.value.network.value) && o[Key(BridgeNetwork, p.previous.value.network.value)].id == p.originalNetwork.value.id
    ensures p.targetNetwork.Some? ==>
      OwnNetwork(o, p.next.value.network.value) && o[Key(BridgeNetwork, p.next.value.network.value)].id == p.targetNetwork.value.id
  {
    CasMeaning(o, p);
  }

  /** Effects by kind of plan. */
  lemma EffectMeaning(p: Prepared)
    requires Planned(p)
    ensures p.effect.Create? <==> !Wanted(p.previous)
    ensures p.effect.Delete? <==> !Wanted(p.next)
    ensures p.effect.Replace? || p.effect.Start? || p.effect.Stop? || p.effect.Restart? ==> Subject(p).kind.Container?
    ensures p.effect.Start? || p.effect.Stop? || p.effect.Restart? ==>
      var a, b := p.previous.value, p.next.value;
      a.image == b.image && a.network == b.network && a.dns == b.dns && b.desired.Present? == !p.effect.Stop?
  {
  }

  method PerformCreate(engine: Engine, p: Prepared) returns (ok: bool)
    requires Planned(p) && p.effect.Create? && engine.Valid() && CasHolds(engine.objects, p)
    modifies engine
    ensures engine.Valid() && StayedWithin(p, old(engine.objects), old(engine.points), engine.points, engine.objects)
    ensures ok ==> Achieved(p, Find(engine.objects, KeyOf(Subject(p))))
    ensures engine.reliable ==> ok
  {
    ghost var before, floor := engine.objects, engine.nextId;
    CasMeaning(before, p);
    EffectMeaning(p);
    ok := CreateStep(engine, Subject(p));
    forall o | CreatePath(Subject(p), before, floor, o) ensures Within(p, before, o) {
      CreateWithin(p, before, before, floor, o);
    }
  }

  method PerformDelete(engine: Engine, p: Prepared) returns (ok: bool)
    requires Planned(p) && p.effect.Delete? && engine.Valid() && CasHolds(engine.objects, p)
    modifies engine
    ensures engine.Valid() && StayedWithin(p, old(engine.objects), old(engine.points), engine.points, engine.objects)
    ensures ok ==> Achieved(p, Find(engine.objects, KeyOf(Subject(p))))
    ensures engine.reliable ==> ok
  {
    ghost var before := engine.objects;
    CasMeaning(before, p);
    EffectMeaning(p);
    var k := KeyOf(Subject(p));
    var bridge := engine.Readable();
    if !bridge {
      return false;
    }
    ok := RemoveStep(engine, k, k.kind.Container? && p.previous.value.desired.Present?);
    forall o | RemovePath(k, before, o) ensures Within(p, before, o) {
      RemoveWithin(p, before, o);
    }
  }

  method PerformToggle(engine: Engine, p: Prepared) returns (ok: bool)
    requires Planned(p) && (p.effect.Start? || p.effect.Stop? || p.effect.Restart?) && engine.Valid() && CasHolds(engine.objects, p)
    modifies engine
    ensures engine.Valid() && StayedWithin(p, old(engine.objects), old(engine.points), engine.points, engine.objects)
    ensures ok ==> Achieved(p, Find(engine.objects, KeyOf(Subject(p))))
    ensures engine.reliable ==> ok
  {
    ghost var before := engine.objects;
    CasMeaning(before, p);
    EffectMeaning(p);
    var k := KeyOf(Subject(p));
    ok := ToggleStep(engine, k, p.effect);
    forall o | TogglePath(k, p.effect, before, o) ensures Within(p, before, o) {
      ToggleWithin(p, before, o);
    }
  }

  method PerformReplace(engine: Engine, p: Prepared) returns (ok: bool)
    requires Planned(p) && p.effect.Replace? && engine.Valid() && CasHolds(engine.objects, p)
    modifies engine
    ensures engine.Valid() && StayedWithin(p, old(engine.objects), old(engine.points), engine.points, engine.objects)
    ensures ok ==> Achieved(p, Find(engine.objects, KeyOf(Subject(p))))
    ensures engine.reliable ==> ok
  {
    ghost var before := engine.objects;
    CasMeaning(before, p);
    EffectMeaning(p);
    var k := KeyOf(Subject(p));
    var removed := RemoveStep(engine, k, p.previous.value.desired.Present?);
    forall o | RemovePath(k, before, o) ensures Within(p, before, o) {
      RemoveWithin(p, before, o);
    }
    if !removed {
      return false;
    }
    ghost var base, floor := engine.objects, engine.nextId;
    ok := CreateStep(engine, Subject(p));
    forall o | CreatePath(Subject(p), base, floor, o) ensures Within(p, before, o) {
      CreateWithin(p, before, base, floor, o);
    }
  }

  // -------------------------------------------------------------------------
  // Apply

  /** The checks after the effect. */
  predicate PoststateHolds(o: Objects, p: Prepared)
    requires Planned(p)
  {
    var s := Subject(p);
    var seen := Observe(o, s, false, true);
    && seen.Ok?
    && (seen.value.Some? <==> !p.effect.Delete?)
    && (p.targetNetwork.Some? ==> NetworkIs(o, p.next.value.network.value, p.targetNetwork.value))
    && (s.kind.Container? && seen.value.Some? ==>
          && (seen.value.value.running <==> s.desired.Present?)
          && (p.effect.Create? || p.effect.Replace? || p.effect.Restart? ==> seen.value != p.original))
  }

  /** The poststate check is what the separate readback looks for. */
  lemma PoststateIsConverged(o: Objects, p: Prepared)
    requires Planned(p) && PoststateHolds(o, p)
    ensures p.next.Some? ==> ReadbackConverged(o, p.next.value)
    ensures !Wanted(p.next) ==> KeyOf(Subject(p)) !in o
  {
    EffectMeaning(p);
  }

  /** A created, replaced or restarted container that passes the checks is not the very one the plan saw. */
  lemma PoststateProvesChange(o: Objects, p: Prepared)
    requires Planned(p) && PoststateHolds(o, p) && Subject(p).kind.Container? && p.original.Some?
    requires p.effect.Create? || p.effect.Replace? || p.effect.Restart?
    ensures var k := KeyOf(Subject(p));
      k in o && Fingerprint(o[k].id, o[k].running, o[k].startedAt) != p.original.value
  {
  }

  lemma AchievedPasses(before: Objects, o: Objects, p: Prepared)
    requires Planned(p) && CasHolds(before, p) && Within(p, before, o)
    requires Achieved(p, Find(o, KeyOf(Subject(p))))
    ensures PoststateHolds(o, p)
  {
    EffectMeaning(p);
    if p.targetNetwork.Some? {
      var n := NetworkSpec(p.next.value.network.value);
      assert KeyOf(n) != KeyOf(Subject(p));
      assert Find(o, KeyOf(n)) == Find(before, KeyOf(n));
    }
  }

  /** Both manifests want the same container, configured alike. */
  predicate OnlyItsStateChanges(p: Prepared) {
    Asks(p.previous) && Asks(p.next) && SameConfiguration(p.previous.value, p.next.value)
  }

  /** The container is still the one it was. */
  ghost predicate SameContainer(p: Prepared, before: Objects, o: Objects)
    requires Planned(p)
  {
    var k := KeyOf(Subject(p));
    k in before && k in o && o[k] == before[k].(running := o[k].running, startedAt := o[k].startedAt)
  }

  lemma IdentityKept(p: Prepared, before: Objects)
    requires Planned(p) && CasHolds(before, p) && OnlyItsStateChanges(p)
    ensures forall o :: Within(p, before, o) ==> SameContainer(p, before, o)
  {
    EffectsExactly(p.previous, p.next);
    CasMeaning(before, p);
  }

  /** A container that has become what a changed configuration wants is a new one. */
  lemma ChangedMeansNew(p: Prepared, before: Objects, o: Objects)
    requires Planned(p) && CasHolds(before, p) && Within(p, before, o)
    requires Asks(p.previous) && Asks(p.next) && !SameConfiguration(p.previous.value, p.next.value)
    requires AsDeclared(o, p.next.value)
    ensures var k := KeyOf(Subject(p)); k in before && k in o && o[k].id != before[k].id
  {
    EffectsExactly(p.previous, p.next);
    CasMeaning(before, p);
  }

  /** A restart that passes the checks has started the same container anew. */
  lemma RestartMeansStartedAnew(p: Prepared, before: Objects, o: Objects)
    requires Planned(p) && CasHolds(before, p) && Within(p, before, o) && PoststateHolds(o, p)
    requires CalledFor(p.previous, p.next, Restart)
    ensures var k := KeyOf(Subject(p)); k in before && k in o && o[k].startedAt != before[k].startedAt
  {
    EffectsExactly(p.previous, p.next);
    CasMeaning(before, p);
  }

  /** `apply_managed_docker_object_once`. */
  method ApplyManagedObject(engine: Engine, p: Prepared) returns (r: Result<()>)
    requires Planned(p) && engine.Valid()
    modifies engine
    ensures engine.Valid() && StayedWithin(p, old(engine.objects), old(engine.points), engine.points, engine.objects)
    ensures !CasHolds(old(engine.objects), p) ==> r.Err? && engine.objects == old(engine.objects) && engine.points == old(engine.points)
    ensures CasHolds(old(engine.objects), p) && OnlyItsStateChanges(p) ==>
      && SameContainer(p, old(engine.objects), engine.objects)
      && forall o :: o in engine.points ==> o in old(engine.points) || SameContainer(p, old(engine.objects), o)
    ensures r.Ok? && p.next.Some? ==> ReadbackConverged(engine.objects, p.next.value) && AsDeclared(engine.objects, p.next.value)
    ensures r.Ok? && !Wanted(p.next) ==> KeyOf(Subject(p)) !in engine.objects
    ensures r.Ok? && Asks(p.previous) && Asks(p.next) && !SameConfiguration(p.previous.value, p.next.value) ==>
      var k := KeyOf(Subject(p)); k in old(engine.objects) && k in engine.objects && engine.objects[k].id != old(engine.objects)[k].id
    ensures r.Ok? && CalledFor(p.previous, p.next, Restart) ==>
      var k := KeyOf(Subject(p)); k in old(engine.objects) && k in engine.objects && engine.objects[k].startedAt != old(engine.objects)[k].startedAt
    ensures engine.reliable && CasHolds(old(engine.objects), p) ==> r.Ok?
  {
    ghost var before := engine.objects;
    if CasHolds(before, p) && OnlyItsStateChanges(p) {
      IdentityKept(p, before);
    }
    var readable := engine.Readable();
    if !readable || !CasHolds(engine.objects, p) {
      return Err("HOST_VM_DOCKER_OBJECT_CAS_CHANGED_NO_REPLAY");
    }
    r := EffectAndPoststate(engine, p);
    if r.Ok? && CalledFor(p.previous, p.next, Restart) {
      RestartMeansStartedAnew(p, before, engine.objects);
    }
    if r.Ok? && p.next.Some? {
      ConvergedIff(engine.objects, p.next.value);
      if Asks(p.previous) && Asks(p.next) && !SameConfiguration(p.previous.value, p.next.value) {
        ChangedMeansNew(p, before, engine.objects);
      }
    }
  }

  /** The planned effect and the checks after it. */
  method EffectAndPoststate(engine: Engine, p: Prepared) returns (r: Result<()>)
    requires Planned(p) && engine.Valid() && CasHolds(engine.objects, p)
    modifies engine
    ensures engine.Valid() && StayedWithin(p, old(engine.objects), old(engine.points), engine.points, engine.objects)
    ensures r.Ok? && p.next.Some? ==> ReadbackConverged(engine.objects, p.next.value)
    ensures r.Ok? && !Wanted(p.next) ==> KeyOf(Subject(p)) !in engine.objects
    ensures r.Ok? ==> PoststateHolds(engine.objects, p)
    ensures engine.reliable ==> r.Ok?
  {
    ghost var before := engine.objects;
    var done;
    match p.effect {
      case Create => done := PerformCreate(engine, p);
      case Delete => done := PerformDelete(engine, p);
      case Replace => done := PerformReplace(engine, p);
      case _ => done := PerformToggle(engine, p);
    }
    if !done {
      return Err("HOST_VM_DOCKER_EFFECT_UNCERTAIN_NO_REPLAY");
    }
    AchievedPasses(before, engine.objects, p);
    var readable := engine.Readable();
    if !readable || !PoststateHolds(engine.objects, p) {
      return Err("HOST_VM_DOCKER_POSTSTATE_UNPROVEN_NO_REPLAY");
    }
    PoststateIsConverged(engine.objects, p);
    r := Ok(());
  }
}
