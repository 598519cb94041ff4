/** START and STOP of the registered containers (`apply_native_vm_run_once`): one Docker call per
    container, in dependency order, any of which may fail with or without having had its effect. */
module VmRun {
  import opened Common
  import opened ServiceOrder

  /** A registered service with the dependencies its Compose file declares. */
  datatype Registered = Registered(service: string, dependencies: seq<string>)

  datatype Live = Live(id: string, running: bool, image: string)

  type Containers = map<string, Live>

  /** A container's place on the edge network: under its service name, without that name, or off it. */
  datatype Link = Named | Nameless | Detached

  type Links = map<string, Link>

  /** The pre-BEGIN snapshot, per registered service, at most one gateway to create, the services whose network name is
      to be restored, and whether one lost managed network resource is to be. */
  datatype RunPlan = RunPlan(
    start: bool, identities: seq<Option<Live>>, createMissing: Option<string>, aliasRepairs: seq<string>, networkRepair: bool
  )

  // -------------------------------------------------------------------------
  // Safety of one state

  /** Whatever this operation has started has all its dependencies running; whatever it has stopped has no
      running dependent; nothing else has changed. */
  ghost predicate SafePoint(start: bool, registered: seq<Registered>, before: Containers, now: Containers) {
    if start then StartedOnDependencies(registered, before, now) else StoppedAfterDependents(registered, before, now)
  }

  predicate Running(c: Containers, s: string) {
    s in c && c[s].running
  }

  ghost predicate StartedOnDependencies(registered: seq<Registered>, before: Containers, now: Containers) {
    && (forall s :: s in before ==> s in now && now[s] == before[s].(running := now[s].running) && (before[s].running ==> now[s].running))
    && OthersUntouched(registered, before, now)
    && forall i :: 0 <= i < |registered| ==> SupportedStart(registered[i], before, now)
  }

  /** Containers outside the registered scope neither appear nor change. */
  ghost predicate OthersUntouched(registered: seq<Registered>, before: Containers, now: Containers) {
    forall s :: s in now && !Registers(registered, s) ==> s in before && now[s] == before[s]
  }

  ghost predicate SupportedStart(r: Registered, before: Containers, now: Containers) {
    Running(now, r.service) && !Running(before, r.service) ==> forall d :: d in r.dependencies ==> Running(now, d)
  }

  ghost predicate StoppedAfterDependents(registered: seq<Registered>, before: Containers, now: Containers) {
    && now.Keys == before.Keys
    && (forall s :: s in before ==> now[s] == before[s].(running := now[s].running) && (now[s].running ==> before[s].running))
    && OthersUntouched(registered, before, now)
    && forall i :: 0 <= i < |registered| ==> SupportedStop(registered[i], before, now)
  }

  ghost predicate SupportedStop(dependent: Registered, before: Containers, now: Containers) {
    forall s :: s in dependent.dependencies && Running(before, s) && !Running(now, s) ==> !Running(now, dependent.service)
  }

  // -------------------------------------------------------------------------
  // Reading the engine

  /** `owned_application_container_ids` with `bind_owned_vm_compose_dependencies`. */
  function Inspect(c: Containers, registered: seq<Registered>): (owned: seq<Owned>)
    ensures forall i :: 0 <= i < |owned| ==> owned[i].service in c && Matches(owned[i], c[owned[i].service])
    ensures forall i :: 0 <= i < |owned| ==> Registered(owned[i].service, owned[i].dependencies) in registered
    ensures forall r :: r in registered && r.service in c ==> Offers(owned, r.service)
    ensures |owned| <= |registered|
  {
    if registered == [] then []
    else
      var rest := Inspect(c, registered[..|registered| - 1]);
      var r := registered[|registered| - 1];
      assert registered == registered[..|registered| - 1] + [r];
      if r.service in c then
        var live := c[r.service];
        var all := rest + [Owned(live.id, live.running, r.service, r.dependencies, live.image)];
        assert all[|rest|].service == r.service;
        assert forall x :: Offers(rest, x) ==> Offers(all, x) by {
          forall x | Offers(rest, x) ensures Offers(all, x) {
            var k :| 0 <= k < |rest| && rest[k].service == x;
            assert all[k].service == x;
          }
        }
        all
      else rest
  }

  predicate Matches(o: Owned, live: Live) {
    o.id == live.id && o.running == live.running && o.image == live.image
  }

  /** `resolve_compose_dependencies`: no self-dependency, nothing outside the registered scope, no repeats. */
  predicate DependenciesInScope(registered: seq<Registered>) {
    forall i :: 0 <= i < |registered| ==>
      && registered[i].service !in registered[i].dependencies
      && (forall d :: d in registered[i].dependencies ==> Registers(registered, d))
      && (forall a, b :: 0 <= a < b < |registered[i].dependencies| ==> registered[i].dependencies[a] != registered[i].dependencies[b])
  }

  predicate Registers(registered: seq<Registered>, s: string) {
    exists j :: 0 <= j < |registered| && registered[j].service == s
  }

  /** `check_owned_vm_snapshot`. */
  predicate SnapshotHolds(registered: seq<Registered>, c: Containers, identities: seq<Option<Live>>) {
    && |identities| == |registered|
    && forall i :: 0 <= i < |registered| ==>
         identities[i] == if registered[i].service in c then Some(c[registered[i].service]) else None
  }

  predicate AllRunning(owned: seq<Owned>) {
    forall i :: 0 <= i < |owned| ==> owned[i].running
  }

  predicate ImagesMatch(owned: seq<Owned>, images: map<string, string>) {
    forall i :: 0 <= i < |owned| ==> owned[i].service in images && images[owned[i].service] == owned[i].image
  }

  // -------------------------------------------------------------------------
  // The engine

  class Engine {
    var containers: Containers
    var links: Links
    /** One declared managed network resource is missing. */
    var networkLost: bool
    /** When set, no call fails. */
    const reliable: bool
    /** Every state the engine has been left in by a call of this run. */
    ghost var points: seq<Containers>
    ghost var linkPoints: seq<Links>

    constructor (containers: Containers, links: Links, networkLost: bool, reliable: bool)
      ensures this.containers == containers && this.links == links && this.networkLost == networkLost && this.reliable == reliable
      ensures points == [] && linkPoints == []
    {
      this.containers, this.links, this.networkLost, this.reliable := containers, links, networkLost, reliable;
      points, linkPoints := [], [];
    }

    /** A disconnect or connect request for one container. */
    method SetLink(s: string, link: Link) returns (ok: bool)
      modifies this`links, this`linkPoints
      ensures links == old(links) || links == old(links)[s := link]
      ensures ok ==> links == old(links)[s := link]
      ensures linkPoints == old(linkPoints) + [links]
      ensures reliable ==> ok
    {
      var effect: bool := *;
      ok := *;
      ok := ok || reliable;
      if effect || ok {
        links := links[s := link];
      }
      linkPoints := linkPoints + [links];
    }

    /** The one effect of a managed network repair. */
    method RestoreNetwork() returns (ok: bool)
      modifies this`networkLost
      ensures ok ==> !networkLost
      ensures networkLost ==> old(networkLost)
      ensures reliable ==> ok
    {
      var effect: bool := *;
      ok := *;
      ok := ok || reliable;
      if effect || ok {
        networkLost := false;
      }
    }

    /** A start or stop request: it may take effect or not, and its reply may be lost. */
    method SetRunning(s: string, on: bool) returns (ok: bool)
      requires s in containers
      modifies this`containers, this`points
      ensures containers == old(containers) || containers == old(containers)[s := old(containers)[s].(running := on)]
      ensures ok ==> containers == old(containers)[s := old(containers)[s].(running := on)]
      ensures points == old(points) + [containers]
      ensures reliable ==> ok
    {
      var effect: bool := *;
      ok := *;
      ok := ok || reliable;
      if effect || ok {
        containers := containers[s := containers[s].(running := on)];
      }
      points := points + [containers];
    }

    /** A create request under a fixed name; a name in use is refused. */
    method CreateContainer(s: string, image: string) returns (ok: bool)
      modifies this`containers, this`points
      ensures containers == old(containers) || (s !in old(containers) && exists id :: containers == old(containers)[s := Live(id, false, image)])
      ensures ok ==> s in containers && s !in old(containers) && containers == old(containers)[s := Live(containers[s].id, false, image)]
      ensures points == old(points) + [containers]
      ensures reliable ==> (ok <==> s !in old(containers))
    {
      var effect: bool := *;
      ok := *;
      ok := (ok || reliable) && s !in containers;
      if (effect || ok) && s !in containers {
        var id: string := *;
        containers := containers[s := Live(id, false, image)];
      }
      points := points + [containers];
    }

    /** A read that can fail but changes nothing. */
    method Readable() returns (ok: bool)
      ensures reliable ==> ok
    {
      ok := *;
      ok := ok || reliable;
    }
  }

  // -------------------------------------------------------------------------
  // Progress along an order

  /** The containers once the first `k` places of `order` are switched. */
  ghost function Progress(c: Containers, owned: seq<Owned>, order: seq<nat>, k: nat, on: bool): (r: Containers)
    requires Indices(order, |owned|) && k <= |order|
    requires forall i :: 0 <= i < |owned| ==> owned[i].service in c
    ensures r.Keys == c.Keys
  {
    if k == 0 then c
    else
      var s := owned[order[k - 1]].service;
      var p := Progress(c, owned, order, k - 1, on);
      p[s := p[s].(running := on)]
  }

  lemma {:induction false} ProgressMeaning(c: Containers, owned: seq<Owned>, order: seq<nat>, k: nat, on: bool, s: string)
    requires Indices(order, |owned|) && k <= |order|
    requires forall i :: 0 <= i < |owned| ==> owned[i].service in c
    requires s in c
    ensures Progress(c, owned, order, k, on)[s] == if Before(owned, order, s, k) then c[s].(running := on) else c[s]
  {
    if k == 0 {
    } else {
      ProgressMeaning(c, owned, order, k - 1, on, s);
      assert Before(owned, order, s, k) <==> Before(owned, order, s, k - 1) || s == owned[order[k - 1]].service;
    }
  }

  /** The registry decoder admits each service once. */
  predicate UniqueRegistration(registered: seq<Registered>) {
    forall i, j :: 0 <= i < j < |registered| ==> registered[i].service != registered[j].service
  }

  lemma {:induction false} InspectDistinct(c: Containers, registered: seq<Registered>)
    requires UniqueRegistration(registered)
    ensures DistinctServices(Inspect(c, registered))
  {
    if registered == [] {
    } else {
      var front := registered[..|registered| - 1];
      InspectDistinct(c, front);
      var rest := Inspect(c, front);
      forall i | 0 <= i < |rest| ensures rest[i].service != registered[|registered| - 1].service {
        assert Registered(rest[i].service, rest[i].dependencies) in front;
      }
    }
  }

  lemma OwnedOf(c: Containers, registered: seq<Registered>, i: nat) returns (j: nat)
    requires UniqueRegistration(registered) && i < |registered| && registered[i].service in c
    ensures j < |Inspect(c, registered)|
    ensures Inspect(c, registered)[j].service == registered[i].service
    ensures Inspect(c, registered)[j].dependencies == registered[i].dependencies
  {
    var owned := Inspect(c, registered);
    assert registered[i] in registered;
    assert Offers(owned, registered[i].service);
    j :| j < |owned| && owned[j].service == registered[i].service;
    assert Registered(owned[j].service, owned[j].dependencies) in registered;
  }

  lemma BeforeIsRegistered(c: Containers, registered: seq<Registered>, order: seq<nat>, k: nat, s: string)
    requires Indices(order, |Inspect(c, registered)|) && k <= |order|
    ensures Before(Inspect(c, registered), order, s, k) ==> Registers(registered, s)
  {
    var owned := Inspect(c, registered);
    if Before(owned, order, s, k) {
      var p :| 0 <= p < k && owned[order[p]].service == s;
      assert Registered(s, owned[order[p]].dependencies) in registered;
    }
  }

  /** Switching along an order over the inspected containers touches none outside the registered scope. */
  lemma ProgressInScope(c: Containers, registered: seq<Registered>, order: seq<nat>, k: nat, on: bool)
    requires Indices(order, |Inspect(c, registered)|) && k <= |order|
    ensures OthersUntouched(registered, c, Progress(c, Inspect(c, registered), order, k, on))
  {
    var now := Progress(c, Inspect(c, registered), order, k, on);
    forall s | s in now && !Registers(registered, s) ensures s in c && now[s] == c[s] {
      ProgressMeaning(c, Inspect(c, registered), order, k, on, s);
      BeforeIsRegistered(c, registered, order, k, s);
    }
  }

  /** Along a start order, every state is one where what was started has its dependencies running. */
  lemma StartProgressSafe(c: Containers, registered: seq<Registered>, order: seq<nat>, k: nat)
    requires UniqueRegistration(registered)
    requires ValidOrder(Inspect(c, registered), order) && k <= |order|
    ensures StartedOnDependencies(registered, c, Progress(c, Inspect(c, registered), order, k, true))
  {
    var owned := Inspect(c, registered);
    var now := Progress(c, owned, order, k, true);
    ProgressInScope(c, registered, order, k, true);
    forall s | s in c ensures now[s] == if Before(owned, order, s, k) then c[s].(running := true) else c[s] {
      ProgressMeaning(c, owned, order, k, true, s);
    }
    forall i | 0 <= i < |registered| ensures SupportedStart(registered[i], c, now) {
      if Running(now, registered[i].service) && !Running(c, registered[i].service) {
        StartedHasDependencies(c, registered, order, k, i);
      }
    }
  }

  lemma StartedHasDependencies(c: Containers, registered: seq<Registered>, order: seq<nat>, k: nat, i: nat)
    requires UniqueRegistration(registered) && i < |registered| && registered[i].service in c
    requires ValidOrder(Inspect(c, registered), order) && k <= |order|
    requires Before(Inspect(c, registered), order, registered[i].service, k)
    ensures forall d :: d in registered[i].dependencies ==> Running(Progress(c, Inspect(c, registered), order, k, true), d)
  {
    var owned := Inspect(c, registered);
    var p :| 0 <= p < k && owned[order[p]].service == registered[i].service;
    assert Registered(owned[order[p]].service, owned[order[p]].dependencies) in registered;
    assert owned[order[p]].dependencies == registered[i].dependencies;
    forall d | d in registered[i].dependencies ensures Running(Progress(c, owned, order, k, true), d) {
      assert Before(owned, order, d, p);
      var q :| 0 <= q < p && owned[order[q]].service == d;
      assert Before(owned, order, d, k);
      ProgressMeaning(c, owned, order, k, true, d);
    }
  }

  /** Along a stop order, every state is one where what was stopped has no running dependent. */
  lemma StopProgressSafe(c: Containers, registered: seq<Registered>, order: seq<nat>, k: nat)
    requires UniqueRegistration(registered)
    requires ValidStopOrder(Inspect(c, registered), order) && k <= |order|
    ensures StoppedAfterDependents(registered, c, Progress(c, Inspect(c, registered), order, k, false))
  {
    var owned := Inspect(c, registered);
    var now := Progress(c, owned, order, k, false);
    ProgressInScope(c, registered, order, k, false);
    forall s | s in c ensures now[s] == if Before(owned, order, s, k) then c[s].(running := false) else c[s] {
      ProgressMeaning(c, owned, order, k, false, s);
    }
    forall i | 0 <= i < |registered| ensures SupportedStop(registered[i], c, now) {
      if registered[i].service in c {
        DependentsDown(c, registered, order, k, i);
      }
    }
  }

  lemma DependentsDown(c: Containers, registered: seq<Registered>, order: seq<nat>, k: nat, i: nat)
    requires UniqueRegistration(registered) && i < |registered| && registered[i].service in c
    requires ValidStopOrder(Inspect(c, registered), order) && k <= |order|
    ensures SupportedStop(registered[i], c, Progress(c, Inspect(c, registered), order, k, false))
  {
    var owned := Inspect(c, registered);
    var now := Progress(c, owned, order, k, false);
    ProgressInScope(c, registered, order, k, false);
    forall s | s in registered[i].dependencies && Running(c, s) && !Running(now, s)
      ensures !Running(now, registered[i].service)
    {
      ProgressMeaning(c, owned, order, k, false, s);
      StoppedHasNoDependent(c, registered, order, k, i, s);
      ProgressMeaning(c, owned, order, k, false, registered[i].service);
    }
  }

  lemma StoppedHasNoDependent(c: Containers, registered: seq<Registered>, order: seq<nat>, k: nat, i: nat, s: string)
    requires UniqueRegistration(registered) && i < |registered| && registered[i].service in c
    requires ValidStopOrder(Inspect(c, registered), order) && k <= |order|
    requires s in registered[i].dependencies && Before(Inspect(c, registered), order, s, k)
    ensures Before(Inspect(c, registered), order, registered[i].service, k)
  {
    var owned := Inspect(c, registered);
    var p :| 0 <= p < k && owned[order[p]].service == s;
    var j := OwnedOf(c, registered, i);
    assert j in order;
    var q :| 0 <= q < |order| && order[q] == j;
    assert q < p;
  }

  /** The declared graph, as if every registered container were there. */
  ghost function Declared(registered: seq<Registered>): (r: seq<Owned>)
    ensures |r| == |registered|
    ensures forall i :: 0 <= i < |r| ==> r[i].service == registered[i].service && r[i].dependencies == registered[i].dependencies
  {
    seq(|registered|, i requires 0 <= i < |registered| => Owned("", false, registered[i].service, registered[i].dependencies, ""))
  }

  /** If the declared graph has an order at all, a STOP can be ordered whatever subset of it is still there. */
  lemma StopOrderForEverySubset(registered: seq<Registered>, c: Containers)
    requires UniqueRegistration(registered) && Orderable(Declared(registered))
    ensures Orderable(Present(Inspect(c, registered)))
  {
    var owned, declared := Inspect(c, registered), Declared(registered);
    InspectDistinct(c, registered);
    forall i | 0 <= i < |owned| ensures Declares(declared, owned[i]) {
      assert Registered(owned[i].service, owned[i].dependencies) in registered;
      var j :| 0 <= j < |registered| && registered[j] == Registered(owned[i].service, owned[i].dependencies);
      assert declared[j].service == owned[i].service;
    }
    EveryRemnantCanStop(declared, owned);
  }

  // -------------------------------------------------------------------------
  // The operation

  /** One of the states the switching loop passes through. */
  ghost predicate OnPath(c: Containers, owned: seq<Owned>, order: seq<nat>, on: bool, now: Containers)
    requires Indices(order, |owned|)
    requires Observed(owned, c)
  {
    exists j: nat :: j <= |order| && now == Progress(c, owned, order, j, on)
  }

  ghost predicate Observed(owned: seq<Owned>, c: Containers) {
    forall i :: 0 <= i < |owned| ==> owned[i].service in c && Matches(owned[i], c[owned[i].service])
  }

  /** The switching loop: an already switched container gets no request. */
  method SwitchInOrder(engine: Engine, owned: seq<Owned>, order: seq<nat>, on: bool) returns (ok: bool)
    requires Indices(order, |owned|) && Observed(owned, engine.containers)
    modifies engine`containers, engine`points
    ensures forall x :: x in engine.points ==> x in old(engine.points) || OnPath(old(engine.containers), owned, order, on, x)
    ensures OnPath(old(engine.containers), owned, order, on, engine.containers)
    ensures ok ==> engine.containers == Progress(old(engine.containers), owned, order, |order|, on)
    ensures engine.reliable ==> ok
  {
    ghost var c := engine.containers;
    var k := 0;
    while k < |order|
      invariant 0 <= k <= |order|
      invariant engine.containers == Progress(c, owned, order, k, on)
      invariant forall x :: x in engine.points ==> x in old(engine.points) || OnPath(c, owned, order, on, x)
    {
      if owned[order[k]].running != on {
        var done := engine.SetRunning(owned[order[k]].service, on);
        assert engine.containers == Progress(c, owned, order, k, on) || engine.containers == Progress(c, owned, order, k + 1, on);
        if !done {
          return false;
        }
      } else {
        AlreadySwitched(c, owned, order, k, on);
      }
      k := k + 1;
    }
    ok := true;
  }

  lemma SwitchSafe(c: Containers, registered: seq<Registered>, order: seq<nat>, k: nat, on: bool)
    requires UniqueRegistration(registered)
    requires OrderFor(registered, c, order, on)
    requires k <= |order|
    ensures SafePoint(on, registered, c, Progress(c, Inspect(c, registered), order, k, on))
  {
    if on { StartProgressSafe(c, registered, order, k); } else { StopProgressSafe(c, registered, order, k); }
  }

  lemma AlreadySwitched(c: Containers, owned: seq<Owned>, order: seq<nat>, k: nat, on: bool)
    requires Indices(order, |owned|) && k < |order|
    requires forall i :: 0 <= i < |owned| ==> owned[i].service in c && Matches(owned[i], c[owned[i].service])
    requires owned[order[k]].running == on
    ensures Progress(c, owned, order, k + 1, on) == Progress(c, owned, order, k, on)
  {
    ProgressMeaning(c, owned, order, k, on, owned[order[k]].service);
  }

  /** At the end of a full order every registered container present is switched and nothing else is touched. */
  ghost predicate Switched(registered: seq<Registered>, before: Containers, now: Containers, on: bool) {
    && now.Keys == before.Keys
    && forall s :: s in before ==>
         now[s] == if Registers(registered, s) then before[s].(running := on) else before[s]
  }

  lemma FullProgress(c: Containers, registered: seq<Registered>, order: seq<nat>, on: bool)
    requires UniqueRegistration(registered) && Permutation(order, |Inspect(c, registered)|)
    ensures Switched(registered, c, Progress(c, Inspect(c, registered), order, |order|, on), on)
  {
    var owned := Inspect(c, registered);
    ProgressInScope(c, registered, order, |order|, on);
    forall s | s in c
      ensures Progress(c, owned, order, |order|, on)[s] == if Registers(registered, s) then c[s].(running := on) else c[s]
    {
      ProgressMeaning(c, owned, order, |order|, on, s);
      if Registers(registered, s) {
        var i :| 0 <= i < |registered| && registered[i].service == s;
        var j := OwnedOf(c, registered, i);
        assert j in order;
        assert Before(owned, order, s, |order|);
      }
    }
  }

  /** Whether identity `i` of the plan changes. */
  predicate Changes(plan: RunPlan, i: nat)
    requires i < |plan.identities|
  {
    plan.identities[i].None? || plan.identities[i].value.running != plan.start
  }

  predicate Repairs(plan: RunPlan) {
    plan.aliasRepairs != [] || plan.networkRepair
  }

  /** `verify_native_vm_run_poststate` for one registered service. */
  predicate PoststateRow(plan: RunPlan, images: map<string, string>, service: string, original: Option<Live>, after: Containers) {
    match original
    case None =>
      if service in after then
        plan.start && plan.createMissing == Some(service) && after[service].running
        && service in images && images[service] == after[service].image
      else !plan.start
    case Some(o) =>
      service in after && after[service] == o.(running := plan.start)
  }

  predicate PoststateHolds(registered: seq<Registered>, plan: RunPlan, images: map<string, string>, after: Containers) {
    && |plan.identities| == |registered|
    && (forall i :: 0 <= i < |registered| ==> PoststateRow(plan, images, registered[i].service, plan.identities[i], after))
    && (Repairs(plan) || exists i :: 0 <= i < |registered| && Changes(plan, i) && (plan.identities[i].None? ==> registered[i].service in after))
  }

  /** The one gateway a START may create: registered, absent, with a pinned image and all neighbours running. */
  predicate CreatableGateway(registered: seq<Registered>, owned: seq<Owned>, c: Containers, images: map<string, string>, s: string) {
    && |owned| + 1 == |registered|
    && AllRunning(owned)
    && Registers(registered, s)
    && s !in c
    && s in images
  }

  /** What every run needs: the scope, the snapshot, the pinned images and an order. */
  ghost predicate Grounded(registered: seq<Registered>, plan: RunPlan, images: map<string, string>, c: Containers) {
    && DependenciesInScope(registered)
    && SnapshotHolds(registered, c, plan.identities)
    && (plan.start ==> ImagesMatch(Inspect(c, registered), images) && Orderable(Inspect(c, registered)))
    && (!plan.start ==> Orderable(Present(Inspect(c, registered))))
  }

  /** There is something to switch or repair, and a START finds every registered container. */
  ghost predicate Switchable(registered: seq<Registered>, plan: RunPlan, c: Containers)
  {
    && (plan.start ==> forall i :: 0 <= i < |registered| ==> registered[i].service in c)
    && (plan.aliasRepairs != [] || plan.networkRepair || exists i :: 0 <= i < |registered| && ToSwitch(registered[i], plan, c))
  }

  /** A present container that is not yet as the plan wants it. */
  ghost predicate ToSwitch(r: Registered, plan: RunPlan, c: Containers) {
    r.service in c && c[r.service].running != plan.start
  }

  /** The containers and plans a run can switch. */
  ghost predicate Runnable(registered: seq<Registered>, plan: RunPlan, images: map<string, string>, c: Containers) {
    && Grounded(registered, plan, images, c)
    && match plan.createMissing
       case None => Switchable(registered, plan, c)
       case Some(s) => plan.start && CreatableGateway(registered, Inspect(c, registered), c, images, s)
  }

  /** The states and plans a run is for. */
  ghost predicate Admitted(registered: seq<Registered>, plan: RunPlan, images: map<string, string>, c: Containers, links: Links) {
    Runnable(registered, plan, images, c) && RepairsFit(plan, Inspect(c, registered), |registered|, links)
  }

  /** Every dependency is another registered service, named once. */
  ghost predicate ScopedDependencies(registered: seq<Registered>) {
    forall i, a :: 0 <= i < |registered| && 0 <= a < |registered[i].dependencies| ==>
      && registered[i].dependencies[a] != registered[i].service
      && Registers(registered, registered[i].dependencies[a])
      && registered[i].dependencies[a] !in registered[i].dependencies[..a]
  }

  lemma ScopeIff(registered: seq<Registered>)
    ensures DependenciesInScope(registered) <==> ScopedDependencies(registered)
  {
    if DependenciesInScope(registered) {
      forall i, a | 0 <= i < |registered| && 0 <= a < |registered[i].dependencies|
        ensures registered[i].dependencies[a] in registered[i].dependencies
      {
      }
    }
    if ScopedDependencies(registered) {
      forall i, a, b | 0 <= i < |registered| && 0 <= a < b < |registered[i].dependencies|
        ensures registered[i].dependencies[a] != registered[i].dependencies[b]
      {
        assert registered[i].dependencies[..b][a] == registered[i].dependencies[a];
      }
    }
  }

  /** A START finds every present registered container on its pinned image. */
  ghost predicate OnPinnedImages(registered: seq<Registered>, c: Containers, images: map<string, string>) {
    forall i :: 0 <= i < |registered| && registered[i].service in c ==>
      registered[i].service in images && images[registered[i].service] == c[registered[i].service].image
  }

  lemma ImagesIff(registered: seq<Registered>, c: Containers, images: map<string, string>)
    requires UniqueRegistration(registered)
    ensures ImagesMatch(Inspect(c, registered), images) <==> OnPinnedImages(registered, c, images)
  {
    var owned := Inspect(c, registered);
    if ImagesMatch(owned, images) {
      forall i | 0 <= i < |registered| && registered[i].service in c
        ensures registered[i].service in images && images[registered[i].service] == c[registered[i].service].image
      {
        var j := OwnedOf(c, registered, i);
      }
    }
    if OnPinnedImages(registered, c, images) {
      forall j | 0 <= j < |owned| ensures owned[j].service in images && images[owned[j].service] == owned[j].image {
        assert Registered(owned[j].service, owned[j].dependencies) in registered;
      }
    }
  }

  /** `s` is the one registered service that is absent, and all the others run. */
  ghost predicate OnlyMissing(registered: seq<Registered>, c: Containers, s: string) {
    && Registers(registered, s) && s !in c
    && forall i :: 0 <= i < |registered| && registered[i].service != s ==> Running(c, registered[i].service)
  }

  lemma CreatableIff(registered: seq<Registered>, c: Containers, images: map<string, string>, s: string)
    requires UniqueRegistration(registered)
    ensures CreatableGateway(registered, Inspect(c, registered), c, images, s) <==> OnlyMissing(registered, c, s) && s in images
  {
    var owned := Inspect(c, registered);
    if CreatableGateway(registered, owned, c, images, s) {
      forall i | 0 <= i < |registered| && registered[i].service != s ensures Running(c, registered[i].service) {
        assert Registers(registered, registered[i].service);
        NeighbourRuns(c, registered, images, s, registered[i].service);
      }
    }
    if OnlyMissing(registered, c, s) {
      var k :| 0 <= k < |registered| && registered[k].service == s;
      InspectSize(c, registered);
      OneMissingCount(c, registered, k);
      forall j | 0 <= j < |owned| ensures owned[j].running {
        assert Registered(owned[j].service, owned[j].dependencies) in registered;
      }
    }
  }

  lemma {:induction false} OneMissingCount(c: Containers, registered: seq<Registered>, k: nat)
    requires k < |registered| && registered[k].service !in c
    requires forall i :: 0 <= i < |registered| && i != k ==> registered[i].service in c
    ensures PresentCount(c, registered) + 1 == |registered|
  {
    var n := |registered| - 1;
    if k == n {
      AllPresentCount(c, registered[..n]);
    } else {
      OneMissingCount(c, registered[..n], k);
    }
  }

  lemma {:induction false} AllPresentCount(c: Containers, registered: seq<Registered>)
    requires forall i :: 0 <= i < |registered| ==> registered[i].service in c
    ensures PresentCount(c, registered) == |registered|
  {
    if registered == [] {
    } else {
      AllPresentCount(c, registered[..|registered| - 1]);
    }
  }

  /** What an admitted run is, over the registered services and the containers alone. */
  lemma RunnableIff(registered: seq<Registered>, plan: RunPlan, images: map<string, string>, c: Containers)
    requires UniqueRegistration(registered)
    ensures Runnable(registered, plan, images, c) <==>
      && ScopedDependencies(registered)
      && |plan.identities| == |registered|
      && (forall i :: 0 <= i < |registered| ==>
            plan.identities[i] == if registered[i].service in c then Some(c[registered[i].service]) else None)
      && (if plan.start then OnPinnedImages(registered, c, images) && Orderable(Inspect(c, registered))
          else Orderable(Present(Inspect(c, registered))))
      && (if plan.createMissing.Some? then
            plan.start && OnlyMissing(registered, c, plan.createMissing.value) && plan.createMissing.value in images
          else Switchable(registered, plan, c))
  {
    ScopeIff(registered);
    ImagesIff(registered, c, images);
    if plan.createMissing.Some? {
      CreatableIff(registered, c, images, plan.createMissing.value);
    }
  }

  /** The single-gateway create and start.  Its dependencies are among the neighbours, which all run. */
  method CreateGateway(engine: Engine, registered: seq<Registered>, s: string, images: map<string, string>) returns (ok: bool)
    requires UniqueRegistration(registered) && DependenciesInScope(registered)
    requires CreatableGateway(registered, Inspect(engine.containers, registered), engine.containers, images, s)
    modifies engine`containers, engine`points
    ensures forall x :: x in engine.points ==> x in old(engine.points) || SafePoint(true, registered, old(engine.containers), x)
    ensures SafePoint(true, registered, old(engine.containers), engine.containers)
    ensures ok ==> s in engine.containers
    ensures ok ==> engine.containers == old(engine.containers)[s := Live(engine.containers[s].id, true, images[s])]
    ensures engine.reliable ==> ok
  {
    ghost var c := engine.containers;
    var created := engine.CreateContainer(s, images[s]);
    assert engine.containers == c || exists id :: engine.containers == c[s := Live(id, false, images[s])];
    GatewaySafe(c, registered, images, s, engine.containers);
    if !created {
      return false;
    }
    var started := engine.SetRunning(s, true);
    GatewaySafe(c, registered, images, s, engine.containers);
    ok := started;
  }

  lemma GatewaySafe(c: Containers, registered: seq<Registered>, images: map<string, string>, s: string, now: Containers)
    requires UniqueRegistration(registered) && DependenciesInScope(registered)
    requires CreatableGateway(registered, Inspect(c, registered), c, images, s)
    requires now == c || exists id, on :: now == c[s := Live(id, on, images[s])]
    ensures SafePoint(true, registered, c, now)
  {
    forall i | 0 <= i < |registered| ensures SupportedStart(registered[i], c, now) {
      if Running(now, registered[i].service) && !Running(c, registered[i].service) {
        assert registered[i].service == s;
        forall d | d in registered[i].dependencies ensures Running(now, d) {
          assert Registers(registered, d) && d != s;
          NeighbourRuns(c, registered, images, s, d);
        }
      }
    }
  }

  /** With one registered service absent and all the present ones running, every other one runs. */
  lemma NeighbourRuns(c: Containers, registered: seq<Registered>, images: map<string, string>, s: string, d: string)
    requires UniqueRegistration(registered)
    requires CreatableGateway(registered, Inspect(c, registered), c, images, s)
    requires Registers(registered, d) && d != s
    ensures Running(c, d)
  {
    var i :| 0 <= i < |registered| && registered[i].service == d;
    var k :| 0 <= k < |registered| && registered[k].service == s;
    if d !in c {
      InspectSize(c, registered);
      TwoAbsent(c, registered, i, k);
    } else {
      var j := OwnedOf(c, registered, i);
    }
  }

  ghost function PresentCount(c: Containers, registered: seq<Registered>): nat {
    if registered == [] then 0
    else PresentCount(c, registered[..|registered| - 1]) + (if registered[|registered| - 1].service in c then 1 else 0)
  }

  lemma {:induction false} InspectSize(c: Containers, registered: seq<Registered>)
    ensures |Inspect(c, registered)| == PresentCount(c, registered)
  {
    if registered == [] {
    } else {
      InspectSize(c, registered[..|registered| - 1]);
    }
  }

  lemma {:induction false} CountBound(c: Containers, registered: seq<Registered>)
    ensures PresentCount(c, registered) <= |registered|
  {
    if registered == [] {
    } else {
      CountBound(c, registered[..|registered| - 1]);
    }
  }

  lemma {:induction false} TwoAbsent(c: Containers, registered: seq<Registered>, i: nat, k: nat)
    requires i < |registered| && k < |registered| && i != k
    requires registered[i].service !in c && registered[k].service !in c
    ensures PresentCount(c, registered) + 2 <= |registered|
  {
    var n := |registered| - 1;
    if i < n && k < n {
      TwoAbsent(c, registered[..n], i, k);
    } else {
      OneAbsent(c, registered[..n], if i < n then i else k);
    }
  }

  lemma {:induction false} OneAbsent(c: Containers, registered: seq<Registered>, i: nat)
    requires i < |registered| && registered[i].service !in c
    ensures PresentCount(c, registered) + 1 <= |registered|
  {
    var n := |registered| - 1;
    if i < n {
      OneAbsent(c, registered[..n], i);
    } else {
      CountBound(c, registered[..n]);
    }
  }

  ghost predicate AllSwitched(registered: seq<Registered>, c: Containers, on: bool) {
    forall i :: 0 <= i < |registered| ==> (Running(c, registered[i].service) <==> on)
  }

  /** What a completed run has made of the containers. */
  ghost predicate Reached(registered: seq<Registered>, plan: RunPlan, images: map<string, string>, before: Containers, now: Containers) {
    match plan.createMissing
    case None => Switched(registered, before, now, plan.start)
    case Some(s) => s !in before && s in now && s in images && now == before[s := Live(now[s].id, true, images[s])]
  }

  /** The create branch, down to its poststate. */
  method RunCreate(engine: Engine, registered: seq<Registered>, plan: RunPlan, images: map<string, string>, s: string)
    returns (r: Result<()>)
    requires UniqueRegistration(registered) && Grounded(registered, plan, images, engine.containers)
    requires plan.createMissing == Some(s)
    modifies engine`containers, engine`points
    ensures forall x :: x in engine.points ==> x in old(engine.points) || SafePoint(plan.start, registered, old(engine.containers), x)
    ensures SafePoint(plan.start, registered, old(engine.containers), engine.containers)
    ensures r.Ok? ==> AllSwitched(registered, engine.containers, plan.start)
    ensures r.Ok? ==> Reached(registered, plan, images, old(engine.containers), engine.containers)
    ensures r.Ok? ==> Runnable(registered, plan, images, old(engine.containers))
    ensures engine.reliable && Runnable(registered, plan, images, old(engine.containers)) ==> r.Ok?
  {
    ghost var c := engine.containers;
    SafeAtRest(plan.start, registered, c);
    var owned := Inspect(engine.containers, registered);
    if !plan.start || !CreatableGateway(registered, owned, engine.containers, images, s) {
      return Err("HOST_VM_CREATE_PREADMISSION_CHANGED_NO_REPLAY");
    }
    var created := CreateGateway(engine, registered, s, images);
    if !created {
      return Err("HOST_VM_CREATE_ACK_UNCERTAIN_NO_REPLAY");
    }
    // Every neighbour was already running, so the switching loop has no call to make.
    CreatedPoststate(c, registered, plan, images, s, engine.containers);
    var readable := engine.Readable();
    if !readable || !PoststateHolds(registered, plan, images, engine.containers) {
      return Err("HOST_NATIVE_VM_POSTSTATE_NOT_CONVERGED_NO_REPLAY");
    }
    r := Ok(());
  }

  /** The switching branch, down to its poststate. */
  method RunSwitch(engine: Engine, registered: seq<Registered>, plan: RunPlan, images: map<string, string>, order: seq<nat>)
    returns (r: Result<()>)
    requires UniqueRegistration(registered) && Grounded(registered, plan, images, engine.containers)
    requires plan.createMissing.None?
    requires OrderFor(registered, engine.containers, order, plan.start)
    modifies engine`containers, engine`points
    ensures forall x :: x in engine.points ==> x in old(engine.points) || SafePoint(plan.start, registered, old(engine.containers), x)
    ensures SafePoint(plan.start, registered, old(engine.containers), engine.containers)
    ensures r.Ok? ==> AllSwitched(registered, engine.containers, plan.start)
    ensures r.Ok? ==> Reached(registered, plan, images, old(engine.containers), engine.containers)
    ensures r.Ok? ==> Runnable(registered, plan, images, old(engine.containers))
    ensures engine.reliable && Runnable(registered, plan, images, old(engine.containers)) ==> r.Ok?
  {
    ghost var c := engine.containers;
    var switched := SwitchInOrder(engine, Inspect(engine.containers, registered), order, plan.start);
    PathSafe(c, registered, order, plan.start);
    if !switched {
      return Err("HOST_NATIVE_VM_RUN_UNCERTAIN_NO_REPLAY");
    }
    FullSwitch(c, registered, order, plan.start);
    SwitchedPoststate(c, registered, plan, images, engine.containers);
    var readable := engine.Readable();
    if !readable || !PoststateHolds(registered, plan, images, engine.containers) {
      return Err("HOST_NATIVE_VM_POSTSTATE_NOT_CONVERGED_NO_REPLAY");
    }
    r := Ok(());
  }

  // -------------------------------------------------------------------------
  // Network names

  predicate NeedsName(o: Owned, links: Links) {
    o.running && o.service in links && links[o.service].Nameless?
  }

  /** Every running container is on the network. */
  predicate LinksProven(owned: seq<Owned>, links: Links) {
    forall i :: 0 <= i < |owned| && owned[i].running ==> owned[i].service in links && !links[owned[i].service].Detached?
  }

  /** The running containers without their name, along `order`. */
  function Unnamed(owned: seq<Owned>, order: seq<nat>, links: Links): seq<string> {
    if order == [] then []
    else
      var n := |order| - 1;
      Unnamed(owned, order[..n], links)
      + (if order[n] < |owned| && NeedsName(owned[order[n]], links) then [owned[order[n]].service] else [])
  }

  /** What `missing_owned_vm_service_aliases` finds, dependencies first. */
  function MissingAliases(owned: seq<Owned>, expected: nat, links: Links): Option<seq<string>> {
    if |owned| != expected || StartOrder(owned).None? || !LinksProven(owned, links) then None
    else Some(Unnamed(owned, StartOrder(owned).value, links))
  }

  /** Container `i` runs, and is on the network without its name. */
  ghost predicate LacksName(owned: seq<Owned>, links: Links, i: nat, s: string) {
    i < |owned| && owned[i].running && owned[i].service == s && s in links && links[s] == Nameless
  }

  /** `names` are exactly the services whose container runs without its name, each once, dependencies first. */
  ghost predicate ExactlyNameless(owned: seq<Owned>, links: Links, names: seq<string>) {
    && (forall s :: s in names <==> SomeLacksName(owned, links, s))
    && (forall a, b :: 0 <= a < b < |names| ==> names[a] != names[b])
    && (forall i: nat, a: nat, b: nat :: ListedDependency(owned, names, i, a, b) ==> b < a)
  }

  ghost predicate SomeLacksName(owned: seq<Owned>, links: Links, s: string) {
    exists i: nat :: LacksName(owned, links, i, s)
  }

  /** Place `a` of the list is container `i`, and place `b` one of its dependencies. */
  ghost predicate ListedDependency(owned: seq<Owned>, names: seq<string>, i: nat, a: nat, b: nat) {
    && i < |owned| && a < |names| && b < |names|
    && names[a] == owned[i].service && names[b] in owned[i].dependencies
  }

  /** Every running container is on the network. */
  ghost predicate AllOnNetwork(owned: seq<Owned>, links: Links) {
    forall i :: 0 <= i < |owned| && owned[i].running ==>
      owned[i].service in links && (links[owned[i].service] == Named || links[owned[i].service] == Nameless)
  }

  /** `at` lists, in order, the places of `order` whose containers lack their name; `names` are those names. */
  ghost predicate Places(owned: seq<Owned>, order: seq<nat>, links: Links, at: seq<nat>, names: seq<string>)
    requires Indices(order, |owned|)
  {
    && |at| == |names|
    && (forall a :: 0 <= a < |at| ==> at[a] < |order| && LacksName(owned, links, order[at[a]], names[a]))
    && (forall a, b :: 0 <= a < b < |at| ==> at[a] < at[b])
    && (forall j: nat :: j < |order| && LacksName(owned, links, order[j], owned[order[j]].service) ==> j in at)
  }

  lemma {:induction false} UnnamedPlaces(owned: seq<Owned>, order: seq<nat>, links: Links) returns (at: seq<nat>)
    requires Indices(order, |owned|)
    ensures Places(owned, order, links, at, Unnamed(owned, order, links))
  {
    if order == [] {
      at := [];
    } else {
      var n := |order| - 1;
      at := UnnamedPlaces(owned, order[..n], links);
      if NeedsName(owned[order[n]], links) {
        at := at + [n];
      }
    }
  }

  lemma PlacedExactly(owned: seq<Owned>, order: seq<nat>, links: Links, at: seq<nat>, names: seq<string>, s: string)
    requires Permutation(order, |owned|) && Places(owned, order, links, at, names)
    ensures s in names <==> SomeLacksName(owned, links, s)
  {
    if s in names {
      var a :| 0 <= a < |names| && names[a] == s;
      assert LacksName(owned, links, order[at[a]], s);
    }
    if SomeLacksName(owned, links, s) {
      var i: nat :| LacksName(owned, links, i, s);
      assert i in order;
      var j :| 0 <= j < |order| && order[j] == i;
      assert j in at;
      var a :| 0 <= a < |at| && at[a] == j;
      assert names[a] == s;
    }
  }

  lemma PlacedOnce(owned: seq<Owned>, order: seq<nat>, links: Links, at: seq<nat>, names: seq<string>, a: nat, b: nat)
    requires ValidOrder(owned, order) && Places(owned, order, links, at, names) && a < b < |names|
    ensures names[a] != names[b]
  {
    assert LacksName(owned, links, order[at[a]], names[a]) && LacksName(owned, links, order[at[b]], names[b]);
  }

  lemma UnnamedExactly(owned: seq<Owned>, order: seq<nat>, links: Links)
    requires ValidOrder(owned, order)
    ensures ExactlyNameless(owned, links, Unnamed(owned, order, links))
  {
    var names := Unnamed(owned, order, links);
    var at := UnnamedPlaces(owned, order, links);
    ValidOrderMeaning(owned, order);
    forall s ensures s in names <==> SomeLacksName(owned, links, s) {
      PlacedExactly(owned, order, links, at, names, s);
    }
    forall a, b | 0 <= a < b < |names| ensures names[a] != names[b] {
      PlacedOnce(owned, order, links, at, names, a, b);
    }
    forall i: nat, a: nat, b: nat | ListedDependency(owned, names, i, a, b) ensures b < a {
      DependencyNamedFirst(owned, order, links, at, names, i, a, b);
    }
  }

  lemma DependencyNamedFirst(
    owned: seq<Owned>, order: seq<nat>, links: Links, at: seq<nat>, names: seq<string>, i: nat, a: nat, b: nat
  )
    requires ValidOrder(owned, order) && Places(owned, order, links, at, names) && DistinctServices(owned)
    requires ListedDependency(owned, names, i, a, b)
    ensures b < a
  {
    assert LacksName(owned, links, order[at[a]], names[a]) && LacksName(owned, links, order[at[b]], names[b]);
    assert order[at[a]] == i;
    assert Before(owned, order, names[b], at[a]);
    var j :| 0 <= j < at[a] && owned[order[j]].service == names[b];
    assert j == at[b];
  }

  /** `missing_owned_vm_service_aliases`. */
  method ReadMissingAliases(engine: Engine, owned: seq<Owned>, expected: nat) returns (r: Result<seq<string>>)
    ensures r.Ok? ==> MissingAliases(owned, expected, engine.links) == Some(r.value)
    ensures engine.reliable && MissingAliases(owned, expected, engine.links).Some? ==> r.Ok?
    ensures r.Ok? ==> ExactlyNameless(owned, engine.links, r.value)
    ensures r.Ok? ==> |owned| == expected && Orderable(owned) && AllOnNetwork(owned, engine.links)
    ensures engine.reliable && |owned| == expected && Orderable(owned) && AllOnNetwork(owned, engine.links) ==> r.Ok?
  {
    if |owned| != expected {
      return Err("HOST_VM_NETWORK_REGISTERED_CONTAINER_MISSING");
    }
    var order := OwnedVmStartOrder(owned);
    if order.Err? {
      return Err(order.code);
    }
    var missing: seq<string> := [];
    var k := 0;
    while k < |order.value|
      invariant 0 <= k <= |order.value|
      invariant missing == Unnamed(owned, order.value[..k], engine.links)
      invariant forall j :: 0 <= j < k ==> LinkProven(owned[order.value[j]], engine.links)
    {
      var o := owned[order.value[k]];
      var readable := engine.Readable();
      if !readable || !LinkProven(o, engine.links) {
        return Err("HOST_VM_NETWORK_ALIAS_OWNER_UNPROVEN");
      }
      if NeedsName(o, engine.links) {
        missing := missing + [o.service];
      }
      assert order.value[..k + 1][..k] == order.value[..k];
      k := k + 1;
    }
    assert order.value[..k] == order.value;
    OrderProvesLinks(owned, order.value, engine.links);
    UnnamedExactly(owned, order.value, engine.links);
    r := Ok(missing);
  }

  predicate LinkProven(o: Owned, links: Links) {
    o.running ==> o.service in links && !links[o.service].Detached?
  }

  lemma OrderProvesLinks(owned: seq<Owned>, order: seq<nat>, links: Links)
    requires ValidOrder(owned, order) && forall j :: 0 <= j < |order| ==> LinkProven(owned[order[j]], links)
    ensures LinksProven(owned, links)
  {
    ValidOrderMeaning(owned, order);
    forall i | 0 <= i < |owned| ensures LinkProven(owned[i], links) {
      assert i in order;
      var j :| 0 <= j < |order| && order[j] == i;
    }
  }

  /** The first `k` of `names` have their name again. */
  function Renamed(links: Links, names: seq<string>, k: nat): Links
    requires k <= |names|
  {
    if k == 0 then links else Renamed(links, names, k - 1)[names[k - 1] := Named]
  }

  /** Where a restoration can be interrupted: so many done, and perhaps the next one off the network. */
  ghost predicate AliasPoint(links: Links, names: seq<string>, now: Links) {
    exists k: nat :: k <= |names| && (now == Renamed(links, names, k) || (k < |names| && now == Renamed(links, names, k)[names[k] := Detached]))
  }

  lemma {:induction false} RenamedMeaning(links: Links, names: seq<string>, k: nat, s: string)
    requires k <= |names|
    ensures s in Renamed(links, names, k) <==> s in links || s in names[..k]
    ensures s in Renamed(links, names, k) ==> Renamed(links, names, k)[s] == if s in names[..k] then Named else links[s]
  {
    if k == 0 {
    } else {
      RenamedMeaning(links, names, k - 1, s);
      assert names[..k] == names[..k - 1] + [names[k - 1]];
    }
  }

  /** Whatever fails, no service loses its name, at most one is taken off the network, and that is one being restored. */
  lemma AliasPointMeaning(links: Links, names: seq<string>, now: Links)
    requires AliasPoint(links, names, now)
    ensures forall s :: s in links ==> s in now
    ensures forall s :: s in links && s !in names ==> now[s] == links[s]
    ensures forall s, s' :: TakenOff(links, now, s) && TakenOff(links, now, s') ==> s == s' && s in names
  {
    var k: nat :| k <= |names| && (now == Renamed(links, names, k) || (k < |names| && now == Renamed(links, names, k)[names[k] := Detached]));
    forall s ensures s in links ==> s in now
      ensures s in links && s !in names ==> now[s] == links[s]
      ensures TakenOff(links, now, s) ==> k < |names| && s == names[k]
    {
      RenamedMeaning(links, names, k, s);
    }
  }

  predicate TakenOff(links: Links, now: Links, s: string) {
    s in links && s in now && now[s].Detached? && !links[s].Detached?
  }

  /** `apply_owned_vm_service_aliases_once`, once its list is known to be still right. */
  method RestoreNames(engine: Engine, names: seq<string>) returns (ok: bool)
    modifies engine`links, engine`linkPoints
    ensures forall l :: l in engine.linkPoints ==> l in old(engine.linkPoints) || AliasPoint(old(engine.links), names, l)
    ensures AliasPoint(old(engine.links), names, engine.links)
    ensures ok ==> engine.links == Renamed(old(engine.links), names, |names|)
    ensures engine.reliable ==> ok
  {
    var k := 0;
    while k < |names|
      invariant 0 <= k <= |names|
      invariant engine.links == Renamed(old(engine.links), names, k)
      invariant forall l :: l in engine.linkPoints ==> l in old(engine.linkPoints) || AliasPoint(old(engine.links), names, l)
    {
      var off := engine.SetLink(names[k], Detached);
      if !off {
        return false;
      }
      var on := engine.SetLink(names[k], Named);
      assert Renamed(old(engine.links), names, k)[names[k] := Detached][names[k] := Named] == Renamed(old(engine.links), names, k + 1);
      if !on {
        return false;
      }
      var inspected := engine.Readable();
      if !inspected {
        return false;
      }
      k := k + 1;
    }
    ok := true;
  }

  /** Restoring exactly the nameless ones leaves every running container under its name. */
  lemma NamesRestored(owned: seq<Owned>, links: Links, names: seq<string>)
    requires AllOnNetwork(owned, links) && ExactlyNameless(owned, links, names)
    ensures EveryRunningNamed(owned, Renamed(links, names, |names|))
  {
    assert names[..|names|] == names;
    forall i: nat | i < |owned| && owned[i].running
      ensures owned[i].service in Renamed(links, names, |names|) && Renamed(links, names, |names|)[owned[i].service] == Named
    {
      RenamedMeaning(links, names, |names|, owned[i].service);
      if links[owned[i].service] == Nameless {
        assert LacksName(owned, links, i, owned[i].service);
      }
    }
  }

  ghost predicate EveryRunningNamed(owned: seq<Owned>, links: Links) {
    forall i :: 0 <= i < |owned| && owned[i].running ==> owned[i].service in links && links[owned[i].service] == Named
  }

  /** A network repair stands alone; a list of names is the one just read. */
  predicate RepairsFit(plan: RunPlan, owned: seq<Owned>, expected: nat, links: Links) {
    && (plan.networkRepair ==> plan.start && plan.createMissing.None? && plan.aliasRepairs == [])
    && (plan.aliasRepairs != [] ==> MissingAliases(owned, expected, links) == Some(plan.aliasRepairs))
  }

  /** The repairs that come before any container is switched. */
  method RunRepairs(engine: Engine, plan: RunPlan, owned: seq<Owned>, expected: nat) returns (r: Result<()>)
    modifies engine`links, engine`linkPoints, engine`networkLost
    ensures forall l :: l in engine.linkPoints ==> l in old(engine.linkPoints) || AliasPoint(old(engine.links), plan.aliasRepairs, l)
    ensures AliasPoint(old(engine.links), plan.aliasRepairs, engine.links)
    ensures r.Ok? ==> RepairsFit(plan, owned, expected, old(engine.links))
    ensures r.Ok? ==> engine.links == Renamed(old(engine.links), plan.aliasRepairs, |plan.aliasRepairs|)
    ensures r.Ok? && plan.aliasRepairs != [] ==>
      ExactlyNameless(owned, old(engine.links), plan.aliasRepairs) && EveryRunningNamed(owned, engine.links)
    ensures r.Ok? && plan.networkRepair ==> !engine.networkLost
    ensures !RepairsFit(plan, owned, expected, old(engine.links)) ==> engine.links == old(engine.links)
    ensures engine.networkLost ==> old(engine.networkLost)
    ensures plan.networkRepair && (!plan.start || plan.createMissing.Some? || plan.aliasRepairs != []) ==>
      r.Err? && engine.links == old(engine.links) && engine.networkLost == old(engine.networkLost)
    ensures engine.reliable && RepairsFit(plan, owned, expected, old(engine.links)) ==> r.Ok?
  {
    assert engine.links == Renamed(engine.links, plan.aliasRepairs, 0);
    if plan.networkRepair {
      if !plan.start || plan.createMissing.Some? || plan.aliasRepairs != [] {
        return Err("HOST_VM_MANAGED_REPAIR_CONFLICTING_EFFECT_NO_REPLAY");
      }
      var restored := engine.RestoreNetwork();
      if !restored {
        return Err("HOST_VM_MANAGED_REPAIR_POSTSTATE_NO_REPLAY");
      }
    }
    if plan.aliasRepairs != [] {
      var missing := ReadMissingAliases(engine, owned, expected);
      if missing.Err? || missing.value != plan.aliasRepairs {
        return Err("HOST_VM_ALIAS_PRESTATE_CHANGED_NO_REPLAY");
      }
      NamesRestored(owned, engine.links, plan.aliasRepairs);
      var done := RestoreNames(engine, plan.aliasRepairs);
      if !done {
        return Err("HOST_VM_ALIAS_POSTSTATE_UNPROVEN_NO_REPLAY");
      }
    }
    r := Ok(());
  }

  // -------------------------------------------------------------------------
  // The whole operation

  /** `apply_native_vm_run_once`. */
  method ApplyVmRun(engine: Engine, registered: seq<Registered>, plan: RunPlan, images: map<string, string>)
    returns (r: Result<()>)
    requires UniqueRegistration(registered)
    modifies engine
    ensures forall x :: x in engine.points ==> x in old(engine.points) || SafePoint(plan.start, registered, old(engine.containers), x)
    ensures SafePoint(plan.start, registered, old(engine.containers), engine.containers)
    ensures forall l :: l in engine.linkPoints ==> l in old(engine.linkPoints) || AliasPoint(old(engine.links), plan.aliasRepairs, l)
    ensures AliasPoint(old(engine.links), plan.aliasRepairs, engine.links)
    ensures r.Ok? ==> AllSwitched(registered, engine.containers, plan.start)
    ensures r.Ok? ==> Reached(registered, plan, images, old(engine.containers), engine.containers)
    ensures r.Ok? ==> engine.links == Renamed(old(engine.links), plan.aliasRepairs, |plan.aliasRepairs|)
    ensures r.Ok? && plan.aliasRepairs != [] ==>
      && ExactlyNameless(Inspect(old(engine.containers), registered), old(engine.links), plan.aliasRepairs)
      && EveryRunningNamed(Inspect(old(engine.containers), registered), engine.links)
    ensures r.Ok? && plan.networkRepair ==> !engine.networkLost
    ensures plan.networkRepair && (!plan.start || plan.createMissing.Some? || plan.aliasRepairs != []) ==>
      r.Err? && engine.containers == old(engine.containers) && engine.links == old(engine.links) && engine.networkLost == old(engine.networkLost)
    ensures r.Ok? ==> Admitted(registered, plan, images, old(engine.containers), old(engine.links))
    ensures engine.reliable && Admitted(registered, plan, images, old(engine.containers), old(engine.links)) ==> r.Ok?
  {
    SafeAtRest(plan.start, registered, engine.containers);
    assert engine.links == Renamed(engine.links, plan.aliasRepairs, 0);
    var order := AdmitRun(engine, registered, plan, images);
    if order.Err? {
      return Err(order.code);
    }
    var repaired := RunRepairs(engine, plan, Inspect(engine.containers, registered), |registered|);
    if repaired.Err? {
      return repaired;
    }
    r := RunContainers(engine, registered, plan, images, order.value);
  }

  /** The gateway to create, or the containers to switch. */
  method RunContainers(engine: Engine, registered: seq<Registered>, plan: RunPlan, images: map<string, string>, order: seq<nat>)
    returns (r: Result<()>)
    requires UniqueRegistration(registered) && Grounded(registered, plan, images, engine.containers)
    requires OrderFor(registered, engine.containers, order, plan.start)
    modifies engine`containers, engine`points
    ensures forall x :: x in engine.points ==> x in old(engine.points) || SafePoint(plan.start, registered, old(engine.containers), x)
    ensures SafePoint(plan.start, registered, old(engine.containers), engine.containers)
    ensures r.Ok? ==> AllSwitched(registered, engine.containers, plan.start)
    ensures r.Ok? ==> Reached(registered, plan, images, old(engine.containers), engine.containers)
    ensures r.Ok? ==> Runnable(registered, plan, images, old(engine.containers))
    ensures engine.reliable && Runnable(registered, plan, images, old(engine.containers)) ==> r.Ok?
  {
    if plan.createMissing.Some? {
      r := RunCreate(engine, registered, plan, images, plan.createMissing.value);
    } else {
      r := RunSwitch(engine, registered, plan, images, order);
    }
  }

  /** The checks before any effect, and the order they give. */
  method AdmitRun(engine: Engine, registered: seq<Registered>, plan: RunPlan, images: map<string, string>)
    returns (r: Result<seq<nat>>)
    ensures r.Ok? ==> Grounded(registered, plan, images, engine.containers) && OrderFor(registered, engine.containers, r.value, plan.start)
    ensures engine.reliable && Grounded(registered, plan, images, engine.containers) ==> r.Ok?
  {
    var readable := engine.Readable();
    if !readable || !DependenciesInScope(registered) {
      return Err("HOST_NATIVE_COMPOSE_DEPENDENCY_OUTSIDE_OWNER_SCOPE");
    }
    var owned := Inspect(engine.containers, registered);
    if !SnapshotHolds(registered, engine.containers, plan.identities) {
      return Err("HOST_NATIVE_VM_IDENTITY_OR_STATE_CHANGED_NO_REPLAY");
    }
    if plan.start && !ImagesMatch(owned, images) {
      return Err("HOST_NATIVE_VM_START_IMAGE_MISMATCH_NO_REPLAY");
    }
    if plan.start {
      r := OwnedVmStartOrder(owned);
    } else {
      r := OwnedVmStopOrder(owned);
    }
  }

  ghost predicate OrderFor(registered: seq<Registered>, c: Containers, order: seq<nat>, start: bool) {
    if start then ValidOrder(Inspect(c, registered), order) else ValidStopOrder(Inspect(c, registered), order)
  }

  lemma SafeAtRest(start: bool, registered: seq<Registered>, c: Containers)
    ensures SafePoint(start, registered, c, c)
  {
  }

  lemma PathSafe(c: Containers, registered: seq<Registered>, order: seq<nat>, on: bool)
    requires UniqueRegistration(registered) && OrderFor(registered, c, order, on)
    ensures forall x :: OnPath(c, Inspect(c, registered), order, on, x) ==> SafePoint(on, registered, c, x)
  {
    forall x | OnPath(c, Inspect(c, registered), order, on, x) ensures SafePoint(on, registered, c, x) {
      var j: nat :| j <= |order| && x == Progress(c, Inspect(c, registered), order, j, on);
      SwitchSafe(c, registered, order, j, on);
    }
  }

  lemma FullSwitch(c: Containers, registered: seq<Registered>, order: seq<nat>, on: bool)
    requires UniqueRegistration(registered) && OrderFor(registered, c, order, on)
    ensures Switched(registered, c, Progress(c, Inspect(c, registered), order, |order|, on), on)
  {
    if on {
      ValidOrderMeaning(Inspect(c, registered), order);
    }
    FullProgress(c, registered, order, on);
  }

  /** After a full switch the poststate check passes exactly when there was something to switch. */
  lemma SwitchedPoststate(c: Containers, registered: seq<Registered>, plan: RunPlan, images: map<string, string>, now: Containers)
    requires SnapshotHolds(registered, c, plan.identities) && plan.createMissing.None?
    requires Switched(registered, c, now, plan.start)
    ensures PoststateHolds(registered, plan, images, now) <==> Switchable(registered, plan, c)
    ensures Switchable(registered, plan, c) ==> AllSwitched(registered, now, plan.start)
  {
    forall i | 0 <= i < |registered|
      ensures PoststateRow(plan, images, registered[i].service, plan.identities[i], now)
          <==> (registered[i].service in c || !plan.start)
      ensures registered[i].service in c ==> now[registered[i].service].running == plan.start
    {
      assert Registers(registered, registered[i].service);
    }
    forall i | 0 <= i < |registered|
      ensures Changes(plan, i) && (plan.identities[i].None? ==> registered[i].service in now) <==> ToSwitch(registered[i], plan, c)
    {
    }
  }

  /** What the poststate check never lets pass: an owner gone, exchanged or not as desired, an unplanned newcomer, and for
      START anything missing. */
  lemma PoststateRefuses(registered: seq<Registered>, plan: RunPlan, images: map<string, string>, after: Containers, i: nat)
    requires |plan.identities| == |registered| && i < |registered| && PoststateHolds(registered, plan, images, after)
    ensures var s, original := registered[i].service, plan.identities[i];
      && (original.Some? ==> s in after && after[s].id == original.value.id && after[s].image == original.value.image)
      && (s in after ==> after[s].running == plan.start)
      && (plan.start ==> s in after)
      && (original.None? && s in after ==> plan.createMissing == Some(s) && s in images && after[s].image == images[s])
  {
    assert PoststateRow(plan, images, registered[i].service, plan.identities[i], after);
  }

  lemma CreatedPoststate(c: Containers, registered: seq<Registered>, plan: RunPlan, images: map<string, string>, s: string, now: Containers)
    requires UniqueRegistration(registered)
    requires SnapshotHolds(registered, c, plan.identities) && plan.createMissing == Some(s) && plan.start
    requires CreatableGateway(registered, Inspect(c, registered), c, images, s)
    requires s in now && now == c[s := Live(now[s].id, true, images[s])]
    ensures PoststateHolds(registered, plan, images, now)
    ensures AllSwitched(registered, now, true)
  {
    var k :| 0 <= k < |registered| && registered[k].service == s;
    assert Changes(plan, k);
    forall i | 0 <= i < |registered|
      ensures PoststateRow(plan, images, registered[i].service, plan.identities[i], now)
      ensures Running(now, registered[i].service)
    {
      if registered[i].service != s {
        assert Registers(registered, registered[i].service);
        NeighbourRuns(c, registered, images, s, registered[i].service);
      }
    }
  }
}
