/** Dependency order of the owned containers (`owned_vm_start_order`, `owned_vm_stop_order`). */
module ServiceOrder {
  import opened Common

  /** `OwnedVmContainer`. */
  datatype Owned = Owned(id: string, running: bool, service: string, dependencies: seq<string>, image: string)

  // -------------------------------------------------------------------------
  // What an order is

  ghost predicate DistinctServices(owned: seq<Owned>) {
    forall i, j :: 0 <= i < j < |owned| ==> owned[i].service != owned[j].service
  }

  ghost predicate Offers(owned: seq<Owned>, service: string) {
    exists i :: 0 <= i < |owned| && owned[i].service == service
  }

  /** Every dependency is itself among the containers. */
  ghost predicate Closed(owned: seq<Owned>) {
    forall i, d :: 0 <= i < |owned| && d in owned[i].dependencies ==> Offers(owned, d)
  }

  ghost predicate Indices(order: seq<nat>, n: nat) {
    forall i :: 0 <= i < |order| ==> order[i] < n
  }

  /** Every index below `n`, each once. */
  ghost predicate Permutation(order: seq<nat>, n: nat) {
    |order| == n && Indices(order, n) && forall i: nat :: i < n ==> i in order
  }

  /** No two places hold containers of one service. */
  ghost predicate NoRepeat(owned: seq<Owned>, order: seq<nat>)
    requires Indices(order, |owned|)
  {
    forall i, j :: 0 <= i < j < |order| ==> owned[order[i]].service != owned[order[j]].service
  }

  /** Service `d` is placed before position `i`. */
  ghost predicate Before(owned: seq<Owned>, order: seq<nat>, d: string, i: nat)
    requires Indices(order, |owned|) && i <= |order|
  {
    exists j :: 0 <= j < i && owned[order[j]].service == d
  }

  ghost predicate DependenciesFirst(owned: seq<Owned>, order: seq<nat>)
    requires Indices(order, |owned|)
  {
    forall i, d :: 0 <= i < |order| && d in owned[order[i]].dependencies ==> Before(owned, order, d, i)
  }

  ghost predicate ValidOrder(owned: seq<Owned>, order: seq<nat>) {
    && |order| == |owned|
    && Indices(order, |owned|)
    && NoRepeat(owned, order)
    && DependenciesFirst(owned, order)
  }

  // -------------------------------------------------------------------------
  // Acyclicity

  /** `rank` puts every dependency strictly below what depends on it. */
  ghost predicate Acyclic(owned: seq<Owned>, rank: map<string, nat>) {
    forall i :: 0 <= i < |owned| ==> RanksAbove(owned[i], rank)
  }

  ghost predicate RanksAbove(c: Owned, rank: map<string, nat>) {
    c.service in rank && forall d :: d in c.dependencies ==> d in rank && rank[d] < rank[c.service]
  }

  /** Exactly the inputs that have an order: no duplicate service, no missing dependency, no cycle. */
  ghost predicate Orderable(owned: seq<Owned>) {
    DistinctServices(owned) && Closed(owned) && exists rank :: Acyclic(owned, rank)
  }

  // -------------------------------------------------------------------------
  // Counting

  ghost function Upto(n: nat): (r: set<nat>)
    ensures forall i: nat :: i in r <==> i < n
    ensures |r| == n
  {
    if n == 0 then {} else Upto(n - 1) + {n - 1}
  }

  ghost function Elements(order: seq<nat>): set<nat> {
    set i | 0 <= i < |order| :: order[i]
  }

  lemma {:induction false} DistinctElements(order: seq<nat>)
    requires forall i, j :: 0 <= i < j < |order| ==> order[i] != order[j]
    ensures |Elements(order)| == |order|
  {
    if order == [] {
    } else {
      var front, last := order[..|order| - 1], order[|order| - 1];
      DistinctElements(front);
      assert Elements(order) == Elements(front) + {last};
      assert last !in Elements(front);
    }
  }

  lemma SubsetSize(a: set<nat>, b: set<nat>)
    requires a <= b
    ensures |a| <= |b|
    ensures |a| == |b| ==> a == b
  {
    assert b == a + (b - a);
  }

  /** Distinct indices below `n`: at most `n` of them, and when there are `n`, every index is there. */
  lemma Pigeonhole(order: seq<nat>, n: nat)
    requires Indices(order, n)
    requires forall i, j :: 0 <= i < j < |order| ==> order[i] != order[j]
    ensures |order| <= n
    ensures |order| == n ==> forall i: nat :: i < n ==> i in order
  {
    DistinctElements(order);
    assert Elements(order) <= Upto(n);
    SubsetSize(Elements(order), Upto(n));
    if |order| == n {
      forall i: nat | i < n ensures i in order {
        assert i in Elements(order);
      }
    }
  }

  // -------------------------------------------------------------------------
  // Orders and acyclicity

  lemma PlaceOf(owned: seq<Owned>, order: seq<nat>, i: nat) returns (p: nat)
    requires ValidOrder(owned, order) && i < |owned|
    ensures p < |order| && order[p] == i
  {
    Pigeonhole(order, |owned|);
    assert i in order;
    p :| p < |order| && order[p] == i;
  }

  lemma PlacedAbove(owned: seq<Owned>, order: seq<nat>, p: nat, d: string)
    requires ValidOrder(owned, order) && p < |order| && d in owned[order[p]].dependencies
    ensures Offers(owned, d)
    ensures d in Positions(owned, order) && Positions(owned, order)[d] < p
  {
    assert Before(owned, order, d, p);
    var q :| 0 <= q < p && owned[order[q]].service == d;
    assert Positions(owned, order)[owned[order[q]].service] == q;
  }

  /** A valid order is a permutation, and witnesses that the input is orderable. */
  lemma ValidOrderMeaning(owned: seq<Owned>, order: seq<nat>)
    requires ValidOrder(owned, order)
    ensures Permutation(order, |owned|)
    ensures DistinctServices(owned) && Closed(owned) && Acyclic(owned, Positions(owned, order))
  {
    Pigeonhole(order, |owned|);
    forall i | 0 <= i < |owned| ensures RanksAbove(owned[i], Positions(owned, order)) {
      var p := PlaceOf(owned, order, i);
      assert Positions(owned, order)[owned[order[p]].service] == p;
      forall d | d in owned[i].dependencies { PlacedAbove(owned, order, p, d); }
    }
    forall i, d | 0 <= i < |owned| && d in owned[i].dependencies ensures Offers(owned, d) {
      var p := PlaceOf(owned, order, i);
      PlacedAbove(owned, order, p, d);
    }
    forall i, j | 0 <= i < j < |owned| ensures owned[i].service != owned[j].service {
      var p := PlaceOf(owned, order, i);
      var q := PlaceOf(owned, order, j);
    }
  }

  /** Where each placed service stands. */
  ghost function Positions(owned: seq<Owned>, order: seq<nat>): (rank: map<string, nat>)
    requires Indices(order, |owned|) && NoRepeat(owned, order)
    ensures forall i :: 0 <= i < |order| ==> owned[order[i]].service in rank && rank[owned[order[i]].service] == i
  {
    map i: nat | i < |order| :: owned[order[i]].service := i
  }

  // -------------------------------------------------------------------------
  // The algorithm

  /** `c` is not ready: placed already, or waiting for something unplaced. */
  ghost predicate NotReady(c: Owned, completed: set<string>) {
    c.service in completed || exists d :: d in c.dependencies && d !in completed
  }

  /** What the loops keep: a valid partial order, and exactly its services completed. */
  ghost predicate PartialOrder(owned: seq<Owned>, order: seq<nat>, completed: set<string>) {
    && Indices(order, |owned|)
    && NoRepeat(owned, order)
    && DependenciesFirst(owned, order)
    && (forall s :: s in completed <==> Before(owned, order, s, |order|))
  }

  lemma PartialOrderBounded(owned: seq<Owned>, order: seq<nat>, completed: set<string>)
    requires PartialOrder(owned, order, completed)
    ensures |order| <= |owned|
    ensures |order| < |owned| && DistinctServices(owned) ==> exists i :: 0 <= i < |owned| && owned[i].service !in completed
  {
    Pigeonhole(order, |owned|);
    if |order| < |owned| && DistinctServices(owned) {
      var missing := Missing(order, |owned|);
      if owned[missing].service in completed {
        CompletedPlaced(owned, order, completed, missing);
      }
    }
  }

  lemma CompletedPlaced(owned: seq<Owned>, order: seq<nat>, completed: set<string>, i: nat)
    requires PartialOrder(owned, order, completed) && DistinctServices(owned)
    requires i < |owned| && owned[i].service in completed
    ensures i in order
  {
    var j :| 0 <= j < |order| && owned[order[j]].service == owned[i].service;
    assert order[j] == i;
  }

  /** Fewer distinct places than indices leaves an index out. */
  lemma Missing(order: seq<nat>, n: nat) returns (i: nat)
    requires |order| < n && Indices(order, n)
    ensures i < n && i !in order
  {
    if forall k: nat :: k < n ==> k in order {
      forall k | k in Upto(n) ensures k in Elements(order) {
        assert k in order;
      }
      SubsetSize(Upto(n), Elements(order));
      ElementsBounded(order);
      assert false;
    }
    i :| i < n && i !in order;
  }

  lemma {:induction false} ElementsBounded(order: seq<nat>)
    ensures |Elements(order)| <= |order|
  {
    if order == [] {
    } else {
      var front, last := order[..|order| - 1], order[|order| - 1];
      ElementsBounded(front);
      assert Elements(order) == Elements(front) + {last};
    }
  }

  lemma PlaceNext(owned: seq<Owned>, order: seq<nat>, completed: set<string>, index: nat)
    requires PartialOrder(owned, order, completed) && index < |owned|
    requires !NotReady(owned[index], completed)
    ensures PartialOrder(owned, order + [index], completed + {owned[index].service})
  {
    var order' := order + [index];
    forall i, d | 0 <= i < |order'| && d in owned[order'[i]].dependencies
      ensures Before(owned, order', d, i)
    {
      assert i < |order| ==> Before(owned, order, d, i);
      assert i == |order| ==> d in completed && Before(owned, order, d, |order|);
      var j :| 0 <= j < i && j < |order| && owned[order[j]].service == d;
      assert order'[j] == order[j];
    }
    forall s ensures s in completed + {owned[index].service} <==> Before(owned, order', s, |order'|) {
      if s in completed {
        var j :| 0 <= j < |order| && owned[order[j]].service == s;
        assert order'[j] == order[j];
      }
      if s == owned[index].service {
        assert owned[order'[|order|]].service == s;
      }
      if Before(owned, order', s, |order'|) {
        var j :| 0 <= j < |order'| && owned[order'[j]].service == s;
        assert j < |order| ==> owned[order[j]].service == s;
      }
    }
  }

  /** With a closed, acyclic input, nothing is ready only when everything is placed. */
  lemma {:induction false} StuckMeansPlaced(owned: seq<Owned>, rank: map<string, nat>, completed: set<string>, i: nat)
    requires Closed(owned) && Acyclic(owned, rank)
    requires forall j :: 0 <= j < |owned| ==> NotReady(owned[j], completed)
    requires i < |owned|
    ensures owned[i].service in completed
    decreases rank[owned[i].service]
  {
    forall d | d in owned[i].dependencies ensures d in completed {
      assert Offers(owned, d);
      var j :| 0 <= j < |owned| && owned[j].service == d;
      assert RanksAbove(owned[i], rank);
      StuckMeansPlaced(owned, rank, completed, j);
    }
  }

  lemma StuckMeansUnorderable(owned: seq<Owned>, order: seq<nat>, completed: set<string>)
    requires PartialOrder(owned, order, completed) && |order| < |owned|
    requires forall j :: 0 <= j < |owned| ==> NotReady(owned[j], completed)
    ensures !Orderable(owned)
  {
    if Orderable(owned) {
      var rank :| Acyclic(owned, rank);
      PartialOrderBounded(owned, order, completed);
      var i :| 0 <= i < |owned| && owned[i].service !in completed;
      StuckMeansPlaced(owned, rank, completed, i);
    }
  }

  /** Places in order, and the services they hold. */
  datatype Placed = Placed(order: seq<nat>, completed: set<string>)

  /** One pass over the containers from `from` on. */
  function Pass(owned: seq<Owned>, from: nat, p: Placed): Placed
    requires from <= |owned|
    decreases |owned| - from
  {
    if from == |owned| then p
    else if owned[from].service !in p.completed && forall d :: d in owned[from].dependencies ==> d in p.completed then
      Pass(owned, from + 1, Placed(p.order + [from], p.completed + {owned[from].service}))
    else Pass(owned, from + 1, p)
  }

  function Passes(owned: seq<Owned>, n: nat, p: Placed): Option<seq<nat>> {
    if |p.order| >= |owned| then Some(p.order)
    else if n == 0 || |Pass(owned, 0, p).order| == |p.order| then None
    else Passes(owned, n - 1, Pass(owned, 0, p))
  }

  /** The order the passes find; it depends on nothing but the containers. */
  function StartOrder(owned: seq<Owned>): Option<seq<nat>> {
    Passes(owned, |owned|, Placed([], {}))
  }

  /** `owned_vm_start_order`: passes over the containers, each placing whatever has become ready. */
  method OwnedVmStartOrder(owned: seq<Owned>) returns (r: Result<seq<nat>>)
    ensures r.Ok? ==> ValidOrder(owned, r.value)
    ensures r.Ok? <==> Orderable(owned)
    ensures r.Err? ==> forall order :: !ValidOrder(owned, order)
    ensures StartOrder(owned) == if r.Ok? then Some(r.value) else None
  {
    var order: seq<nat>, completed: set<string> := [], {};
    ghost var n: nat := |owned|;
    while |order| < |owned|
      invariant PartialOrder(owned, order, completed)
      invariant n + |order| >= |owned| && StartOrder(owned) == Passes(owned, n, Placed(order, completed))
      decreases |owned| - |order|
    {
      var progressed := false;
      ghost var order0 := order;
      ghost var completed0 := completed;
      var index := 0;
      while index < |owned|
        invariant 0 <= index <= |owned|
        invariant PartialOrder(owned, order, completed)
        invariant |order0| <= |order|
        invariant Pass(owned, 0, Placed(order0, completed0)) == Pass(owned, index, Placed(order, completed))
        invariant if progressed then |order0| < |order| else order == order0 && completed == completed0
        invariant !progressed ==> forall j :: 0 <= j < index ==> NotReady(owned[j], completed)
      {
        if owned[index].service !in completed
           && forall d :: d in owned[index].dependencies ==> d in completed
        {
          PlaceNext(owned, order, completed, index);
          completed := completed + {owned[index].service};
          order := order + [index];
          progressed := true;
        }
        index := index + 1;
      }
      if !progressed {
        StuckMeansUnorderable(owned, order, completed);
        forall w ensures !ValidOrder(owned, w) {
          if ValidOrder(owned, w) {
            ValidOrderMeaning(owned, w);
          }
        }
        return Err("HOST_NATIVE_VM_DEPENDENCIES_MISSING_OR_CYCLIC");
      }
      n := n - 1;
    }
    PartialOrderBounded(owned, order, completed);
    ValidOrderMeaning(owned, order);
    r := Ok(order);
  }

  // -------------------------------------------------------------------------
  // Stopping

  /** The dependencies that are themselves present. */
  function Retain(dependencies: seq<string>, services: set<string>): (r: seq<string>)
    ensures forall d :: d in r <==> d in dependencies && d in services
  {
    if dependencies == [] then []
    else
      var rest := Retain(dependencies[1..], services);
      if dependencies[0] in services then [dependencies[0]] + rest else rest
  }

  function ServiceSet(owned: seq<Owned>): (r: set<string>)
    ensures forall s :: s in r <==> Offers(owned, s)
  {
    set i | 0 <= i < |owned| :: owned[i].service
  }

  /** The containers with absent dependencies dropped. */
  function Present(owned: seq<Owned>): (r: seq<Owned>)
    ensures |r| == |owned|
    ensures forall i :: 0 <= i < |r| ==> r[i] == owned[i].(dependencies := Retain(owned[i].dependencies, ServiceSet(owned)))
  {
    seq(|owned|, i requires 0 <= i < |owned| => owned[i].(dependencies := Retain(owned[i].dependencies, ServiceSet(owned))))
  }

  /** Every index once, and whatever depends on a container comes before it. */
  ghost predicate ValidStopOrder(owned: seq<Owned>, order: seq<nat>) {
    && Permutation(order, |owned|)
    && forall i, j :: 0 <= i < |order| && 0 <= j < |order| && owned[order[i]].service in owned[order[j]].dependencies ==> j < i
  }

  function Reversed(s: seq<nat>): (r: seq<nat>)
    ensures |r| == |s|
    ensures forall i :: 0 <= i < |s| ==> r[i] == s[|s| - 1 - i]
  {
    if s == [] then [] else Reversed(s[1..]) + [s[0]]
  }

  /** In a start order of the present containers, a dependency stands before what depends on it. */
  lemma PresentBefore(owned: seq<Owned>, order: seq<nat>, p: nat, q: nat)
    requires ValidOrder(Present(owned), order) && p < |order| && q < |order|
    requires owned[order[q]].service in owned[order[p]].dependencies
    ensures q < p
  {
    var present, d := Present(owned), owned[order[q]].service;
    assert Offers(owned, d);
    assert d in present[order[p]].dependencies;
    assert Before(present, order, d, p);
    var k :| 0 <= k < p && present[order[k]].service == d;
    assert present[order[q]].service == d;
    assert k == q;
  }

  lemma ReversedStops(owned: seq<Owned>, order: seq<nat>)
    requires ValidOrder(Present(owned), order)
    ensures ValidStopOrder(owned, Reversed(order))
  {
    var back, n := Reversed(order), |order|;
    Pigeonhole(order, n);
    forall i: nat | i < n ensures i in back {
      var p := PlaceOf(Present(owned), order, i);
      assert back[n - 1 - p] == i;
    }
    forall i, j | 0 <= i < n && 0 <= j < n && owned[back[i]].service in owned[back[j]].dependencies
      ensures j < i
    {
      PresentBefore(owned, order, n - 1 - j, n - 1 - i);
    }
  }

  /** `owned_vm_stop_order`. */
  method OwnedVmStopOrder(owned: seq<Owned>) returns (r: Result<seq<nat>>)
    ensures r.Ok? ==> ValidStopOrder(owned, r.value)
    ensures r.Ok? <==> Orderable(Present(owned))
  {
    var order := OwnedVmStartOrder(Present(owned));
    if order.Err? {
      return order;
    }
    ReversedStops(owned, order.value);
    r := Ok(Reversed(order.value));
  }

  /** `owned` is what is left of the registered containers, with their declared dependencies. */
  ghost predicate Remnant(owned: seq<Owned>, declared: seq<Owned>) {
    && DistinctServices(owned)
    && forall i :: 0 <= i < |owned| ==> Declares(declared, owned[i])
  }

  ghost predicate Declares(declared: seq<Owned>, c: Owned) {
    exists j :: 0 <= j < |declared| && declared[j].service == c.service && declared[j].dependencies == c.dependencies
  }

  /** If the declared graph has a start order, every subset of it has a stop order. */
  lemma EveryRemnantCanStop(declared: seq<Owned>, owned: seq<Owned>)
    requires Orderable(declared) && Remnant(owned, declared)
    ensures Orderable(Present(owned))
  {
    var rank :| Acyclic(declared, rank);
    var present := Present(owned);
    forall i | 0 <= i < |present| ensures RanksAbove(present[i], rank) {
      assert Declares(declared, owned[i]);
      var j :| 0 <= j < |declared| && declared[j].service == owned[i].service && declared[j].dependencies == owned[i].dependencies;
      assert RanksAbove(declared[j], rank);
    }
    assert Acyclic(present, rank);
    forall i, d | 0 <= i < |present| && d in present[i].dependencies ensures Offers(present, d) {
      var k :| 0 <= k < |owned| && owned[k].service == d;
      assert present[k].service == d;
    }
  }
}
