/** The split planner of internal/scheduler/splitplan.go. */
module SplitPlan {
  import opened Sizing
  import opened Nodes
  import opened Sorting
  import opened Scheduler
  import opened Selection

  datatype Plan = Plan(driver: NodeState, workers: seq<NodeState>, modelSize: uint64, need: uint64)

  /** NotNeeded is Go's (nil, nil); the last two are its errors. */
  datatype Outcome =
    | NotNeeded
    | Split(plan: Plan)
    | NoDriver(size: uint64)
    | CannotFit(need: uint64, capacity: uint64, driver: NodeState, workers: nat)

  const MORE_MEMORY: (NodeState, NodeState) -> bool :=
    (a: NodeState, b: NodeState) => a.memAvailable > b.memAvailable

  /** The largest size among a node's models that match the request; 0 if none does. */
  function LargestAmong(models: seq<Model>, model: string): uint64 {
    if models == [] then 0 else
      var last := models[|models| - 1];
      var size := LargestAmong(models[..|models| - 1], model);
      if SameModel(last.name, model) && last.size > size then last.size else size
  }

  /** The largest size any eligible holder reports for the model; 0 if there is none. */
  function LargestSize(nodes: seq<NodeState>, model: string, now: int): uint64 {
    if nodes == [] then 0 else
      var last := nodes[|nodes| - 1];
      var size := LargestSize(nodes[..|nodes| - 1], model, now);
      if Serves(last, model, now) && LargestAmong(last.models, model) > size then LargestAmong(last.models, model)
      else size
  }

  lemma {:induction false} LargestAmongIsMaximum(models: seq<Model>, model: string)
    ensures forall m :: m in models && SameModel(m.name, model) ==> m.size <= LargestAmong(models, model)
    ensures LargestAmong(models, model) > 0 ==>
              exists m :: m in models && SameModel(m.name, model) && m.size == LargestAmong(models, model)
  {
    if models != [] {
      var init, last := models[..|models| - 1], models[|models| - 1];
      assert forall m :: m in models <==> m in init || m == last;
      LargestAmongIsMaximum(init, model);
    }
  }

  /** The size the planner works with is the maximum it is meant to be. */
  lemma {:induction false} LargestSizeIsMaximum(nodes: seq<NodeState>, model: string, now: int)
    ensures forall n, m :: n in nodes && Serves(n, model, now) && m in n.models && SameModel(m.name, model)
                           ==> m.size <= LargestSize(nodes, model, now)
    ensures LargestSize(nodes, model, now) > 0 ==>
              exists n, m :: n in nodes && Serves(n, model, now) && m in n.models
                             && SameModel(m.name, model) && m.size == LargestSize(nodes, model, now)
  {
    if nodes != [] {
      var init, last := nodes[..|nodes| - 1], nodes[|nodes| - 1];
      assert forall n :: n in nodes <==> n in init || n == last;
      LargestSizeIsMaximum(init, model, now);
      LargestAmongIsMaximum(last.models, model);
    }
  }

  /** uint64 addition */
  function WrapAdd(a: uint64, b: uint64): uint64 {
    if a + b < TWO_64 then a + b else a + b - TWO_64
  }

  /** The uint64 total of the driver's and the first n workers' usable memory. */
  function Capacity(driver: NodeState, workers: seq<NodeState>, n: nat): uint64
    requires n <= |workers|
  {
    if n == 0 then Usable(driver.memAvailable)
    else WrapAdd(Capacity(driver, workers, n - 1), Usable(workers[n - 1].memAvailable))
  }

  function CanDrive(model: string, now: int): NodeState -> bool {
    (n: NodeState) => Serves(n, model, now) && n.driver
  }

  function CanLend(driver: NodeState, now: int): NodeState -> bool {
    (n: NodeState) => Eligible(n, now) && n.worker && n.id != driver.id
  }

  /** The nodes whose memory the driver may borrow. */
  function Lenders(nodes: seq<NodeState>, driver: NodeState, now: int): seq<NodeState> {
    Filter(nodes, CanLend(driver, now))
  }

  predicate FitsWhole(n: NodeState, model: string, now: int, need: uint64) {
    Serves(n, model, now) && Usable(n.memAvailable) >= need
  }

  /** No split is called for: the model is unknown, or has no size, or fits on one holder. */
  ghost predicate SplitNotNeeded(nodes: seq<NodeState>, model: string, now: int, overflow: uint64) {
    var size := LargestSize(nodes, model, now);
    size == 0 || exists n :: n in nodes && FitsWhole(n, model, now, Need(size, overflow))
  }

  ghost predicate ChosenDriver(d: NodeState, nodes: seq<NodeState>, model: string, now: int) {
    && d in nodes && CanDrive(model, now)(d)
    && forall n :: n in nodes && CanDrive(model, now)(n) ==> n.memAvailable <= d.memAvailable
  }

  /** Before each recruitment the capacity was still short. */
  ghost predicate ShortBefore(driver: NodeState, workers: seq<NodeState>, need: uint64) {
    forall k :: 0 <= k < |workers| ==> Capacity(driver, workers, k) < need
  }

  /** r is a possible result of PlanSplit: sort.Slice leaves the order of nodes with equal
      memory open, everything else is determined. */
  ghost predicate Decides(nodes: seq<NodeState>, model: string, now: int, overflow: uint64, r: Outcome) {
    var size := LargestSize(nodes, model, now);
    var need := Need(size, overflow);
    if SplitNotNeeded(nodes, model, now, overflow) then r.NotNeeded?
    else match r
      case NotNeeded => false
      case NoDriver(s) => s == size && forall n :: n in nodes ==> !CanDrive(model, now)(n)
      case Split(plan) =>
        && plan.modelSize == size && plan.need == need
        && ChosenDriver(plan.driver, nodes, model, now)
        && Top(plan.workers, Lenders(nodes, plan.driver, now), MORE_MEMORY)
        && ShortBefore(plan.driver, plan.workers, need)
        && Capacity(plan.driver, plan.workers, |plan.workers|) >= need
      case CannotFit(n, capacity, driver, count) =>
        && n == need
        && ChosenDriver(driver, nodes, model, now)
        && exists workers :: AllRecruited(nodes, now, driver, workers, need, capacity, count)
  }

  /** Every lender was recruited and the capacity is still short. */
  ghost predicate AllRecruited(nodes: seq<NodeState>, now: int, driver: NodeState, workers: seq<NodeState>,
                               need: uint64, capacity: uint64, count: nat) {
    && multiset(workers) == multiset(Lenders(nodes, driver, now))
    && Sorted(workers, MORE_MEMORY)
    && |workers| == count && Capacity(driver, workers, count) == capacity
    && ShortBefore(driver, workers, need)
    && capacity < need
  }

  lemma MoreMemoryIsOrder()
    ensures StrictWeakOrder(MORE_MEMORY)
  {
  }

  lemma PrefixIsTop(sorted: seq<NodeState>, candidates: seq<NodeState>, k: nat)
    requires Sorted(sorted, MORE_MEMORY) && multiset(sorted) == multiset(candidates) && k <= |sorted|
    ensures Top(sorted[..k], candidates, MORE_MEMORY)
  {
    assert sorted == sorted[..k] + sorted[k..];
    forall x, y | multiset(candidates)[x] > multiset(sorted[..k])[x] && y in sorted[..k]
      ensures !MORE_MEMORY(x, y)
    {
      assert x in sorted[k..];
      var i :| k <= i < |sorted| && sorted[i] == x;
      var j :| 0 <= j < k && sorted[j] == y;
      assert !MORE_MEMORY(sorted[i], sorted[j]);
    }
  }

  /** The eligible holders and the largest matching size among them. */
  method CollectHolders(nodes: seq<NodeState>, model: string, now: int)
    returns (holders: seq<NodeState>, size: uint64)
    ensures holders == Filter(nodes, Holding(model, now))
    ensures size == LargestSize(nodes, model, now)
  {
    holders, size := [], 0;
    for i := 0 to |nodes|
      invariant holders == Filter(nodes[..i], Holding(model, now))
      invariant size == LargestSize(nodes[..i], model, now)
    {
      assert nodes[..i + 1][..i] == nodes[..i];
      var n := nodes[i];
      if !Eligible(n, now) || !n.HasModel(model) {
        continue;
      }
      holders := holders + [n];
      ghost var before := size;
      for j := 0 to |n.models|
        invariant size == if LargestAmong(n.models[..j], model) > before then LargestAmong(n.models[..j], model)
                          else before
      {
        assert n.models[..j + 1][..j] == n.models[..j];
        if SameModel(n.models[j].name, model) && n.models[j].size > size {
          size := n.models[j].size;
        }
      }
      assert n.models[..|n.models|] == n.models;
    }
    assert nodes[..|nodes|] == nodes;
  }

  /** The filtering loops of the planner. */
  method Select(nodes: seq<NodeState>, p: NodeState -> bool) returns (r: seq<NodeState>)
    ensures r == Filter(nodes, p)
  {
    r := [];
    for i := 0 to |nodes|
      invariant r == Filter(nodes[..i], p)
    {
      assert nodes[..i + 1][..i] == nodes[..i];
      if p(nodes[i]) {
        r := r + [nodes[i]];
      }
    }
    assert nodes[..|nodes|] == nodes;
  }

  lemma {:induction false} SameCapacity(driver: NodeState, a: seq<NodeState>, b: seq<NodeState>, n: nat)
    requires n <= |a| && n <= |b| && forall i :: 0 <= i < n ==> a[i] == b[i]
    ensures Capacity(driver, a, n) == Capacity(driver, b, n)
  {
    if n > 0 {
      SameCapacity(driver, a, b, n - 1);
    }
  }

  lemma ShortPrefix(driver: NodeState, candidates: seq<NodeState>, n: nat, need: uint64)
    requires n <= |candidates| && forall k :: 0 <= k < n ==> Capacity(driver, candidates, k) < need
    ensures ShortBefore(driver, candidates[..n], need)
    ensures Capacity(driver, candidates[..n], n) == Capacity(driver, candidates, n)
  {
    forall k | 0 <= k <= n
      ensures Capacity(driver, candidates[..n], k) == Capacity(driver, candidates, k)
    {
      SameCapacity(driver, candidates[..n], candidates, k);
    }
  }

  /** Recruits candidates in order until the capacity covers the need. */
  method Recruit(driver: NodeState, candidates: seq<NodeState>, need: uint64)
    returns (workers: seq<NodeState>, capacity: uint64)
    ensures workers <= candidates && capacity == Capacity(driver, workers, |workers|)
    ensures ShortBefore(driver, workers, need)
    ensures capacity < need ==> workers == candidates
  {
    hide Usable;
    workers, capacity := [], Usable(driver.memAvailable);
    for i := 0 to |candidates|
      invariant workers == candidates[..i] && capacity == Capacity(driver, candidates, i)
      invariant forall k :: 0 <= k < i ==> Capacity(driver, candidates, k) < need
    {
      if capacity >= need {
        break;
      }
      workers := workers + [candidates[i]];
      capacity := WrapAdd(capacity, Usable(candidates[i].memAvailable));
    }
    ShortPrefix(driver, candidates, |workers|, need);
  }

  /** Whether one of the holders fits the model whole. */
  method AnyFits(holders: seq<NodeState>, need: uint64) returns (b: bool)
    ensures b <==> exists n :: n in holders && Usable(n.memAvailable) >= need
  {
    for i := 0 to |holders|
      invariant forall j :: 0 <= j < i ==> Usable(holders[j].memAvailable) < need
    {
      if Usable(holders[i].memAvailable) >= need {
        return true;
      }
    }
    b := false;
  }

  lemma HoldersDecideWhole(nodes: seq<NodeState>, model: string, now: int, overflow: uint64)
    ensures var holders := Filter(nodes, Holding(model, now)); var size := LargestSize(nodes, model, now);
            SplitNotNeeded(nodes, model, now, overflow) <==>
            holders == [] || size == 0 || exists n :: n in holders && Usable(n.memAvailable) >= Need(size, overflow)
  {
    var holders := Filter(nodes, Holding(model, now));
    var need := Need(LargestSize(nodes, model, now), overflow);
    assert forall n :: n in holders <==> n in nodes && Holding(model, now)(n);
    assert forall n :: n in nodes && FitsWhole(n, model, now, need) <==>
                       n in holders && Usable(n.memAvailable) >= need;
  }

  method PlanSplit(nodes: seq<NodeState>, model: string, now: int, overflow: uint64) returns (r: Outcome)
    ensures Decides(nodes, model, now, overflow, r)
  {
    var holders, size := CollectHolders(nodes, model, now);
    HoldersDecideWhole(nodes, model, now, overflow);
    if |holders| == 0 || size == 0 {
      return NotNeeded;
    }
    var need := Need(size, overflow);
    var fits := AnyFits(holders, need);
    if fits {
      return NotNeeded;
    }
    var drivers := Select(holders, CanDrive(model, now));
    FilterFilter(nodes, Holding(model, now), CanDrive(model, now));
    if |drivers| == 0 {
      assert forall n :: n in nodes && CanDrive(model, now)(n) ==> n in drivers;
      return NoDriver(size);
    }
    MoreMemoryIsOrder();
    drivers := SortSlice(drivers, MORE_MEMORY);
    SortedHeadIsChosen(drivers, nodes, model, now);
    r := PlanWith(drivers[0], nodes, model, now, size, need, overflow);
  }

  /** The recruiting half of PlanSplit, once a split is called for and a driver is chosen. */
  method PlanWith(driver: NodeState, nodes: seq<NodeState>, model: string, now: int, size: uint64, need: uint64,
                  ghost overflow: uint64)
    returns (r: Outcome)
    requires !SplitNotNeeded(nodes, model, now, overflow) && ChosenDriver(driver, nodes, model, now)
    requires size == LargestSize(nodes, model, now) && need == Need(size, overflow)
    ensures Decides(nodes, model, now, overflow, r)
  {
    var candidates := Select(nodes, CanLend(driver, now));
    MoreMemoryIsOrder();
    var sorted := SortSlice(candidates, MORE_MEMORY);
    var workers, capacity := Recruit(driver, sorted, need);
    if capacity < need {
      assert AllRecruited(nodes, now, driver, workers, need, capacity, |workers|);
      return CannotFit(need, capacity, driver, |workers|);
    }
    PrefixIsTop(sorted, candidates, |workers|);
    assert sorted[..|workers|] == workers;
    r := Split(Plan(driver, workers, size, need));
  }

  lemma SortedHeadIsChosen(drivers: seq<NodeState>, nodes: seq<NodeState>, model: string, now: int)
    requires Sorted(drivers, MORE_MEMORY) && drivers != []
    requires multiset(drivers) == multiset(Filter(nodes, CanDrive(model, now)))
    ensures ChosenDriver(drivers[0], nodes, model, now)
  {
    var f := Filter(nodes, CanDrive(model, now));
    SameMembers(drivers, f);
    assert drivers[0] in f;
    forall n | n in nodes && CanDrive(model, now)(n)
      ensures n.memAvailable <= drivers[0].memAvailable
    {
      assert n in f;
      var i :| 0 <= i < |drivers| && drivers[i] == n;
      assert i > 0 ==> !MORE_MEMORY(drivers[i], drivers[0]);
    }
  }
}
