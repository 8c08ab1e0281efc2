/** The order of decisions in handleInference of internal/gateway/gateway.go, at one clock
    reading: plan a split for OpenAI-dialect paths, otherwise pick one node. */
module Gateway {
  import opened Sizing
  import opened Nodes
  import opened Sorting
  import opened Scheduler
  import opened SplitPlan
  import opened PlanTheorems
  import opened Registries

  datatype Decision =
    | BadRequest
    | Pipeline(plan: Plan)
    | Forward(node: NodeState)
    | NotFound(available: seq<string>)

  const SPLIT_PATHS := "/v1/"

  /** d is a possible decision: a plan if PlanSplit may return one, else what Pick says. */
  ghost predicate Routes(nodes: seq<NodeState>, path: string, model: string, now: int, overflow: uint64, d: Decision) {
    if model == "" then d.BadRequest?
    else match d
      case BadRequest => false
      case Pipeline(plan) => SPLIT_PATHS <= path && Decides(nodes, model, now, overflow, Split(plan))
      case Forward(n) => Picks(nodes, model, now, Picked(n)) && MayFallThrough(nodes, path, model, now, overflow)
      case NotFound(available) =>
        Picks(nodes, model, now, NoNode(model, available)) && MayFallThrough(nodes, path, model, now, overflow)
  }

  ghost predicate MayFallThrough(nodes: seq<NodeState>, path: string, model: string, now: int, overflow: uint64) {
    SPLIT_PATHS <= path ==> exists r :: Decides(nodes, model, now, overflow, r) && !r.Split?
  }

  method HandleInference(nodes: seq<NodeState>, path: string, model: string, now: int, overflow: uint64)
    returns (d: Decision)
    ensures Routes(nodes, path, model, now, overflow, d)
  {
    if model == "" {
      return BadRequest;
    }
    if SPLIT_PATHS <= path {
      var outcome := PlanSplit(nodes, model, now, overflow);
      if outcome.Split? {
        return Pipeline(outcome.plan);
      }
    }
    var choice := Pick(nodes, model, now);
    match choice
    case Picked(n) => d := Forward(n);
    case NoNode(_, available) => d := NotFound(available);
  }

  /** What the gateway hands to a driver, planned on a snapshot of its registry, is a sound
      plan: the snapshot supplies the distinct IDs that soundness rests on. */
  lemma RoutedPlanIsSound(reg: map<string, NodeState>, nodes: seq<NodeState>, path: string, model: string, now: int,
                          overflow: uint64, plan: Plan)
    requires SnapshotOf(nodes, reg) && Routes(nodes, path, model, now, overflow, Pipeline(plan))
    ensures plan.driver.id in reg && reg[plan.driver.id] == plan.driver
    ensures Serves(plan.driver, model, now) && plan.driver.driver
    ensures plan.workers != [] && DistinctIds(plan.workers)
    ensures forall w :: w in plan.workers ==>
              w.id in reg && reg[w.id] == w && Eligible(w, now) && w.worker && w.id != plan.driver.id
    ensures Total(plan.driver, plan.workers) >= plan.need == Need(plan.modelSize, overflow)
  {
    hide Decides;
    SnapshotIds(nodes, reg);
    PlanIsSound(nodes, model, now, overflow, plan);
  }

  /** The 404 happens exactly when no eligible node holds the model; in particular never
      after PlanSplit returned a plan or an error. */
  lemma NotFoundMeansNoHolder(nodes: seq<NodeState>, path: string, model: string, now: int, overflow: uint64,
                              d: Decision)
    requires Routes(nodes, path, model, now, overflow, d)
    ensures d.NotFound? <==> model != "" && forall n :: n in nodes ==> !Serves(n, model, now)
  {
    hide Need;
    hide Usable;
    if d.Forward? {
      assert Holding(model, now)(d.node);
    }
    if d.Pipeline? {
      assert CanDrive(model, now)(d.plan.driver);
    }
  }

  /** If PlanSplit returns a plan or an error then Pick finds a node. */
  lemma SplitVerdictImpliesPick(nodes: seq<NodeState>, model: string, now: int, overflow: uint64, r: Outcome,
                                p: PickResult)
    requires Decides(nodes, model, now, overflow, r) && !r.NotNeeded?
    requires Picks(nodes, model, now, p)
    ensures p.Picked? && p.node in nodes && Serves(p.node, model, now)
  {
    hide Need;
    hide Usable;
    assert LargestSize(nodes, model, now) > 0;
    LargestSizeIsMaximum(nodes, model, now);
    if p.Picked? {
      assert Holding(model, now)(p.node);
    }
  }

  /** m goes before f whatever memory they have. */
  predicate RanksBefore(m: NodeState, f: NodeState, model: string) {
    if m.HasLoaded(model) != f.HasLoaded(model) then m.HasLoaded(model) else m.active < f.active
  }

  /** A holder before which no other holder ranks. */
  ghost predicate Unbeaten(f: NodeState, nodes: seq<NodeState>, model: string, now: int) {
    forall m :: m in nodes && Serves(m, model, now) ==> !RanksBefore(m, f, model)
  }

  lemma PickIsUnbeaten(nodes: seq<NodeState>, model: string, now: int, n: NodeState)
    requires Picks(nodes, model, now, Picked(n))
    ensures n in nodes && Serves(n, model, now) && Unbeaten(n, nodes, model, now)
    ensures forall m :: m in nodes && Serves(m, model, now) ==> !Better(model)(m, n)
  {
    var holding, better := Holding(model, now), Better(model);
    var i :| BestOfAt(nodes, holding, n, better, i);
    assert holding(n);
    forall m | m in nodes && Serves(m, model, now)
      ensures !better(m, n) && !RanksBefore(m, n, model)
    {
      var j :| 0 <= j < |nodes| && nodes[j] == m;
      assert holding(m);
      assert if j < i then better(n, m) else !better(m, n);
    }
  }

  /** Exactly when the node Pick chooses fits the model whole: when some holder does before
      which no other ranks on being loaded and on requests in flight. */
  lemma PickedNodeFits(nodes: seq<NodeState>, model: string, now: int, need: uint64, n: NodeState)
    requires Picks(nodes, model, now, Picked(n))
    ensures FitsWhole(n, model, now, need) <==>
            exists f :: f in nodes && FitsWhole(f, model, now, need) && Unbeaten(f, nodes, model, now)
  {
    PickIsUnbeaten(nodes, model, now, n);
    hide Picks;
    hide Usable;
    if f :| f in nodes && FitsWhole(f, model, now, need) && Unbeaten(f, nodes, model, now) {
      assert !RanksBefore(n, f, model) && !RanksBefore(f, n, model) && !Better(model)(f, n);
      UsableMonotone(f.memAvailable, n.memAvailable);
    }
  }

  /** So with holders that differ neither in being loaded nor in load it fits if any does. */
  lemma PickedNodeFitsOnTies(nodes: seq<NodeState>, model: string, now: int, need: uint64, n: NodeState, f: NodeState)
    requires Picks(nodes, model, now, Picked(n))
    requires f in nodes && FitsWhole(f, model, now, need)
    requires forall a, b :: a in nodes && b in nodes && Serves(a, model, now) && Serves(b, model, now)
               ==> a.HasLoaded(model) == b.HasLoaded(model) && a.active == b.active
    ensures FitsWhole(n, model, now, need)
  {
    PickedNodeFits(nodes, model, now, need, n);
    hide Picks;
    hide Usable;
    assert Unbeaten(f, nodes, model, now);
  }

  /** The choice spelled out: every other eligible holder is no better in the order loaded,
      fewest active, most memory, and strictly worse if it comes first in the snapshot. */
  lemma PickIsEarliestBest(nodes: seq<NodeState>, model: string, now: int, n: NodeState, j: nat)
    requires Picks(nodes, model, now, Picked(n))
    requires j < |nodes| && Serves(nodes[j], model, now)
    ensures var m := nodes[j];
            var nLoaded := exists l :: l in n.loaded
                                        && (l == model || l == model + ":latest" || l + ":latest" == model);
            var mLoaded := exists l :: l in m.loaded
                                        && (l == model || l == model + ":latest" || l + ":latest" == model);
            || (nLoaded && !mLoaded)
            || (nLoaded == mLoaded && n.active < m.active)
            || (nLoaded == mLoaded && n.active == m.active && n.memAvailable > m.memAvailable)
            || (nLoaded == mLoaded && n.active == m.active && n.memAvailable == m.memAvailable
                && exists i :: 0 <= i <= j && nodes[i] == n)
  {
    var holding, better := Holding(model, now), Better(model);
    var i :| BestOfAt(nodes, holding, n, better, i);
    assert holding(nodes[j]);
    assert if j < i then better(n, nodes[j]) else !better(nodes[j], n);
    LoadedExactly(n, model);
    LoadedExactly(nodes[j], model);
  }

  lemma LoadedExactly(n: NodeState, model: string)
    ensures n.HasLoaded(model) <==>
            exists l :: l in n.loaded && (l == model || l == model + ":latest" || l + ":latest" == model)
  {
    if l :| l in n.loaded && (l == model || l == model + ":latest" || l + ":latest" == model) {
      assert SameModel(l, model);
    }
    if l :| l in n.loaded && SameModel(l, model) {
      assert l == model || l == model + ":latest" || l + ":latest" == model;
    }
  }

  lemma {:induction false} OfferedBySomeone(nodes: seq<NodeState>, now: int, name: string)
    requires Listed(Offers(nodes, now), name)
    ensures exists n, m :: n in nodes && Eligible(n, now) && m in n.models && m.name == name
  {
    var init, last := nodes[..|nodes| - 1], nodes[|nodes| - 1];
    var o :| o in Offers(nodes, now) && o.model.name == name;
    assert forall n :: n in init ==> n in nodes;
    if o in Offers(init, now) {
      assert Listed(Offers(init, now), name);
      OfferedBySomeone(init, now, name);
    } else {
      NodeOfferIsAModel(last, |last.models|, o);
      assert last in nodes;
    }
  }

  lemma {:induction false} NodeOfferIsAModel(n: NodeState, count: nat, o: Offer)
    requires count <= |n.models| && o in NodeOffers(n, count)
    ensures o.model in n.models
  {
    if o != Offer(n.name, n.models[count - 1]) {
      NodeOfferIsAModel(n, count - 1, o);
    }
  }

  /** The models a 404 suggests are in order, distinct, available, and none is the one that
      was asked for under either of its names. */
  lemma SuggestionsNeverMatch(nodes: seq<NodeState>, path: string, model: string, now: int, overflow: uint64,
                              available: seq<string>)
    requires Routes(nodes, path, model, now, overflow, NotFound(available))
    ensures StrictlySorted(available)
    ensures forall name :: name in available ==> !SameModel(name, model)
    ensures forall name :: name in available ==>
              exists n, m :: n in nodes && Eligible(n, now) && m in n.models && m.name == name
  {
    hide Decides;
    forall name | name in available
      ensures !SameModel(name, model)
      ensures exists n, m :: n in nodes && Eligible(n, now) && m in n.models && m.name == name
    {
      OfferedBySomeone(nodes, now, name);
      var n, m :| n in nodes && Eligible(n, now) && m in n.models && m.name == name;
      assert SameModel(name, model) ==> n.HasModel(model);
    }
  }
}
