/** What routing and planning answer, told by the fields of the nodes alone: who may be used,
    what counts as having a model, and who may drive or lend. */
module RoutingTheorems {
  import opened Sizing
  import opened Nodes
  import opened Sorting
  import opened Scheduler
  import opened Selection
  import opened SplitPlan
  import opened PlanTheorems
  import opened Registries
  import opened Gateway
  import Text

  /** The node that Pick chooses shares, has Ollama up, was updated less than 20 seconds ago and
      has the model, under its name or with or without ":latest". */
  lemma PickedNodeIsInService(nodes: seq<NodeState>, model: string, now: int, n: NodeState)
    requires Picks(nodes, model, now, Picked(n))
    ensures n in nodes && n.sharing && n.ollamaOK && now - n.updatedAt < 20 * SECOND
    ensures exists m :: m in n.models && (m.name == model || m.name == model + ":latest" || m.name + ":latest" == model)
  {
    PickIsUnbeaten(nodes, model, now, n);
    var m :| m in n.models && SameModel(m.name, model);
  }

  /** Pick finds no node exactly if no node that shares, has Ollama up and is that fresh has a
      model of the name. */
  lemma NoNodeExactly(nodes: seq<NodeState>, model: string, now: int, r: PickResult)
    requires Picks(nodes, model, now, r)
    ensures r.NoNode? <==>
            forall n, m :: n in nodes && n.sharing && n.ollamaOK && now - n.updatedAt < 20 * SECOND && m in n.models ==>
              m.name != model && m.name != model + ":latest" && m.name + ":latest" != model
  {
    if r.Picked? {
      PickedNodeIsInService(nodes, model, now, r.node);
    } else {
      forall n, m | n in nodes && n.sharing && n.ollamaOK && now - n.updatedAt < 20 * SECOND && m in n.models
        ensures m.name != model && m.name != model + ":latest" && m.name + ":latest" != model
      {
        assert !Serves(n, model, now);
        assert SameModel(m.name, model) ==> n.HasModel(model);
      }
    }
  }

  lemma {:induction false} OfferedIfInService(nodes: seq<NodeState>, now: int, n: NodeState, m: Model)
    requires n in nodes && n.sharing && n.ollamaOK && now - n.updatedAt < 20 * SECOND && m in n.models
    ensures Listed(Offers(nodes, now), m.name)
  {
    var init, last := nodes[..|nodes| - 1], nodes[|nodes| - 1];
    if n in init {
      OfferedIfInService(init, now, n, m);
      var o :| o in Offers(init, now) && o.model.name == m.name;
      assert o in Offers(nodes, now);
    } else {
      assert n == last;
      var j :| 0 <= j < |n.models| && n.models[j] == m;
      OfferOfModel(n, |n.models|, j);
      assert Offer(n.name, m) in Offers(nodes, now);
    }
  }

  lemma {:induction false} OfferOfModel(n: NodeState, count: nat, j: nat)
    requires j < count <= |n.models|
    ensures Offer(n.name, n.models[j]) in NodeOffers(n, count)
  {
    if j < count - 1 {
      OfferOfModel(n, count - 1, j);
    }
  }

  /** PoolModels lists exactly the models of the nodes in service, in order and once each. */
  lemma PoolModelsExactly(nodes: seq<NodeState>, now: int, names: seq<string>)
    requires ModelList(names, Offers(nodes, now))
    ensures forall i, j :: 0 <= i < j < |names| ==> Text.Less(names[i], names[j])
    ensures forall name :: name in names <==>
              exists n, m :: n in nodes && n.sharing && n.ollamaOK && now - n.updatedAt < 20 * SECOND
                             && m in n.models && m.name == name
  {
    forall name
      ensures name in names <==>
              exists n, m :: n in nodes && n.sharing && n.ollamaOK && now - n.updatedAt < 20 * SECOND
                             && m in n.models && m.name == name
    {
      if name in names {
        OfferedBySomeone(nodes, now, name);
      }
      if n, m :| n in nodes && n.sharing && n.ollamaOK && now - n.updatedAt < 20 * SECOND
                 && m in n.models && m.name == name {
        OfferedIfInService(nodes, now, n, m);
      }
    }
  }

  /** How many of the first k models have the name. */
  function Copies(models: seq<Model>, k: nat, name: string): nat
    requires k <= |models|
  {
    if k == 0 then 0 else Copies(models, k - 1, name) + if models[k - 1].name == name then 1 else 0
  }

  /** How often nodes called x, among the first k and in service, advertise the model. */
  function TimesServed(nodes: seq<NodeState>, k: nat, now: int, name: string, x: string): nat
    requires k <= |nodes|
  {
    if k == 0 then 0 else
      var n := nodes[k - 1];
      TimesServed(nodes, k - 1, now, name, x)
        + if n.sharing && n.ollamaOK && now - n.updatedAt < 20 * SECOND && n.name == x
          then Copies(n.models, |n.models|, name) else 0
  }

  lemma {:induction false} NodeServes(before: seq<Offer>, n: NodeState, k: nat, name: string, x: string)
    requires k <= |n.models|
    ensures multiset(ServersOf(before + NodeOffers(n, k), name))[x] ==
            multiset(ServersOf(before, name))[x] + if n.name == x then Copies(n.models, k, name) else 0
  {
    if k == 0 {
      assert before + [] == before;
    } else {
      NodeServes(before, n, k - 1, name, x);
      var o := Offer(n.name, n.models[k - 1]);
      assert before + NodeOffers(n, k) == (before + NodeOffers(n, k - 1)) + [o];
      OneMoreOffer(before + NodeOffers(n, k - 1), o, name);
    }
  }

  lemma {:induction false} ServersCounted(nodes: seq<NodeState>, k: nat, now: int, name: string, x: string)
    requires k <= |nodes|
    ensures multiset(ServersOf(Offers(nodes[..k], now), name))[x] == TimesServed(nodes, k, now, name, x)
  {
    if k > 0 {
      ServersCounted(nodes, k - 1, now, name, x);
      OffersAppend(nodes, k - 1, now);
      NodeServes(Offers(nodes[..k - 1], now), nodes[k - 1], |nodes[k - 1].models|, name, x);
      hide Offers;
      hide ServersOf;
      hide NodeOffers;
    }
  }

  /** Model j of node i is the first of its name among the nodes in service. */
  ghost predicate IsFirst(nodes: seq<NodeState>, now: int, name: string, i: nat, j: nat) {
    && i < |nodes| && j < |nodes[i].models| && nodes[i].models[j].name == name
    && nodes[i].sharing && nodes[i].ollamaOK && now - nodes[i].updatedAt < 20 * SECOND
    && (forall l :: 0 <= l < j ==> nodes[i].models[l].name != name)
    && forall h, m :: (0 <= h < i && nodes[h].sharing && nodes[h].ollamaOK && now - nodes[h].updatedAt < 20 * SECOND
                       && m in nodes[h].models) ==> m.name != name
  }

  lemma {:induction false} FirstInNode(before: seq<Offer>, n: NodeState, k: nat, name: string) returns (j: nat)
    requires k <= |n.models| && FirstModel(before, name).None? && FirstModel(before + NodeOffers(n, k), name).Some?
    ensures j < k && n.models[j].name == name && FirstModel(before + NodeOffers(n, k), name) == Some(n.models[j])
    ensures forall l :: 0 <= l < j ==> n.models[l].name != name
  {
    assert before + NodeOffers(n, 0) == before;
    var o, first := Offer(n.name, n.models[k - 1]), before + NodeOffers(n, k - 1);
    assert before + NodeOffers(n, k) == first + [o];
    OneMoreOffer(first, o, name);
    hide FirstModel;
    hide ServersOf;
    hide NodeOffers;
    if FirstModel(first, name).Some? {
      j := FirstInNode(before, n, k - 1, name);
    } else {
      j := k - 1;
      forall l | 0 <= l < j
        ensures n.models[l].name != name
      {
        OfferOfModel(n, k - 1, l);
        assert Offer(n.name, n.models[l]) in first;
        FirstModelListed(first, name);
      }
    }
  }

  lemma {:induction false} NodeKeepsFirst(before: seq<Offer>, n: NodeState, k: nat, name: string)
    requires k <= |n.models| && FirstModel(before, name).Some?
    ensures FirstModel(before + NodeOffers(n, k), name) == FirstModel(before, name)
  {
    if k == 0 {
      assert before + [] == before;
    } else {
      NodeKeepsFirst(before, n, k - 1, name);
      var o := Offer(n.name, n.models[k - 1]);
      assert before + NodeOffers(n, k) == (before + NodeOffers(n, k - 1)) + [o];
      OneMoreOffer(before + NodeOffers(n, k - 1), o, name);
    }
  }

  lemma {:induction false} FirstIsFirst(nodes: seq<NodeState>, k: nat, now: int, name: string) returns (i: nat, j: nat)
    requires k <= |nodes| && FirstModel(Offers(nodes[..k], now), name).Some?
    ensures i < k && IsFirst(nodes, now, name, i, j)
    ensures FirstModel(Offers(nodes[..k], now), name) == Some(nodes[i].models[j])
  {
    var before := Offers(nodes[..k - 1], now);
    OffersAppend(nodes, k - 1, now);
    if FirstModel(before, name).Some? {
      i, j := FirstIsFirst(nodes, k - 1, now, name);
      NodeKeepsFirst(before, nodes[k - 1], |nodes[k - 1].models|, name);
    } else {
      i := k - 1;
      j := FirstInNode(before, nodes[i], |nodes[i].models|, name);
      forall h, m | 0 <= h < i && nodes[h].sharing && nodes[h].ollamaOK && now - nodes[h].updatedAt < 20 * SECOND
                    && m in nodes[h].models
        ensures m.name != name
      {
        assert nodes[h] in nodes[..k - 1];
        OfferedIfInService(nodes[..k - 1], now, nodes[h], m);
        FirstModelListed(before, name);
      }
    }
  }

  /** Each entry of PoolModelDetails has the details the first node in service advertises, and
      lists every node in service that advertises the model, by name, once per advertisement
      and in order. */
  lemma DetailsExactly(nodes: seq<NodeState>, now: int, details: seq<ModelDetail>, d: ModelDetail)
    requires DetailList(details, Offers(nodes, now)) && d in details
    ensures exists i: nat, j: nat :: IsFirst(nodes, now, d.model.name, i, j) && nodes[i].models[j] == d.model
    ensures forall x :: multiset(d.nodes)[x] == TimesServed(nodes, |nodes|, now, d.model.name, x)
    ensures forall i, j :: 0 <= i < j < |d.nodes| ==> !Text.Less(d.nodes[j], d.nodes[i])
  {
    assert nodes[..|nodes|] == nodes;
    assert Describes(d, Offers(nodes, now));
    var i, j := FirstIsFirst(nodes, |nodes|, now, d.model.name);
    forall x
      ensures multiset(d.nodes)[x] == TimesServed(nodes, |nodes|, now, d.model.name, x)
    {
      ServersCounted(nodes, |nodes|, now, d.model.name, x);
    }
    forall i, j | 0 <= i < j < |d.nodes|
      ensures !Text.Less(d.nodes[j], d.nodes[i])
    {
      assert !Text.LESS_THAN(d.nodes[j], d.nodes[i]);
    }
  }

  /** Who may drive a split, on the fields. */
  lemma CanDriveExactly(n: NodeState, model: string, now: int)
    ensures CanDrive(model, now)(n) <==>
            && n.sharing && n.ollamaOK && now - n.updatedAt < 20 * SECOND && n.driver
            && exists m :: m in n.models
                           && (m.name == model || m.name == model + ":latest" || m.name + ":latest" == model)
  {
    if m :| m in n.models && (m.name == model || m.name == model + ":latest" || m.name + ":latest" == model) {
      assert SameModel(m.name, model);
    }
    if m :| m in n.models && SameModel(m.name, model) {
      assert m.name == model || m.name == model + ":latest" || m.name + ":latest" == model;
    }
  }

  /** PlanSplit says that there is no driver exactly if a split is called for and no node in
      service that has the model has llama-server installed. */
  lemma NoDriverExactly(nodes: seq<NodeState>, model: string, now: int, overflow: uint64, r: Outcome)
    requires Decides(nodes, model, now, overflow, r)
    ensures r.NoDriver? <==>
            !r.NotNeeded?
            && forall n, m :: n in nodes && n.sharing && n.ollamaOK && now - n.updatedAt < 20 * SECOND && m in n.models
                              && (m.name == model || m.name == model + ":latest" || m.name + ":latest" == model)
                 ==> !n.driver
  {
    SplitIsNeeded(nodes, model, now, overflow, r);
    hide Decides;
    forall n
      ensures CanDrive(model, now)(n) <==>
              && n.sharing && n.ollamaOK && now - n.updatedAt < 20 * SECOND && n.driver
              && exists m :: m in n.models
                             && (m.name == model || m.name == model + ":latest" || m.name + ":latest" == model)
    {
      CanDriveExactly(n, model, now);
    }
    hide CanDrive;
    hide FitsWhole;
    hide Serves;
    hide NeedOf;
  }

  /** The driver of a plan, or of a refusal, is a node in service that has the model and
      llama-server installed, and none of those has more memory. */
  lemma DriverHasTheMost(nodes: seq<NodeState>, model: string, now: int, overflow: uint64, r: Outcome,
                         n: NodeState, m: Model)
    requires Decides(nodes, model, now, overflow, r) && (r.Split? || r.CannotFit?)
    requires n in nodes && n.sharing && n.ollamaOK && now - n.updatedAt < 20 * SECOND && n.driver && m in n.models
    requires m.name == model || m.name == model + ":latest" || m.name + ":latest" == model
    ensures var d := DriverOf(r);
            && d in nodes && d.sharing && d.ollamaOK && now - d.updatedAt < 20 * SECOND && d.driver
            && (exists l :: l in d.models
                            && (l.name == model || l.name == model + ":latest" || l.name + ":latest" == model))
            && n.memAvailable <= d.memAvailable
  {
    SplitIsNeeded(nodes, model, now, overflow, r);
    hide Decides;
    CanDriveExactly(n, model, now);
    CanDriveExactly(DriverOf(r), model, now);
    hide CanDrive;
  }

  /** A driver may borrow from every node in service that runs as a worker, and from no other
      and never from itself. */
  lemma LendersExactly(nodes: seq<NodeState>, driver: NodeState, now: int, x: NodeState)
    ensures multiset(Lenders(nodes, driver, now))[x] ==
            if x.sharing && x.ollamaOK && now - x.updatedAt < 20 * SECOND && x.worker && x.id != driver.id
            then multiset(nodes)[x] else 0
  {
    FilterCount(nodes, CanLend(driver, now), x);
  }

  /** A plan's workers are such nodes, and none that was passed over has more memory. */
  lemma WorkersHaveTheMost(nodes: seq<NodeState>, model: string, now: int, overflow: uint64, plan: Plan,
                           w: NodeState, x: NodeState)
    requires Decides(nodes, model, now, overflow, Split(plan)) && w in plan.workers
    requires x.sharing && x.ollamaOK && now - x.updatedAt < 20 * SECOND && x.worker && x.id != plan.driver.id
    requires multiset(nodes)[x] > multiset(plan.workers)[x]
    ensures w in nodes && w.sharing && w.ollamaOK && now - w.updatedAt < 20 * SECOND && w.worker
    ensures w.id != plan.driver.id && x.memAvailable <= w.memAvailable
  {
    var lenders := Lenders(nodes, plan.driver, now);
    LendersExactly(nodes, plan.driver, now, x);
    LendersExactly(nodes, plan.driver, now, w);
    hide Need;
    hide Usable;
    hide Capacity;
    assert multiset(lenders)[w] >= multiset(plan.workers)[w] > 0;
    assert !MORE_MEMORY(x, w);
    hide Lenders;
  }

  /** No split is called for exactly if no node in service reports a size for the model, or one
      that has it can take the largest size reported whole. */
  lemma NotNeededExactly(nodes: seq<NodeState>, model: string, now: int, overflow: uint64, r: Outcome)
    requires Decides(nodes, model, now, overflow, r)
    ensures r.NotNeeded? <==>
            || LargestSize(nodes, model, now) == 0
            || exists n, m :: n in nodes && n.sharing && n.ollamaOK && now - n.updatedAt < 20 * SECOND && m in n.models
                 && (m.name == model || m.name == model + ":latest" || m.name + ":latest" == model)
                 && Usable(n.memAvailable) >= Need(LargestSize(nodes, model, now), overflow)
  {
    hide Need;
    hide Usable;
    hide LargestSize;
    forall n
      ensures Serves(n, model, now) <==>
              && n.sharing && n.ollamaOK && now - n.updatedAt < 20 * SECOND
              && exists m :: m in n.models
                             && (m.name == model || m.name == model + ":latest" || m.name + ":latest" == model)
    {
      ServesExactly(n, model, now);
    }
    hide Serves;
  }

  lemma ServesExactly(n: NodeState, model: string, now: int)
    ensures Serves(n, model, now) <==>
            && n.sharing && n.ollamaOK && now - n.updatedAt < 20 * SECOND
            && exists m :: m in n.models
                           && (m.name == model || m.name == model + ":latest" || m.name + ":latest" == model)
  {
    if m :| m in n.models && (m.name == model || m.name == model + ":latest" || m.name + ":latest" == model) {
      assert SameModel(m.name, model);
    }
    if m :| m in n.models && SameModel(m.name, model) {
      assert m.name == model || m.name == model + ":latest" || m.name + ":latest" == model;
    }
  }

  /** The size planned for is the largest a node in service reports under a matching name. */
  lemma LargestSizeExactly(nodes: seq<NodeState>, model: string, now: int)
    ensures forall n, m :: n in nodes && n.sharing && n.ollamaOK && now - n.updatedAt < 20 * SECOND && m in n.models
              && (m.name == model || m.name == model + ":latest" || m.name + ":latest" == model)
              ==> m.size <= LargestSize(nodes, model, now)
    ensures LargestSize(nodes, model, now) > 0 ==>
              exists n, m :: n in nodes && n.sharing && n.ollamaOK && now - n.updatedAt < 20 * SECOND && m in n.models
                && (m.name == model || m.name == model + ":latest" || m.name + ":latest" == model)
                && m.size == LargestSize(nodes, model, now)
  {
    LargestSizeIsMaximum(nodes, model, now);
    hide LargestSize;
    forall n, m | n in nodes && n.sharing && n.ollamaOK && now - n.updatedAt < 20 * SECOND && m in n.models
                  && (m.name == model || m.name == model + ":latest" || m.name + ":latest" == model)
      ensures m.size <= LargestSize(nodes, model, now)
    {
      assert SameModel(m.name, model);
      assert n.HasModel(model);
    }
    if LargestSize(nodes, model, now) > 0 {
      var n, m :| n in nodes && Serves(n, model, now) && m in n.models && SameModel(m.name, model)
                  && m.size == LargestSize(nodes, model, now);
    }
  }

  /** A request without a model is refused, one whose path does not begin with /v1/ goes where
      Pick says, and one whose path does goes to a pipeline whenever PlanSplit can only plan. */
  lemma RoutesExactly(nodes: seq<NodeState>, path: string, model: string, now: int, overflow: uint64, d: Decision)
    requires Routes(nodes, path, model, now, overflow, d)
    ensures d.BadRequest? <==> model == []
    ensures d.Pipeline? ==> |path| >= 4 && path[0] == '/' && path[1] == 'v' && path[2] == '1' && path[3] == '/'
    ensures (model != [] && |path| >= 4 && path[0] == '/' && path[1] == 'v' && path[2] == '1' && path[3] == '/'
             && (forall r :: Decides(nodes, model, now, overflow, r) ==> r.Split?)) ==> d.Pipeline?
    ensures d.Pipeline? ==> Decides(nodes, model, now, overflow, Split(d.plan))
    ensures d.Forward? ==> Picks(nodes, model, now, Picked(d.node))
    ensures d.NotFound? ==> Picks(nodes, model, now, NoNode(model, d.available))
  {
    hide Decides;
    hide Picks;
    if |path| >= 4 && path[0] == '/' && path[1] == 'v' && path[2] == '1' && path[3] == '/' {
      assert path[..4] == "/v1/";
      assert SPLIT_PATHS <= path;
    }
    if SPLIT_PATHS <= path {
      assert path[..4] == "/v1/";
    }
  }

  /** A snapshot lists this node first and goes by name after that. */
  lemma SnapshotOrder(s: seq<NodeState>, nodes: map<string, NodeState>, i: nat, j: nat)
    requires SnapshotOf(s, nodes) && i < j < |s|
    ensures s[j].self ==> s[i].self
    ensures s[i].self == s[j].self ==> s[i].name == s[j].name || Text.Less(s[i].name, s[j].name)
  {
    assert !SELF_FIRST(s[j], s[i]);
    Text.Total(s[i].name, s[j].name);
  }
}
