/** Routing decisions and pool listings of internal/scheduler/scheduler.go. One clock
    reading `now` holds for a whole call. */
module Scheduler {
  import opened Nodes
  import opened Sorting
  import Text

  predicate Serves(n: NodeState, model: string, now: int) {
    Eligible(n, now) && n.HasModel(model)
  }

  function Holding(model: string, now: int): NodeState -> bool {
    (n: NodeState) => Serves(n, model, now)
  }

  /** Loaded first, then fewest requests in flight, then most free memory. */
  function Better(model: string): (NodeState, NodeState) -> bool {
    (a: NodeState, b: NodeState) =>
      if a.HasLoaded(model) != b.HasLoaded(model) then a.HasLoaded(model)
      else if a.active != b.active then a.active < b.active
      else a.memAvailable > b.memAvailable
  }

  lemma BetterIsOrder(model: string)
    ensures StrictWeakOrder(Better(model))
  {
  }

  datatype PickResult =
    | Picked(node: NodeState)
    | NoNode(model: string, available: seq<string>)

  /** One advertised model on one eligible node. */
  datatype Offer = Offer(node: string, model: Model)

  function NodeOffers(n: NodeState, count: nat): (r: seq<Offer>)
    requires count <= |n.models|
  {
    if count == 0 then [] else NodeOffers(n, count - 1) + [Offer(n.name, n.models[count - 1])]
  }

  /** Everything the eligible nodes offer, in snapshot order. */
  function Offers(nodes: seq<NodeState>, now: int): seq<Offer> {
    if nodes == [] then [] else
      var init, last := nodes[..|nodes| - 1], nodes[|nodes| - 1];
      if Eligible(last, now) then Offers(init, now) + NodeOffers(last, |last.models|) else Offers(init, now)
  }

  /** The first offered model of that name decides its details. */
  function FirstModel(offers: seq<Offer>, name: string): (m: Option<Model>) {
    if offers == [] then None else
      var init, last := offers[..|offers| - 1], offers[|offers| - 1];
      var found := FirstModel(init, name);
      if found.None? && last.model.name == name then Some(last.model) else found
  }

  /** The nodes that offer the model, once per offer. */
  function ServersOf(offers: seq<Offer>, name: string): seq<string> {
    if offers == [] then [] else
      var init, last := offers[..|offers| - 1], offers[|offers| - 1];
      if last.model.name == name then ServersOf(init, name) + [last.node] else ServersOf(init, name)
  }

  predicate Listed(offers: seq<Offer>, name: string) {
    exists o :: o in offers && o.model.name == name
  }

  ghost predicate StrictlySorted(names: seq<string>) {
    forall i, j :: 0 <= i < j < |names| ==> Text.Less(names[i], names[j])
  }

  /** What PoolModels promises: every offered name once, in order. */
  ghost predicate ModelList(names: seq<string>, offers: seq<Offer>) {
    StrictlySorted(names) && forall name :: name in names <==> Listed(offers, name)
  }

  lemma OffersAppend(nodes: seq<NodeState>, i: nat, now: int)
    requires i < |nodes|
    ensures Offers(nodes[..i + 1], now) ==
            if Eligible(nodes[i], now) then Offers(nodes[..i], now) + NodeOffers(nodes[i], |nodes[i].models|)
            else Offers(nodes[..i], now)
  {
    assert nodes[..i + 1][..i] == nodes[..i];
  }

  lemma StrictlySortedNames(names: seq<string>)
    requires Sorted(names, Text.LESS_THAN) && Distinct(names)
    ensures StrictlySorted(names)
  {
    forall i, j | 0 <= i < j < |names|
      ensures Text.Less(names[i], names[j])
    {
      assert !Text.LESS_THAN(names[j], names[i]);
      Text.Total(names[i], names[j]);
    }
  }

  /** The keys of a set, in some order, as ranging over a map yields them. */
  method Keys(keys: set<string>) returns (out: seq<string>)
    ensures Distinct(out)
    ensures forall k :: k in out <==> k in keys
  {
    out := [];
    var rest := keys;
    while rest != {}
      invariant rest <= keys
      invariant Distinct(out)
      invariant forall k :: k in out <==> k in keys && k !in rest
      decreases rest
    {
      var k :| k in rest;
      out := out + [k];
      rest := rest - {k};
    }
  }

  lemma NothingListed(nodes: seq<NodeState>, now: int)
    ensures forall name :: !Listed(Offers(nodes[..0], now), name)
  {
  }

  method PoolModels(nodes: seq<NodeState>, now: int) returns (out: seq<string>)
    ensures ModelList(out, Offers(nodes, now))
  {
    var seen: set<string> := {};
    NothingListed(nodes, now);
    hide Offers;
    hide Listed;
    for i := 0 to |nodes|
      invariant forall name :: name in seen <==> Listed(Offers(nodes[..i], now), name)
    {
      OffersAppend(nodes, i, now);
      if !Eligible(nodes[i], now) {
        continue;
      }
      var models := nodes[i].models;
      ghost var before := Offers(nodes[..i], now);
      assert before + [] == before;
      for j := 0 to |models|
        invariant forall name :: name in seen <==> Listed(before + NodeOffers(nodes[i], j), name)
      {
        ListedAppend(before + NodeOffers(nodes[i], j), Offer(nodes[i].name, models[j]));
        assert before + NodeOffers(nodes[i], j + 1)
            == (before + NodeOffers(nodes[i], j)) + [Offer(nodes[i].name, models[j])];
        seen := seen + {models[j].name};
      }
    }
    assert nodes[..|nodes|] == nodes;
    var keys := Keys(seen);
    Text.LessIsOrder();
    out := SortSlice(keys, Text.LESS_THAN);
    DistinctSelection(out, keys);
    StrictlySortedNames(out);
    SameMembers(out, keys);
  }

  lemma ListedAppend(offers: seq<Offer>, o: Offer)
    ensures forall name :: Listed(offers + [o], name) <==> Listed(offers, name) || name == o.model.name
  {
    forall name
      ensures Listed(offers + [o], name) <==> Listed(offers, name) || name == o.model.name
    {
      assert forall x :: x in offers + [o] <==> x in offers || x == o;
      if name == o.model.name {
        assert o in offers + [o];
      }
    }
  }

  /** What Pick promises: the earliest best holder, or the pool's models if there is none. */
  ghost predicate Picks(nodes: seq<NodeState>, model: string, now: int, r: PickResult) {
    match r
    case Picked(n) => BestOf(nodes, Holding(model, now), n, Better(model))
    case NoNode(m, available) =>
      && m == model && ModelList(available, Offers(nodes, now))
      && forall n :: n in nodes ==> !Serves(n, model, now)
  }

  method Pick(nodes: seq<NodeState>, model: string, now: int) returns (r: PickResult)
    ensures Picks(nodes, model, now, r)
  {
    var candidates: seq<NodeState> := [];
    var holding := Holding(model, now);
    for i := 0 to |nodes|
      invariant candidates == Filter(nodes[..i], holding)
    {
      assert nodes[..i + 1][..i] == nodes[..i];
      if !Eligible(nodes[i], now) {
        continue;
      }
      if nodes[i].HasModel(model) {
        candidates := candidates + [nodes[i]];
      }
    }
    assert nodes[..|nodes|] == nodes;
    if |candidates| == 0 {
      var available := PoolModels(nodes, now);
      assert forall n :: n in nodes ==> holding(n) == (n in candidates);
      return NoNode(model, available);
    }
    BetterIsOrder(model);
    var sorted := SortSliceStable(candidates, Better(model));
    StableHead(sorted, candidates, Better(model));
    EarliestOfFilter(nodes, holding, sorted[0], Better(model));
    assert candidates[0] in nodes && holding(candidates[0]);
    r := Picked(sorted[0]);
  }

  /** The distinct model name with its first details and the nodes serving it. */
  datatype ModelDetail = ModelDetail(model: Model, nodes: seq<string>)

  function Names(details: seq<ModelDetail>): (r: seq<string>)
    ensures |r| == |details|
    ensures forall i :: 0 <= i < |details| ==> r[i] == details[i].model.name
  {
    seq(|details|, i requires 0 <= i < |details| => details[i].model.name)
  }

  /** d describes its model as the offers do, with its servers in order. */
  ghost predicate Describes(d: ModelDetail, offers: seq<Offer>) {
    && FirstModel(offers, d.model.name) == Some(d.model)
    && Sorted(d.nodes, Text.LESS_THAN)
    && multiset(d.nodes) == multiset(ServersOf(offers, d.model.name))
  }

  /** What PoolModelDetails promises: one description per offered name, in order. */
  ghost predicate DetailList(details: seq<ModelDetail>, offers: seq<Offer>) {
    && ModelList(Names(details), offers)
    && forall d :: d in details ==> Describes(d, offers)
  }

  /** The state of the accumulating map after some offers. */
  ghost predicate Accumulates(byName: map<string, ModelDetail>, offers: seq<Offer>) {
    && (forall name :: name in byName <==> Listed(offers, name))
    && (forall name :: name in byName ==>
          Some(byName[name].model) == FirstModel(offers, name)
          && byName[name].nodes == ServersOf(offers, name))
  }

  lemma {:induction false} FirstModelListed(offers: seq<Offer>, name: string)
    ensures FirstModel(offers, name).Some? <==> Listed(offers, name)
    ensures FirstModel(offers, name).Some? ==> FirstModel(offers, name).value.name == name
    ensures !Listed(offers, name) ==> ServersOf(offers, name) == []
  {
    if offers != [] {
      var init, last := offers[..|offers| - 1], offers[|offers| - 1];
      FirstModelListed(init, name);
      assert offers == init + [last];
      ListedAppend(init, last);
    }
  }

  method AddOffer(byName: map<string, ModelDetail>, ghost offers: seq<Offer>, o: Offer)
    returns (r: map<string, ModelDetail>)
    requires Accumulates(byName, offers)
    ensures Accumulates(r, offers + [o])
  {
    var name := o.model.name;
    var d := if name in byName then byName[name] else ModelDetail(o.model, []);
    r := byName[name := d.(nodes := d.nodes + [o.node])];
    ListedAppend(offers, o);
    FirstModelListed(offers, name);
    forall n
      ensures FirstModel(offers + [o], n) == if n == name then Some(d.model) else FirstModel(offers, n)
      ensures ServersOf(offers + [o], n) == if n == name then d.nodes + [o.node] else ServersOf(offers, n)
    {
      OneMoreOffer(offers, o, n);
    }
    hide Listed;
    hide FirstModel;
    hide ServersOf;
  }

  lemma OneMoreOffer(offers: seq<Offer>, o: Offer, name: string)
    ensures FirstModel(offers + [o], name) ==
            if FirstModel(offers, name).None? && o.model.name == name then Some(o.model) else FirstModel(offers, name)
    ensures ServersOf(offers + [o], name) ==
            if o.model.name == name then ServersOf(offers, name) + [o.node] else ServersOf(offers, name)
  {
    assert (offers + [o])[..|offers|] == offers;
  }

  method PoolModelDetails(nodes: seq<NodeState>, now: int) returns (out: seq<ModelDetail>)
    ensures DetailList(out, Offers(nodes, now))
  {
    ghost var offers := Offers(nodes, now);
    var byName := CollectDetails(nodes, now);
    var keys := Keys(byName.Keys);
    var unsorted: seq<ModelDetail> := [];
    Text.LessIsOrder();
    for i := 0 to |keys|
      invariant Names(unsorted) == keys[..i]
      invariant forall d :: d in unsorted ==> Describes(d, offers)
    {
      var d := byName[keys[i]];
      FirstModelListed(offers, keys[i]);
      var sorted := SortSlice(d.nodes, Text.LESS_THAN);
      unsorted := unsorted + [d.(nodes := sorted)];
    }
    assert keys[..|keys|] == keys;
    DetailOrder();
    out := SortSlice(unsorted, BY_MODEL_NAME);
    SameMembers(out, unsorted);
    SortedDetails(out, unsorted);
    assert forall name :: name in keys <==> Listed(offers, name);
  }

  const BY_MODEL_NAME: (ModelDetail, ModelDetail) -> bool :=
    (a: ModelDetail, b: ModelDetail) => Text.Less(a.model.name, b.model.name)

  lemma DetailOrder()
    ensures StrictWeakOrder(BY_MODEL_NAME)
  {
    Text.LessIsOrder();
    forall a, b, c
      ensures Separates(a, b, c, BY_MODEL_NAME)
    {
      assert Separates(a.model.name, b.model.name, c.model.name, Text.LESS_THAN);
    }
    forall a, b | BY_MODEL_NAME(a, b)
      ensures !BY_MODEL_NAME(b, a)
    {
      Text.Asymmetric(a.model.name, b.model.name);
    }
  }

  lemma SortedDetails(out: seq<ModelDetail>, unsorted: seq<ModelDetail>)
    requires Sorted(out, BY_MODEL_NAME) && multiset(out) == multiset(unsorted)
    requires Distinct(Names(unsorted))
    ensures StrictlySorted(Names(out))
    ensures forall name :: name in Names(out) <==> name in Names(unsorted)
  {
    SameMembers(out, unsorted);
    forall i, j | 0 <= i < j < |unsorted|
      ensures unsorted[i] != unsorted[j]
    {
      assert Names(unsorted)[i] != Names(unsorted)[j];
    }
    DistinctSelection(out, unsorted);
    forall i, j | 0 <= i < j < |out|
      ensures !Text.LESS_THAN(Names(out)[j], Names(out)[i]) && Names(out)[i] != Names(out)[j]
    {
      assert !BY_MODEL_NAME(out[j], out[i]);
      assert out[i] in unsorted && out[j] in unsorted;
      var k :| 0 <= k < |unsorted| && unsorted[k] == out[i];
      var m :| 0 <= m < |unsorted| && unsorted[m] == out[j];
      assert Names(unsorted)[k] == Names(out)[i] && Names(unsorted)[m] == Names(out)[j];
    }
    StrictlySortedNames(Names(out));
    SameNames(out, unsorted);
    SameNames(unsorted, out);
  }

  lemma SameNames(a: seq<ModelDetail>, b: seq<ModelDetail>)
    requires forall d :: d in a ==> d in b
    ensures forall name :: name in Names(a) ==> name in Names(b)
  {
    forall name | name in Names(a)
      ensures name in Names(b)
    {
      var i :| 0 <= i < |a| && Names(a)[i] == name;
      assert a[i] in b;
      var j :| 0 <= j < |b| && b[j] == a[i];
      assert Names(b)[j] == name;
    }
  }

  lemma NothingAccumulated(nodes: seq<NodeState>, now: int)
    ensures Accumulates(map[], Offers(nodes[..0], now))
  {
  }

  method CollectDetails(nodes: seq<NodeState>, now: int) returns (byName: map<string, ModelDetail>)
    ensures Accumulates(byName, Offers(nodes, now))
  {
    byName := map[];
    NothingAccumulated(nodes, now);
    hide Accumulates;
    hide Offers;
    for i := 0 to |nodes|
      invariant Accumulates(byName, Offers(nodes[..i], now))
    {
      OffersAppend(nodes, i, now);
      if !Eligible(nodes[i], now) {
        continue;
      }
      var models := nodes[i].models;
      ghost var before := Offers(nodes[..i], now);
      assert before + [] == before;
      for j := 0 to |models|
        invariant Accumulates(byName, before + NodeOffers(nodes[i], j))
      {
        assert before + NodeOffers(nodes[i], j + 1)
            == (before + NodeOffers(nodes[i], j)) + [Offer(nodes[i].name, models[j])];
        byName := AddOffer(byName, before + NodeOffers(nodes[i], j), Offer(nodes[i].name, models[j]));
      }
    }
    assert nodes[..|nodes|] == nodes;
  }
}
