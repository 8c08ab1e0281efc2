/** Pruning never shows in a scheduling decision: what the agent prunes (its peers older than
    twice StaleAfter) has not been eligible for as long again. */
module Pruning {
  import opened Nodes
  import opened Sorting
  import opened Scheduler
  import opened SplitPlan
  import opened Registries
  import Text

  /** The ttl of the agent's prune loop. */
  const PRUNE_TTL := 2 * STALE_AFTER

  function KeptAt(cutoff: int): NodeState -> bool {
    (n: NodeState) => Kept(n, cutoff)
  }

  /** Two lists of distinct elements with the same members are permutations of each other. */
  lemma {:induction false} SameMembersSameMultiset<T(!new)>(r: seq<T>, s: seq<T>)
    requires Distinct(r) && Distinct(s) && forall x :: x in r <==> x in s
    ensures multiset(r) == multiset(s)
  {
    forall x
      ensures multiset(r)[x] == multiset(s)[x]
    {
      DistinctCount(r, x);
      DistinctCount(s, x);
      assert x in r <==> x in multiset(r);
      assert x in s <==> x in multiset(s);
    }
  }

  lemma FilterDistinct<T(!new)>(s: seq<T>, p: T -> bool)
    requires Distinct(s)
    ensures Distinct(Filter(s, p))
  {
    forall x
      ensures multiset(Filter(s, p))[x] <= multiset(s)[x]
    {
      FilterCount(s, p, x);
    }
    DistinctSelection(Filter(s, p), s);
  }

  /** With distinct names, the snapshot after pruning is the snapshot before it without the
      pruned nodes, in the same order. */
  lemma SnapshotAfterPrune(nodes: map<string, NodeState>, cutoff: int, before: seq<NodeState>,
                           after: seq<NodeState>)
    requires SnapshotOf(before, nodes) && SnapshotOf(after, Pruned(nodes, cutoff))
    requires DistinctNames(before)
    ensures after == Filter(before, KeptAt(cutoff))
  {
    var kept := Filter(before, KeptAt(cutoff));
    SelfFirstIsOrder();
    FilterDistinct(before, KeptAt(cutoff));
    FilterSorted(before, KeptAt(cutoff), SELF_FIRST);
    forall n
      ensures n in after <==> n in kept
    {
      assert n in kept <==> n in before && KeptAt(cutoff)(n);
    }
    SameMembersSameMultiset(after, kept);
    forall x, y | x in after && y in after && Tied(x, y, SELF_FIRST)
      ensures x == y
    {
      assert x in before && y in before;
    }
    SortUnique(after, kept, SELF_FIRST);
  }

  /** Nothing that fails keep can be used at time t. */
  ghost predicate OnlyStaleDropped(nodes: seq<NodeState>, keep: NodeState -> bool, t: int) {
    forall n :: n in nodes && Eligible(n, t) ==> keep(n)
  }

  lemma PrunedAreStale(nodes: seq<NodeState>, now: int, t: int)
    requires now <= t
    ensures OnlyStaleDropped(nodes, KeptAt(now - PRUNE_TTL), t)
  {
  }

  lemma {:induction false} OffersUnchanged(nodes: seq<NodeState>, keep: NodeState -> bool, t: int)
    requires OnlyStaleDropped(nodes, keep, t)
    ensures Offers(Filter(nodes, keep), t) == Offers(nodes, t)
  {
    if nodes != [] {
      var init, last := nodes[..|nodes| - 1], nodes[|nodes| - 1];
      assert forall n :: n in init ==> n in nodes;
      assert last in nodes;
      OffersUnchanged(init, keep, t);
      if keep(last) {
        assert (Filter(init, keep) + [last])[..|Filter(init, keep)|] == Filter(init, keep);
      }
    }
  }

  lemma ModelListUnique(a: seq<string>, b: seq<string>, offers: seq<Offer>)
    requires ModelList(a, offers) && ModelList(b, offers)
    ensures a == b
  {
    Text.LessIsOrder();
    StrictIsSorted(a);
    StrictIsSorted(b);
    SameMembersSameMultiset(a, b);
    SortUnique(a, b, Text.LESS_THAN);
  }

  lemma StrictIsSorted(names: seq<string>)
    requires StrictlySorted(names)
    ensures Sorted(names, Text.LESS_THAN) && Distinct(names)
  {
    Text.LessIsOrder();
    forall i, j | 0 <= i < j < |names|
      ensures !Text.LESS_THAN(names[j], names[i]) && names[i] != names[j]
    {
      Text.Asymmetric(names[i], names[j]);
    }
  }

  /** The detail list is determined by the offers. */
  lemma DetailListUnique(a: seq<ModelDetail>, b: seq<ModelDetail>, offers: seq<Offer>)
    requires DetailList(a, offers) && DetailList(b, offers)
    ensures a == b
  {
    ModelListUnique(Names(a), Names(b), offers);
    Text.LessIsOrder();
    assert |a| == |Names(a)| == |Names(b)| == |b|;
    forall i | 0 <= i < |a|
      ensures a[i] == b[i]
    {
      assert a[i] in a && b[i] in b;
      assert Names(a)[i] == Names(b)[i];
      SortUnique(a[i].nodes, b[i].nodes, Text.LESS_THAN);
    }
  }

  /** Pick answers the same before and after dropping stale nodes. */
  lemma PickUnchanged(nodes: seq<NodeState>, keep: NodeState -> bool, model: string, t: int,
                      before: PickResult, after: PickResult)
    requires OnlyStaleDropped(nodes, keep, t)
    requires Picks(nodes, model, t, before) && Picks(Filter(nodes, keep), model, t, after)
    ensures before == after
  {
    var holding := Holding(model, t);
    assert forall n :: n in nodes && Serves(n, model, t) ==> n in Filter(nodes, keep);
    if after.Picked? {
      BestOfDropped(nodes, keep, holding, after.node, Better(model));
      assert holding(after.node);
      assert before.Picked?;
      BestOfUnique(nodes, holding, before.node, after.node, Better(model));
    } else {
      assert before.NoNode?;
      OffersUnchanged(nodes, keep, t);
      ModelListUnique(before.available, after.available, Offers(nodes, t));
    }
  }

  lemma {:induction false} LargestSizeUnchanged(nodes: seq<NodeState>, keep: NodeState -> bool, model: string, t: int)
    requires OnlyStaleDropped(nodes, keep, t)
    ensures LargestSize(Filter(nodes, keep), model, t) == LargestSize(nodes, model, t)
  {
    if nodes != [] {
      var init, last := nodes[..|nodes| - 1], nodes[|nodes| - 1];
      assert forall n :: n in init ==> n in nodes;
      assert last in nodes;
      LargestSizeUnchanged(init, keep, model, t);
      if keep(last) {
        assert (Filter(init, keep) + [last])[..|Filter(init, keep)|] == Filter(init, keep);
      }
    }
  }

  /** PlanSplit has the same possible outcomes before and after dropping stale nodes. */
  lemma PlanUnchanged(nodes: seq<NodeState>, keep: NodeState -> bool, model: string, t: int,
                      overflow: Sizing.uint64, r: Outcome)
    requires OnlyStaleDropped(nodes, keep, t)
    ensures Decides(nodes, model, t, overflow, r) <==> Decides(Filter(nodes, keep), model, t, overflow, r)
  {
    hide Decides;
    var kept := Filter(nodes, keep);
    LargestSizeUnchanged(nodes, keep, model, t);
    SameUsableNodes(nodes, keep, t);
    forall d: NodeState
      ensures Lenders(kept, d, t) == Lenders(nodes, d, t)
      ensures ChosenDriver(d, kept, model, t) <==> ChosenDriver(d, nodes, model, t)
    {
      FilterFilter(nodes, keep, CanLend(d, t));
      ChosenUnchanged(nodes, keep, model, t, d);
    }
    if Decides(nodes, model, t, overflow, r) {
      DecidesAlike(nodes, kept, model, t, overflow, r);
    }
    if Decides(kept, model, t, overflow, r) {
      DecidesAlike(kept, nodes, model, t, overflow, r);
    }
  }

  lemma SameUsableNodes(nodes: seq<NodeState>, keep: NodeState -> bool, t: int)
    requires OnlyStaleDropped(nodes, keep, t)
    ensures forall n :: Eligible(n, t) ==> (n in Filter(nodes, keep) <==> n in nodes)
  {
  }

  lemma ChosenUnchanged(nodes: seq<NodeState>, keep: NodeState -> bool, model: string, t: int, d: NodeState)
    requires OnlyStaleDropped(nodes, keep, t)
    ensures ChosenDriver(d, Filter(nodes, keep), model, t) <==> ChosenDriver(d, nodes, model, t)
  {
    SameUsableNodes(nodes, keep, t);
    assert forall n :: CanDrive(model, t)(n) ==> Eligible(n, t);
  }

  /** Decides depends on the nodes only through what these hypotheses compare. */
  lemma DecidesAlike(a: seq<NodeState>, b: seq<NodeState>, model: string, t: int, overflow: Sizing.uint64, r: Outcome)
    requires LargestSize(a, model, t) == LargestSize(b, model, t)
    requires forall n :: Eligible(n, t) ==> (n in a <==> n in b)
    requires forall d: NodeState :: Lenders(a, d, t) == Lenders(b, d, t)
    requires forall d: NodeState :: ChosenDriver(d, a, model, t) <==> ChosenDriver(d, b, model, t)
    requires Decides(a, model, t, overflow, r)
    ensures Decides(b, model, t, overflow, r)
  {
    hide Sizing.Need;
    hide Sizing.Usable;
    var need := Sizing.Need(LargestSize(a, model, t), overflow);
    assert SplitNotNeeded(a, model, t, overflow) <==> SplitNotNeeded(b, model, t, overflow) by {
      assert forall n :: FitsWhole(n, model, t, need) ==> Eligible(n, t);
    }
    if r.NoDriver? {
      assert forall n :: CanDrive(model, t)(n) ==> Eligible(n, t);
    }
    if r.CannotFit? && !SplitNotNeeded(a, model, t, overflow) {
      var workers :| AllRecruited(a, t, r.driver, workers, r.need, r.capacity, r.workers);
      assert AllRecruited(b, t, r.driver, workers, r.need, r.capacity, r.workers);
    }
  }

  /** The theorem: from the prune time on, a snapshot taken after the agent's prune gets the
      same answers from the scheduler as one taken before it. */
  lemma PruningIsInvisible(nodes: map<string, NodeState>, now: int, t: int, before: seq<NodeState>,
                           after: seq<NodeState>, model: string, overflow: Sizing.uint64)
    requires now <= t && DistinctNames(before)
    requires SnapshotOf(before, nodes) && SnapshotOf(after, Pruned(nodes, now - 40 * SECOND))
    ensures forall p, q :: Picks(before, model, t, p) && Picks(after, model, t, q) ==> p == q
    ensures forall r :: Decides(before, model, t, overflow, r) <==> Decides(after, model, t, overflow, r)
    ensures forall a, b :: ModelList(a, Offers(before, t)) && ModelList(b, Offers(after, t)) ==> a == b
    ensures forall a, b :: DetailList(a, Offers(before, t)) && DetailList(b, Offers(after, t)) ==> a == b
  {
    var keep := KeptAt(now - PRUNE_TTL);
    SnapshotAfterPrune(nodes, now - PRUNE_TTL, before, after);
    PrunedAreStale(before, now, t);
    OffersUnchanged(before, keep, t);
    forall p, q | Picks(before, model, t, p) && Picks(after, model, t, q)
      ensures p == q
    {
      PickUnchanged(before, keep, model, t, p, q);
    }
    forall r
      ensures Decides(before, model, t, overflow, r) <==> Decides(after, model, t, overflow, r)
    {
      PlanUnchanged(before, keep, model, t, overflow, r);
    }
    forall a, b | ModelList(a, Offers(before, t)) && ModelList(b, Offers(after, t))
      ensures a == b
    {
      ModelListUnique(a, b, Offers(before, t));
    }
    forall a, b | DetailList(a, Offers(before, t)) && DetailList(b, Offers(after, t))
      ensures a == b
    {
      DetailListUnique(a, b, Offers(before, t));
    }
  }

  function Restricted(nodes: map<string, NodeState>, ids: set<string>): map<string, NodeState> {
    map id | id in nodes && id in ids :: nodes[id]
  }

  /** One more entry has a place in every snapshot. */
  lemma SnapshotInsert(nodes: map<string, NodeState>, ids: set<string>, s: seq<NodeState>, id: string)
    requires KeyedById(nodes) && SnapshotOf(s, Restricted(nodes, ids)) && id in nodes && id !in ids
    ensures SnapshotOf(Insert(s, nodes[id], SELF_FIRST), Restricted(nodes, ids + {id}))
  {
    var x := nodes[id];
    var r := Insert(s, x, SELF_FIRST);
    SelfFirstIsOrder();
    InsertSorted(s, x, SELF_FIRST);
    assert multiset(r) == multiset(s + [x]);
    SameMembers(r, s + [x]);
    assert x !in s;
    DistinctSelection(r, s + [x]);
    assert forall n :: n in s + [x] <==> n in s || n == x;
  }

  /** Whatever was pruned can be put back into a snapshot, somewhere. */
  lemma {:induction false} SnapshotBeforePrune(nodes: map<string, NodeState>, ids: set<string>, gone: set<string>,
                                               keep: NodeState -> bool, s: seq<NodeState>)
    returns (r: seq<NodeState>)
    requires KeyedById(nodes) && SnapshotOf(s, Restricted(nodes, ids))
    requires gone <= nodes.Keys && gone !! ids && forall id :: id in gone ==> !keep(nodes[id])
    ensures SnapshotOf(r, Restricted(nodes, ids + gone)) && Filter(r, keep) == Filter(s, keep)
    decreases gone
  {
    hide SnapshotOf;
    hide Restricted;
    hide Filter;
    hide Insert;
    hide KeyedById;
    if gone == {} {
      r := s;
      assert ids + gone == ids;
    } else {
      var id :| id in gone;
      SnapshotInsert(nodes, ids, s, id);
      FilterInsert(s, nodes[id], SELF_FIRST, keep);
      r := SnapshotBeforePrune(nodes, ids + {id}, gone - {id}, keep, Insert(s, nodes[id], SELF_FIRST));
      assert ids + {id} + (gone - {id}) == ids + gone;
    }
  }

  /** Names distinct or not: every snapshot before the prune, filtered, is one after it ... */
  lemma FilteredIsSnapshot(nodes: map<string, NodeState>, cutoff: int, before: seq<NodeState>)
    requires SnapshotOf(before, nodes)
    ensures SnapshotOf(Filter(before, KeptAt(cutoff)), Pruned(nodes, cutoff))
  {
    SelfFirstIsOrder();
    FilterDistinct(before, KeptAt(cutoff));
    FilterSorted(before, KeptAt(cutoff), SELF_FIRST);
  }

  /** ... and every one after it comes from one before. */
  lemma SnapshotIsFiltered(nodes: map<string, NodeState>, cutoff: int, after: seq<NodeState>)
    returns (before: seq<NodeState>)
    requires KeyedById(nodes) && SnapshotOf(after, Pruned(nodes, cutoff))
    ensures SnapshotOf(before, nodes) && Filter(before, KeptAt(cutoff)) == after
  {
    var ids := Pruned(nodes, cutoff).Keys;
    assert Restricted(nodes, ids) == Pruned(nodes, cutoff);
    assert forall n :: n in after ==> KeptAt(cutoff)(n);
    FilterAll(after, KeptAt(cutoff));
    before := SnapshotBeforePrune(nodes, ids, nodes.Keys - ids, KeptAt(cutoff), after);
    assert Restricted(nodes, ids + (nodes.Keys - ids)) == nodes;
  }

  lemma PickKept(nodes: seq<NodeState>, keep: NodeState -> bool, model: string, t: int, r: PickResult)
    requires OnlyStaleDropped(nodes, keep, t)
    ensures Picks(nodes, model, t, r) <==> Picks(Filter(nodes, keep), model, t, r)
  {
    var holding := Holding(model, t);
    OffersUnchanged(nodes, keep, t);
    assert forall n :: n in nodes && holding(n) ==> keep(n);
    if r.Picked? {
      if BestOf(nodes, holding, r.node, Better(model)) {
        BestOfKept(nodes, keep, holding, r.node, Better(model));
      }
      if BestOf(Filter(nodes, keep), holding, r.node, Better(model)) {
        BestOfDropped(nodes, keep, holding, r.node, Better(model));
      }
    } else {
      assert forall n :: n in nodes && Serves(n, model, t) <==> n in Filter(nodes, keep) && Serves(n, model, t);
    }
  }

  /** The answers that some snapshot of the registry allows. */
  ghost predicate MayPick(nodes: map<string, NodeState>, model: string, t: int, r: PickResult) {
    exists s :: SnapshotOf(s, nodes) && Picks(s, model, t, r)
  }

  ghost predicate MayPlan(nodes: map<string, NodeState>, model: string, t: int, overflow: Sizing.uint64, r: Outcome) {
    exists s :: SnapshotOf(s, nodes) && Decides(s, model, t, overflow, r)
  }

  ghost predicate MayOffer(nodes: map<string, NodeState>, t: int, offers: seq<Offer>) {
    exists s :: SnapshotOf(s, nodes) && Offers(s, t) == offers
  }

  lemma SameAnswers(s: seq<NodeState>, now: int, t: int, model: string, overflow: Sizing.uint64)
    requires now <= t
    ensures var f := Filter(s, KeptAt(now - PRUNE_TTL));
            && (forall r :: Picks(s, model, t, r) <==> Picks(f, model, t, r))
            && (forall r :: Decides(s, model, t, overflow, r) <==> Decides(f, model, t, overflow, r))
            && Offers(s, t) == Offers(f, t)
  {
    var keep := KeptAt(now - PRUNE_TTL);
    PrunedAreStale(s, now, t);
    OffersUnchanged(s, keep, t);
    forall r
      ensures Picks(s, model, t, r) <==> Picks(Filter(s, keep), model, t, r)
    {
      PickKept(s, keep, model, t, r);
    }
    forall r
      ensures Decides(s, model, t, overflow, r) <==> Decides(Filter(s, keep), model, t, overflow, r)
    {
      PlanUnchanged(s, keep, model, t, overflow, r);
    }
  }

  /** With any names: snapshots may then list nodes of the same name in either order, but the
      answers some snapshot allows are the same before and after the prune, and with the same
      offers come the same listings. */
  lemma PruningKeepsPossibleAnswers(nodes: map<string, NodeState>, now: int, t: int, model: string,
                                    overflow: Sizing.uint64)
    requires KeyedById(nodes) && now <= t
    ensures var pruned := Pruned(nodes, now - 40 * SECOND);
            && (forall r :: MayPick(nodes, model, t, r) <==> MayPick(pruned, model, t, r))
            && (forall r :: MayPlan(nodes, model, t, overflow, r) <==> MayPlan(pruned, model, t, overflow, r))
            && (forall offers :: MayOffer(nodes, t, offers) <==> MayOffer(pruned, t, offers))
  {
    assert 40 * SECOND == PRUNE_TTL;
    hide *;
    PrunedAllowsNoLess(nodes, now, t, model, overflow);
    PrunedAllowsNoMore(nodes, now, t, model, overflow);
  }

  lemma PrunedAllowsNoLess(nodes: map<string, NodeState>, now: int, t: int, model: string, overflow: Sizing.uint64)
    requires now <= t
    ensures forall r :: MayPick(nodes, model, t, r) ==> MayPick(Pruned(nodes, now - PRUNE_TTL), model, t, r)
    ensures forall r ::
              MayPlan(nodes, model, t, overflow, r) ==> MayPlan(Pruned(nodes, now - PRUNE_TTL), model, t, overflow, r)
    ensures forall offers :: MayOffer(nodes, t, offers) ==> MayOffer(Pruned(nodes, now - PRUNE_TTL), t, offers)
  {
    hide *;
    forall s | SnapshotOf(s, nodes)
      ensures AnsweredAlike(s, Pruned(nodes, now - PRUNE_TTL), t, model, overflow)
    {
      BeforeIsAnsweredAlike(nodes, now, t, model, overflow, s);
    }
    AlikeAnswersSame(nodes, Pruned(nodes, now - PRUNE_TTL), t, model, overflow);
  }

  lemma PrunedAllowsNoMore(nodes: map<string, NodeState>, now: int, t: int, model: string, overflow: Sizing.uint64)
    requires KeyedById(nodes) && now <= t
    ensures forall r :: MayPick(Pruned(nodes, now - PRUNE_TTL), model, t, r) ==> MayPick(nodes, model, t, r)
    ensures forall r ::
              MayPlan(Pruned(nodes, now - PRUNE_TTL), model, t, overflow, r) ==> MayPlan(nodes, model, t, overflow, r)
    ensures forall offers :: MayOffer(Pruned(nodes, now - PRUNE_TTL), t, offers) ==> MayOffer(nodes, t, offers)
  {
    hide *;
    forall s | SnapshotOf(s, Pruned(nodes, now - PRUNE_TTL))
      ensures AnsweredAlike(s, nodes, t, model, overflow)
    {
      AfterIsAnsweredAlike(nodes, now, t, model, overflow, s);
    }
    AlikeAnswersSame(Pruned(nodes, now - PRUNE_TTL), nodes, t, model, overflow);
  }

  lemma BeforeIsAnsweredAlike(nodes: map<string, NodeState>, now: int, t: int, model: string,
                              overflow: Sizing.uint64, s: seq<NodeState>)
    requires SnapshotOf(s, nodes) && now <= t
    ensures AnsweredAlike(s, Pruned(nodes, now - PRUNE_TTL), t, model, overflow)
  {
    FilteredIsSnapshot(nodes, now - PRUNE_TTL, s);
    SameAnswers(s, now, t, model, overflow);
    hide SnapshotOf;
    hide Picks;
    hide Decides;
    hide Filter;
    hide Offers;
  }

  lemma AfterIsAnsweredAlike(nodes: map<string, NodeState>, now: int, t: int, model: string,
                             overflow: Sizing.uint64, s: seq<NodeState>)
    requires KeyedById(nodes) && SnapshotOf(s, Pruned(nodes, now - PRUNE_TTL)) && now <= t
    ensures AnsweredAlike(s, nodes, t, model, overflow)
  {
    var before := SnapshotIsFiltered(nodes, now - PRUNE_TTL, s);
    SameAnswers(before, now, t, model, overflow);
    hide SnapshotOf;
    hide Picks;
    hide Decides;
    hide Filter;
    hide Offers;
  }

  /** If every snapshot of one registry is answered like some snapshot of another, what the one
      allows the other does. */
  lemma AlikeAnswersSame(a: map<string, NodeState>, b: map<string, NodeState>, t: int, model: string,
                         overflow: Sizing.uint64)
    requires forall s :: SnapshotOf(s, a) ==> AnsweredAlike(s, b, t, model, overflow)
    ensures forall r :: MayPick(a, model, t, r) ==> MayPick(b, model, t, r)
    ensures forall r :: MayPlan(a, model, t, overflow, r) ==> MayPlan(b, model, t, overflow, r)
    ensures forall offers :: MayOffer(a, t, offers) ==> MayOffer(b, t, offers)
  {
    hide SnapshotOf;
    hide Picks;
    hide Decides;
    hide Offers;
  }

  /** Some snapshot of the registry answers like s. */
  ghost predicate AnsweredAlike(s: seq<NodeState>, nodes: map<string, NodeState>, t: int, model: string,
                                overflow: Sizing.uint64) {
    exists u :: SnapshotOf(u, nodes) && Offers(u, t) == Offers(s, t)
                && (forall r :: Picks(u, model, t, r) <==> Picks(s, model, t, r))
                && (forall r :: Decides(u, model, t, overflow, r) <==> Decides(s, model, t, overflow, r))
  }
}
