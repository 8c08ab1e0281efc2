/** What PlanSplit promises, proved of every outcome it may have. */
module PlanTheorems {
  import opened Float64
  import opened Sizing
  import opened Nodes
  import opened Sorting
  import opened Scheduler
  import opened Selection
  import opened SplitPlan

  const USABLE_OF: NodeState -> nat := (n: NodeState) => Usable(n.memAvailable)

  /** Usable memory of a driver and n of its workers, summed without wrap-around. */
  function TotalTo(driver: NodeState, workers: seq<NodeState>, n: nat): nat
    requires n <= |workers|
  {
    USABLE_OF(driver) + SumTo(workers, n, USABLE_OF)
  }

  function Total(driver: NodeState, workers: seq<NodeState>): nat {
    TotalTo(driver, workers, |workers|)
  }

  function NeedOf(nodes: seq<NodeState>, model: string, now: int, overflow: uint64): uint64 {
    Need(LargestSize(nodes, model, now), overflow)
  }

  /** Recruitment never wraps uint64, however many nodes there are and however much memory
      they report: each addition happens only while the capacity is still short. */
  lemma {:induction false} RecruitmentNeverWraps(driver: NodeState, workers: seq<NodeState>, need: uint64, k: nat)
    requires need <= MAX_NEED && ShortBefore(driver, workers, need) && k <= |workers|
    ensures Capacity(driver, workers, k) == TotalTo(driver, workers, k) < TWO_64
  {
    hide Usable;
    if k > 0 {
      RecruitmentNeverWraps(driver, workers, need, k - 1);
      RoomForOneMore(need, workers[k - 1].memAvailable);
    }
  }

  /** Whether or not the uint64 total wraps, it never exceeds the true one. */
  lemma {:induction false} CapacityAtMostTotal(driver: NodeState, workers: seq<NodeState>, k: nat)
    requires k <= |workers|
    ensures Capacity(driver, workers, k) <= TotalTo(driver, workers, k)
  {
    hide Usable;
    if k > 0 {
      CapacityAtMostTotal(driver, workers, k - 1);
    }
  }

  /** As long as the true total fits into uint64, it is the planner's. */
  lemma {:induction false} CapacityIsTotal(driver: NodeState, workers: seq<NodeState>, k: nat)
    requires k <= |workers| && TotalTo(driver, workers, k) < TWO_64
    ensures Capacity(driver, workers, k) == TotalTo(driver, workers, k)
  {
    hide Usable;
    if k > 0 {
      CapacityIsTotal(driver, workers, k - 1);
    }
  }

  /** An addition that wraps leaves the planner as short as it was. */
  lemma WrappingStaysShort(driver: NodeState, workers: seq<NodeState>, need: uint64, k: nat)
    requires 0 < k <= |workers| && TotalTo(driver, workers, k - 1) < need && TotalTo(driver, workers, k) >= TWO_64
    ensures Capacity(driver, workers, k) < need
  {
    hide Usable;
    CapacityIsTotal(driver, workers, k - 1);
  }

  lemma MoreMemoryWeighsMore()
    ensures StrictWeakOrder(MORE_MEMORY) && Lighter(MORE_MEMORY, USABLE_OF)
  {
    forall x, y | !MORE_MEMORY(x, y)
      ensures USABLE_OF(x) <= USABLE_OF(y)
    {
      UsableMonotone(x.memAvailable, y.memAvailable);
    }
  }

  /** PlanSplit recruits the fewest workers possible: with its driver, no smaller selection
      of lenders covers the need. */
  lemma FewestWorkers(nodes: seq<NodeState>, model: string, now: int, overflow: uint64, plan: Plan,
                      sub: seq<NodeState>)
    requires Decides(nodes, model, now, overflow, Split(plan))
    requires plan.need <= MAX_NEED
    requires multiset(sub) <= multiset(Lenders(nodes, plan.driver, now)) && |sub| < |plan.workers|
    ensures Total(plan.driver, sub) < plan.need
  {
    MoreMemoryWeighsMore();
    TopPrefixDominates(plan.workers, Lenders(nodes, plan.driver, now), sub, MORE_MEMORY, USABLE_OF);
    RecruitmentNeverWraps(plan.driver, plan.workers, plan.need, |sub|);
  }

  /** Dropping any one recruited worker leaves the plan short. */
  lemma NoWorkerIsSpare(nodes: seq<NodeState>, model: string, now: int, overflow: uint64, plan: Plan, i: nat)
    requires Decides(nodes, model, now, overflow, Split(plan))
    requires plan.need <= MAX_NEED && i < |plan.workers|
    ensures Total(plan.driver, RemoveAt(plan.workers, i)) < plan.need
  {
    RemoveOne(plan.workers, i);
    FewestWorkers(nodes, model, now, overflow, plan, RemoveAt(plan.workers, i));
  }

  /** A returned plan is sound, even if the uint64 total has wrapped: an eligible driver that
      holds the model and can drive, at least one worker, all workers distinct, eligible,
      willing and other than the driver, and together enough usable memory. */
  lemma PlanIsSound(nodes: seq<NodeState>, model: string, now: int, overflow: uint64, plan: Plan)
    requires Decides(nodes, model, now, overflow, Split(plan)) && DistinctIds(nodes)
    ensures plan.driver in nodes && Serves(plan.driver, model, now) && plan.driver.driver
    ensures plan.workers != [] && DistinctIds(plan.workers)
    ensures forall w :: w in plan.workers ==> w in nodes && Eligible(w, now) && w.worker && w.id != plan.driver.id
    ensures Total(plan.driver, plan.workers) >= plan.need == Need(plan.modelSize, overflow)
  {
    var lenders := Lenders(nodes, plan.driver, now);
    forall w | w in plan.workers
      ensures w in lenders
    {
      assert multiset(lenders)[w] >= multiset(plan.workers)[w] > 0;
    }
    assert plan.workers == [] ==> FitsWhole(plan.driver, model, now, plan.need);
    CapacityAtMostTotal(plan.driver, plan.workers, |plan.workers|);
    forall x
      ensures multiset(lenders)[x] <= multiset(nodes)[x]
    {
      FilterCount(nodes, CanLend(plan.driver, now), x);
    }
    DistinctSelection(plan.workers, nodes);
    forall i, j | 0 <= i < j < |plan.workers|
      ensures plan.workers[i].id != plan.workers[j].id
    {
      assert plan.workers[i] in nodes && plan.workers[j] in nodes;
    }
  }

  const MEMORY_OF: NodeState -> nat := (n: NodeState) => n.memAvailable

  lemma {:induction false} SumIsFourFifths(nodes: seq<NodeState>, n: nat)
    requires n <= |nodes| && forall i :: 0 <= i < n ==> nodes[i].memAvailable < USABLE_EXACT_BELOW
    ensures 5 * SumTo(nodes, n, USABLE_OF) <= 4 * SumTo(nodes, n, MEMORY_OF)
  {
    if n > 0 {
      SumIsFourFifths(nodes, n - 1);
      UsableExact(nodes[n - 1].memAvailable);
    }
  }

  /** In terms of raw memory: a plan's nodes have free at least 25/16 of the model size (up
      to the rounding of one byte). */
  lemma PlanMemory(nodes: seq<NodeState>, model: string, now: int, overflow: uint64, plan: Plan)
    requires Decides(nodes, model, now, overflow, Split(plan)) && DistinctIds(nodes)
    requires plan.modelSize < NEED_EXACT_BELOW
    requires forall n :: n in nodes ==> n.memAvailable < USABLE_EXACT_BELOW
    ensures 16 * (plan.driver.memAvailable + Sum(plan.workers, MEMORY_OF)) >= 25 * plan.modelSize - 15
  {
    PlanIsSound(nodes, model, now, overflow, plan);
    NeedExact(plan.modelSize, overflow);
    UsableExact(plan.driver.memAvailable);
    assert forall i :: 0 <= i < |plan.workers| ==> plan.workers[i] in plan.workers;
    SumIsFourFifths(plan.workers, |plan.workers|);
  }

  function DriverOf(r: Outcome): NodeState
    requires r.Split? || r.CannotFit?
  {
    if r.Split? then r.plan.driver else r.driver
  }

  /** The lenders in the order in which the planner asks them, ties in any order. */
  ghost predicate LendersInOrder(sorted: seq<NodeState>, nodes: seq<NodeState>, driver: NodeState, now: int) {
    Sorted(sorted, MORE_MEMORY) && multiset(sorted) == multiset(Lenders(nodes, driver, now))
  }

  /** With its first k lenders a driver seems to cover the need: their total does, modulo 2^64. */
  ghost predicate SeemsCovered(driver: NodeState, sorted: seq<NodeState>, need: uint64, k: nat)
    requires k <= |sorted|
  {
    TotalTo(driver, sorted, k) % TWO_64 >= need
  }

  ghost predicate NeverSeemsCovered(driver: NodeState, sorted: seq<NodeState>, need: uint64) {
    forall k: nat :: k <= |sorted| ==> !SeemsCovered(driver, sorted, need, k)
  }

  /** Which of its answers PlanSplit gives, for every pool and every need: once a split is
      called for and there is a driver, the pool is refused exactly if no number of lenders
      seems to cover the need. */
  lemma Trichotomy(nodes: seq<NodeState>, model: string, now: int, overflow: uint64, r: Outcome)
    requires Decides(nodes, model, now, overflow, r)
    ensures var size, need := LargestSize(nodes, model, now), NeedOf(nodes, model, now, overflow);
            r.NotNeeded? <==>
            || (forall n :: n in nodes ==> !Serves(n, model, now))
            || size == 0
            || exists n :: n in nodes && FitsWhole(n, model, now, need)
    ensures r.NoDriver? <==> !r.NotNeeded? && forall n :: n in nodes ==> !CanDrive(model, now)(n)
    ensures r.Split? || r.CannotFit? ==> ChosenDriver(DriverOf(r), nodes, model, now)
    ensures r.Split? || r.CannotFit? ==> forall sorted :: LendersInOrder(sorted, nodes, DriverOf(r), now) ==>
              (r.CannotFit? <==> NeverSeemsCovered(DriverOf(r), sorted, NeedOf(nodes, model, now, overflow)))
    ensures r.Split? || r.CannotFit? ==>
            var all, need := Total(DriverOf(r), Lenders(nodes, DriverOf(r), now)), NeedOf(nodes, model, now, overflow);
            && (all < need ==> r.CannotFit? && r.capacity == all && r.workers == |Lenders(nodes, DriverOf(r), now)|)
            && (r.CannotFit? && need <= MAX_NEED ==> all < need)
  {
    if r.Split? || r.CannotFit? {
      forall sorted | LendersInOrder(sorted, nodes, DriverOf(r), now)
        ensures r.CannotFit? <==> NeverSeemsCovered(DriverOf(r), sorted, NeedOf(nodes, model, now, overflow))
      {
        RefusedExactly(nodes, model, now, overflow, r, sorted);
      }
    }
    SplitIsNeeded(nodes, model, now, overflow, r);
    TotalsDecide(nodes, model, now, overflow, r);
    hide *;
  }

  lemma SplitIsNeeded(nodes: seq<NodeState>, model: string, now: int, overflow: uint64, r: Outcome)
    requires Decides(nodes, model, now, overflow, r)
    ensures var size, need := LargestSize(nodes, model, now), NeedOf(nodes, model, now, overflow);
            r.NotNeeded? <==>
            || (forall n :: n in nodes ==> !Serves(n, model, now))
            || size == 0
            || exists n :: n in nodes && FitsWhole(n, model, now, need)
    ensures r.NoDriver? <==> !r.NotNeeded? && forall n :: n in nodes ==> !CanDrive(model, now)(n)
    ensures r.Split? || r.CannotFit? ==> ChosenDriver(DriverOf(r), nodes, model, now)
  {
    LargestSizeIsMaximum(nodes, model, now);
    hide Need;
    hide Usable;
  }

  lemma TotalsDecide(nodes: seq<NodeState>, model: string, now: int, overflow: uint64, r: Outcome)
    requires Decides(nodes, model, now, overflow, r)
    ensures r.Split? || r.CannotFit? ==>
            var all, need := Total(DriverOf(r), Lenders(nodes, DriverOf(r), now)), NeedOf(nodes, model, now, overflow);
            && (all < need ==> r.CannotFit? && r.capacity == all && r.workers == |Lenders(nodes, DriverOf(r), now)|)
            && (r.CannotFit? && need <= MAX_NEED ==> all < need)
  {
    match r
    case NotNeeded =>
    case NoDriver(_) =>
    case Split(plan) =>
      CapacityAtMostTotal(plan.driver, plan.workers, |plan.workers|);
      SumMonotone(plan.workers, Lenders(nodes, plan.driver, now), USABLE_OF);
    case CannotFit(need, capacity, driver, count) =>
      var workers :| AllRecruited(nodes, now, driver, workers, need, capacity, count);
      AllRecruitedTotal(nodes, now, driver, workers, need, capacity, count);
  }

  lemma AllRecruitedTotal(nodes: seq<NodeState>, now: int, driver: NodeState, workers: seq<NodeState>,
                          need: uint64, capacity: uint64, count: nat)
    requires AllRecruited(nodes, now, driver, workers, need, capacity, count)
    ensures var all := Total(driver, Lenders(nodes, driver, now));
            && Total(driver, workers) == all && count == |Lenders(nodes, driver, now)|
            && (all < need || need <= MAX_NEED ==> capacity == all < need)
  {
    var lenders := Lenders(nodes, driver, now);
    SumMonotone(workers, lenders, USABLE_OF);
    SumMonotone(lenders, workers, USABLE_OF);
    SameMembers(workers, lenders);
    if need <= MAX_NEED {
      RecruitmentNeverWraps(driver, workers, need, |workers|);
    } else if Total(driver, lenders) < need {
      CapacityIsTotal(driver, workers, |workers|);
    }
  }

  /** The first n lenders are the fewest, in this order, whose true total reaches the need. */
  ghost predicate CoversFirst(driver: NodeState, lenders: seq<NodeState>, need: uint64, n: nat) {
    && n <= |lenders| && TotalTo(driver, lenders, n) >= need
    && forall k :: 0 <= k < n ==> TotalTo(driver, lenders, k) < need
  }

  /** Ties apart, the lenders with the most memory are the same in every order. */
  lemma TopTotalsAgree(driver: NodeState, w: seq<NodeState>, v: seq<NodeState>, lenders: seq<NodeState>, k: nat)
    requires Top(w, lenders, MORE_MEMORY) && Top(v, lenders, MORE_MEMORY) && k <= |w| && k <= |v|
    ensures TotalTo(driver, w, k) == TotalTo(driver, v, k)
  {
    MoreMemoryWeighsMore();
    PrefixAtMost(w, v, lenders, k);
    PrefixAtMost(v, w, lenders, k);
  }

  lemma PrefixAtMost(w: seq<NodeState>, v: seq<NodeState>, lenders: seq<NodeState>, k: nat)
    requires Top(w, lenders, MORE_MEMORY) && Top(v, lenders, MORE_MEMORY) && k <= |w| && k <= |v|
    requires StrictWeakOrder(MORE_MEMORY) && Lighter(MORE_MEMORY, USABLE_OF)
    ensures SumTo(v, k, USABLE_OF) <= SumTo(w, k, USABLE_OF)
  {
    assert v == v[..k] + v[k..];
    assert multiset(v[..k]) <= multiset(v);
    SamePrefix(v, v[..k], k, USABLE_OF);
    TopPrefixDominates(w, lenders, v[..k], MORE_MEMORY, USABLE_OF);
  }

  /** The same for what was recruited, up to the point where it covers the need. */
  lemma StopsAtFirstCover(driver: NodeState, w: seq<NodeState>, lenders: seq<NodeState>, need: uint64, n: nat)
    requires CoversFirst(driver, lenders, need, n) && |w| <= |lenders| && ShortBefore(driver, w, need)
    requires forall k :: 0 <= k <= |w| ==> TotalTo(driver, w, k) == TotalTo(driver, lenders, k)
    ensures Capacity(driver, w, |w|) >= need ==> |w| >= n
    ensures TotalTo(driver, lenders, n) < TWO_64 ==>
              |w| <= n && (|w| == n ==> Capacity(driver, w, |w|) >= need)
    ensures TotalTo(driver, lenders, n) >= TWO_64 && |w| == n ==> Capacity(driver, w, |w|) < need
  {
    CapacityAtMostTotal(driver, w, |w|);
    if n <= |w| {
      if TotalTo(driver, lenders, n) < TWO_64 {
        CapacityIsTotal(driver, w, n);
      } else if n > 0 {
        WrappingStaysShort(driver, w, need, n);
      }
    }
  }

  /** When recruitment wraps: with n the fewest lenders, most memory first, whose true total
      reaches the need, the result is a plan with exactly n workers if and only if that total
      fits into uint64. Otherwise the planner goes on past n, to a longer plan or an error. */
  lemma RecruitsExactly(nodes: seq<NodeState>, model: string, now: int, overflow: uint64, r: Outcome,
                        sorted: seq<NodeState>, n: nat)
    requires Decides(nodes, model, now, overflow, r) && (r.Split? || r.CannotFit?)
    requires LendersInOrder(sorted, nodes, DriverOf(r), now)
    requires CoversFirst(DriverOf(r), sorted, NeedOf(nodes, model, now, overflow), n)
    ensures r.Split? && |r.plan.workers| == n <==> TotalTo(DriverOf(r), sorted, n) < TWO_64
    ensures r.Split? ==> |r.plan.workers| >= n
  {
    hide Need;
    hide Usable;
    hide SplitNotNeeded;
    var lenders := Lenders(nodes, DriverOf(r), now);
    SortedIsTop(sorted, lenders);
    if r.Split? {
      RecruitedAgrees(DriverOf(r), r.plan.workers, sorted, lenders);
      StopsAtFirstCover(DriverOf(r), r.plan.workers, sorted, r.plan.need, n);
    } else {
      var workers :| AllRecruited(nodes, now, r.driver, workers, r.need, r.capacity, r.workers);
      SortedIsTop(workers, lenders);
      RecruitedAgrees(r.driver, workers, sorted, lenders);
      SameMembers(workers, sorted);
      StopsAtFirstCover(r.driver, workers, sorted, r.need, n);
    }
  }

  lemma SortedIsTop(sorted: seq<NodeState>, lenders: seq<NodeState>)
    requires Sorted(sorted, MORE_MEMORY) && multiset(sorted) == multiset(lenders)
    ensures Top(sorted, lenders, MORE_MEMORY)
  {
    PrefixIsTop(sorted, lenders, |sorted|);
    assert sorted[..|sorted|] == sorted;
  }

  lemma RecruitedAgrees(driver: NodeState, w: seq<NodeState>, sorted: seq<NodeState>, lenders: seq<NodeState>)
    requires Top(w, lenders, MORE_MEMORY) && Top(sorted, lenders, MORE_MEMORY)
    requires multiset(sorted) == multiset(lenders)
    ensures |w| <= |sorted|
    ensures forall k :: 0 <= k <= |w| ==> TotalTo(driver, w, k) == TotalTo(driver, sorted, k)
  {
    MultisetCardinality(multiset(w), multiset(sorted));
    forall k | 0 <= k <= |w|
      ensures TotalTo(driver, w, k) == TotalTo(driver, sorted, k)
    {
      TopTotalsAgree(driver, w, sorted, lenders, k);
    }
  }

  /** The planner's uint64 total is the true one modulo 2^64. */
  lemma {:induction false} CapacityIsRemainder(driver: NodeState, workers: seq<NodeState>, k: nat)
    requires k <= |workers|
    ensures Capacity(driver, workers, k) == TotalTo(driver, workers, k) % TWO_64
  {
    hide Usable;
    hide WrapAdd;
    if k > 0 {
      CapacityIsRemainder(driver, workers, k - 1);
      RemainderOfSum(TotalTo(driver, workers, k - 1), Usable(workers[k - 1].memAvailable));
    }
  }

  lemma RemainderOfSum(total: nat, share: uint64)
    ensures WrapAdd(total % TWO_64, share) == (total + share) % TWO_64
  {
    var q, rest := total / TWO_64, total % TWO_64;
    assert total == q * TWO_64 + rest;
    if rest + share < TWO_64 {
      assert total + share == q * TWO_64 + (rest + share);
    } else {
      assert total + share == (q + 1) * TWO_64 + (rest + share - TWO_64);
    }
  }

  /** What was recruited, up to its last worker, seems to cover the need exactly as the lenders
      do. */
  lemma SeemsCoveredAlike(driver: NodeState, w: seq<NodeState>, sorted: seq<NodeState>, lenders: seq<NodeState>,
                          need: uint64, k: nat)
    requires Top(w, lenders, MORE_MEMORY) && Sorted(sorted, MORE_MEMORY) && multiset(sorted) == multiset(lenders)
    requires k <= |w|
    ensures k <= |sorted| && (SeemsCovered(driver, sorted, need, k) <==> Capacity(driver, w, k) >= need)
  {
    SortedIsTop(sorted, lenders);
    RecruitedAgrees(driver, w, sorted, lenders);
    CapacityIsRemainder(driver, w, k);
  }

  /** Refused or not, for every need: the pool is refused exactly if no number of lenders seems
      to cover the need; otherwise the plan has the fewest workers that seem to. */
  lemma RefusedExactly(nodes: seq<NodeState>, model: string, now: int, overflow: uint64, r: Outcome,
                       sorted: seq<NodeState>)
    requires Decides(nodes, model, now, overflow, r) && (r.Split? || r.CannotFit?)
    requires LendersInOrder(sorted, nodes, DriverOf(r), now)
    ensures r.CannotFit? <==> NeverSeemsCovered(DriverOf(r), sorted, NeedOf(nodes, model, now, overflow))
    ensures r.Split? ==>
              var n := |r.plan.workers|;
              n <= |sorted| && SeemsCovered(r.plan.driver, sorted, r.plan.need, n)
              && forall k :: 0 <= k < n ==> !SeemsCovered(r.plan.driver, sorted, r.plan.need, k)
  {
    hide Need;
    hide Usable;
    hide SplitNotNeeded;
    hide SeemsCovered;
    var lenders, need := Lenders(nodes, DriverOf(r), now), NeedOf(nodes, model, now, overflow);
    if r.Split? {
      forall k: nat | k <= |r.plan.workers|
        ensures k <= |sorted|
        ensures SeemsCovered(DriverOf(r), sorted, need, k) <==> Capacity(DriverOf(r), r.plan.workers, k) >= need
      {
        SeemsCoveredAlike(DriverOf(r), r.plan.workers, sorted, lenders, need, k);
      }
    } else {
      var workers :| AllRecruited(nodes, now, r.driver, workers, need, r.capacity, r.workers);
      SortedIsTop(workers, lenders);
      SameMembers(workers, sorted);
      forall k: nat | k <= |sorted|
        ensures !SeemsCovered(r.driver, sorted, need, k)
      {
        SeemsCoveredAlike(r.driver, workers, sorted, lenders, need, k);
      }
    }
  }

  /** Without any bound on the need: a plan has the fewest workers possible exactly if its own
      true total fits into uint64. */
  lemma FewestWorkersExactly(nodes: seq<NodeState>, model: string, now: int, overflow: uint64, plan: Plan)
    requires Decides(nodes, model, now, overflow, Split(plan))
    ensures Total(plan.driver, plan.workers) < TWO_64 <==>
            forall sub :: Selects(sub, nodes, plan, now) ==> Total(plan.driver, sub) < plan.need
  {
    hide Need;
    hide Usable;
    hide SplitNotNeeded;
    if Total(plan.driver, plan.workers) < TWO_64 {
      forall sub | Selects(sub, nodes, plan, now)
        ensures Total(plan.driver, sub) < plan.need
      {
        UnwrappedPlanIsFewest(nodes, plan, now, sub);
      }
    } else {
      var sub := WrappedPlanHasSpare(nodes, plan, now);
    }
  }

  /** A selection of lenders smaller than the plan's. */
  ghost predicate Selects(sub: seq<NodeState>, nodes: seq<NodeState>, plan: Plan, now: int) {
    multiset(sub) <= multiset(Lenders(nodes, plan.driver, now)) && |sub| < |plan.workers|
  }

  lemma {:induction false} TotalsGrow(driver: NodeState, workers: seq<NodeState>, j: nat, k: nat)
    requires j <= k <= |workers|
    ensures TotalTo(driver, workers, j) <= TotalTo(driver, workers, k)
  {
    hide Usable;
    if j < k {
      TotalsGrow(driver, workers, j, k - 1);
    }
  }

  lemma UnwrappedPlanIsFewest(nodes: seq<NodeState>, plan: Plan, now: int, sub: seq<NodeState>)
    requires Top(plan.workers, Lenders(nodes, plan.driver, now), MORE_MEMORY)
    requires ShortBefore(plan.driver, plan.workers, plan.need) && Total(plan.driver, plan.workers) < TWO_64
    requires Selects(sub, nodes, plan, now)
    ensures Total(plan.driver, sub) < plan.need
  {
    MoreMemoryWeighsMore();
    TopPrefixDominates(plan.workers, Lenders(nodes, plan.driver, now), sub, MORE_MEMORY, USABLE_OF);
    TotalsGrow(plan.driver, plan.workers, |sub|, |plan.workers|);
    CapacityIsTotal(plan.driver, plan.workers, |sub|);
  }

  /** A plan whose true total does not fit into uint64 had covered the need before. */
  lemma WrappedPlanHasSpare(nodes: seq<NodeState>, plan: Plan, now: int) returns (sub: seq<NodeState>)
    requires Top(plan.workers, Lenders(nodes, plan.driver, now), MORE_MEMORY)
    requires Total(plan.driver, plan.workers) >= TWO_64
    requires Capacity(plan.driver, plan.workers, |plan.workers|) >= plan.need
    ensures Selects(sub, nodes, plan, now) && Total(plan.driver, sub) >= plan.need
  {
    var k := |plan.workers| - 1;
    sub := plan.workers[..k];
    assert plan.workers == sub + plan.workers[k..];
    SamePrefix(plan.workers, sub, k, USABLE_OF);
    if TotalTo(plan.driver, plan.workers, k) < plan.need {
      WrappingStaysShort(plan.driver, plan.workers, plan.need, k + 1);
    }
  }

  /** d can drive the model with the memory of ws, all of them willing and eligible. */
  ghost predicate Feasible(nodes: seq<NodeState>, model: string, now: int, need: uint64, d: NodeState,
                           ws: seq<NodeState>) {
    && d in nodes && CanDrive(model, now)(d)
    && multiset(ws) <= multiset(Lenders(nodes, d, now))
    && Total(d, ws) >= need
  }

  function IsLender(now: int): NodeState -> bool {
    (n: NodeState) => Eligible(n, now) && n.worker
  }

  /** The usable memory of every eligible lender. */
  function Pool(nodes: seq<NodeState>, now: int): nat {
    Sum(Filter(nodes, IsLender(now)), USABLE_OF)
  }

  /** A driver borrows from every lender but itself. */
  lemma {:induction false} SumOfLenders(nodes: seq<NodeState>, d: NodeState, now: int)
    requires DistinctIds(nodes) && Eligible(d, now)
    requires forall n :: n in nodes && n.id == d.id ==> n == d
    ensures Sum(Lenders(nodes, d, now), USABLE_OF) + (if d in nodes && d.worker then USABLE_OF(d) else 0)
         == Pool(nodes, now)
  {
    if nodes != [] {
      var init, last := nodes[..|nodes| - 1], nodes[|nodes| - 1];
      assert forall n :: n in nodes <==> n in init || n == last;
      SumOfLenders(init, d, now);
      assert last == d ==> d !in init;
      SumAppend(Lenders(init, d, now), last, USABLE_OF);
      SumAppend(Filter(init, IsLender(now)), last, USABLE_OF);
    }
  }

  /** All the memory a driver can reach: its own and every lender's, counted once. */
  lemma ReachOf(nodes: seq<NodeState>, d: NodeState, model: string, now: int)
    requires DistinctIds(nodes) && d in nodes && Serves(d, model, now)
    ensures Total(d, Lenders(nodes, d, now))
         == Pool(nodes, now) + if d.worker then 0 else USABLE_OF(d)
  {
    SumOfLenders(nodes, d, now);
  }

  /** A driver that does not lend would add its own memory to the lenders'. */
  ghost predicate MixedDriverFits(nodes: seq<NodeState>, model: string, now: int, r: Outcome)
    requires r.CannotFit?
  {
    && r.driver.worker
    && exists d :: d in nodes && CanDrive(model, now)(d) && !d.worker
                   && USABLE_OF(d) + Pool(nodes, now) >= r.need
  }

  /** When the planner says that the pool cannot fit the model, some plan has escaped it
      exactly in two cases: the uint64 total wrapped, so that its own driver would do; or the
      driver it chose is itself a lender and another one is not. */
  lemma ErrorIsCompleteExactly(nodes: seq<NodeState>, model: string, now: int, overflow: uint64, r: Outcome)
    requires Decides(nodes, model, now, overflow, r) && r.CannotFit? && DistinctIds(nodes)
    ensures (exists d, ws :: Feasible(nodes, model, now, r.need, d, ws)) <==>
            Total(r.driver, Lenders(nodes, r.driver, now)) >= r.need || MixedDriverFits(nodes, model, now, r)
  {
    Trichotomy(nodes, model, now, overflow, r);
    ReachOf(nodes, r.driver, model, now);
    if d, ws :| Feasible(nodes, model, now, r.need, d, ws) {
      SumMonotone(ws, Lenders(nodes, d, now), USABLE_OF);
      ReachOf(nodes, d, model, now);
      UsableMonotone(d.memAvailable, r.driver.memAvailable);
    }
    if Total(r.driver, Lenders(nodes, r.driver, now)) >= r.need {
      assert Feasible(nodes, model, now, r.need, r.driver, Lenders(nodes, r.driver, now));
    }
    if MixedDriverFits(nodes, model, now, r) {
      var d :| d in nodes && CanDrive(model, now)(d) && !d.worker && USABLE_OF(d) + Pool(nodes, now) >= r.need;
      ReachOf(nodes, d, model, now);
      assert Feasible(nodes, model, now, r.need, d, Lenders(nodes, d, now));
    }
  }

  /** Within MAX_NEED only the mixed case remains. */
  lemma ErrorIsCompleteExceptMixed(nodes: seq<NodeState>, model: string, now: int, overflow: uint64, r: Outcome)
    requires Decides(nodes, model, now, overflow, r) && r.CannotFit?
    requires r.need <= MAX_NEED && DistinctIds(nodes)
    ensures (exists d, ws :: Feasible(nodes, model, now, r.need, d, ws)) <==> MixedDriverFits(nodes, model, now, r)
  {
    Trichotomy(nodes, model, now, overflow, r);
    ErrorIsCompleteExactly(nodes, model, now, overflow, r);
  }

  /** In particular the error is complete if the chosen driver does not lend, or if every
      possible driver does. */
  lemma ErrorIsComplete(nodes: seq<NodeState>, model: string, now: int, overflow: uint64, r: Outcome,
                        d: NodeState, ws: seq<NodeState>)
    requires Decides(nodes, model, now, overflow, r) && r.CannotFit?
    requires r.need <= MAX_NEED && DistinctIds(nodes)
    requires !r.driver.worker || forall n :: n in nodes && CanDrive(model, now)(n) ==> n.worker
    ensures !Feasible(nodes, model, now, r.need, d, ws)
  {
    ErrorIsCompleteExceptMixed(nodes, model, now, overflow, r);
  }
}
