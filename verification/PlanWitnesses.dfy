/** Pools that show where the planner's guarantees end. */
module PlanWitnesses {
  import opened Float64
  import opened Sizing
  import opened Nodes
  import opened Sorting
  import opened Scheduler
  import opened Selection
  import opened SplitPlan
  import opened PlanTheorems

  function Holder(id: string, mem: uint64, size: uint64, worker: bool): NodeState {
    NodeState(id, id, true, true, mem, [Model("m", size)], [], 0, worker, true, 0, false)
  }

  function Helper(id: string, mem: uint64): NodeState {
    NodeState(id, id, true, true, mem, [], [], 0, true, false, 0, false)
  }

  /** The pieces of a "cannot fit" outcome. */
  lemma FallsShort(nodes: seq<NodeState>, overflow: uint64, size: uint64, need: uint64, driver: NodeState,
                   workers: seq<NodeState>, capacity: uint64)
    requires LargestSize(nodes, "m", 0) == size > 0 && Need(size, overflow) == need
    requires forall n :: n in nodes && Serves(n, "m", 0) ==> Usable(n.memAvailable) < need
    requires ChosenDriver(driver, nodes, "m", 0)
    requires AllRecruited(nodes, 0, driver, workers, need, capacity, |workers|)
    ensures Decides(nodes, "m", 0, overflow, CannotFit(need, capacity, driver, |workers|))
  {
    hide Need;
    hide Usable;
  }

  lemma SingleSize(nodes: seq<NodeState>, n: NodeState, size: uint64)
    requires n in nodes && n.models == [Model("m", size)] && Eligible(n, 0) && size > 0
    requires forall k :: k in nodes ==> k.models == [] || k.models == n.models
    ensures LargestSize(nodes, "m", 0) == size
    ensures Serves(n, "m", 0)
  {
    LargestSizeIsMaximum(nodes, "m", 0);
    assert Model("m", size) in n.models;
    assert SameModel("m", "m");
    assert forall m :: m in n.models ==> m == Model("m", size);
  }

  const LENDING_DRIVER := Holder("a", 10, 10, true)
  const OTHER_DRIVER := Holder("b", 9, 10, false)
  const MIXED_POOL := [LENDING_DRIVER, OTHER_DRIVER]

  lemma FilterPair(a: NodeState, b: NodeState, p: NodeState -> bool)
    ensures Filter([a, b], p) == (if p(a) then [a] else []) + (if p(b) then [b] else [])
  {
    FilterAppend([], a, p);
    FilterAppend([a], b, p);
    assert [] + [a] == [a] && [a] + [b] == [a, b];
  }

  lemma MixedLenders()
    ensures Lenders(MIXED_POOL, LENDING_DRIVER, 0) == []
    ensures Lenders(MIXED_POOL, OTHER_DRIVER, 0) == [LENDING_DRIVER]
  {
    FilterPair(LENDING_DRIVER, OTHER_DRIVER, CanLend(LENDING_DRIVER, 0));
    FilterPair(LENDING_DRIVER, OTHER_DRIVER, CanLend(OTHER_DRIVER, 0));
    hide Filter;
    assert "a" != "b";
  }

  /** The mixed case is real: "a" may lend and has the most memory, so it drives and its own
      memory is counted once; "b" driving with "a" lending would have fitted the model. */
  lemma MixedDriversDefeatTheError(overflow: uint64)
    ensures Decides(MIXED_POOL, "m", 0, overflow, CannotFit(12, 8, LENDING_DRIVER, 0))
    ensures Feasible(MIXED_POOL, "m", 0, 12, OTHER_DRIVER, [LENDING_DRIVER])
  {
    SingleSize(MIXED_POOL, LENDING_DRIVER, 10);
    SingleSize(MIXED_POOL, OTHER_DRIVER, 10);
    MixedLenders();
    NeedExact(10, overflow);
    UsableExact(10);
    UsableExact(9);
    hide Need;
    hide Usable;
    assert AllRecruited(MIXED_POOL, 0, LENDING_DRIVER, [], 12, 8, 0);
    FallsShort(MIXED_POOL, overflow, 10, 12, LENDING_DRIVER, [], 8);
    assert SumTo([LENDING_DRIVER], 1, USABLE_OF) == SumTo([LENDING_DRIVER], 0, USABLE_OF) + 8;
  }

  lemma PowerShare(e: nat)
    requires Shift(1, e) < TWO_64
    ensures Usable(Shift(1, e)) == Shift(USABLE_NUMERATOR, e) / TWO_52
  {
    assert Round(Shift(1, e)) == Shift(1, e) by {
      ShiftIsExact(1, e);
    }
    assert Shift(1, e) * USABLE_NUMERATOR == Shift(USABLE_NUMERATOR, e) by {
      ShiftProduct(USABLE_NUMERATOR, 1, e);
    }
    ShiftIsExact(USABLE_NUMERATOR, e);
    hide Round;
    hide Shift;
  }

  lemma PowerShares()
    ensures Usable(0x4000_0000_0000_0000) == 0x400 * USABLE_NUMERATOR
    ensures Usable(0x8000_0000_0000_0000) == 0x800 * USABLE_NUMERATOR
  {
    PowersOfTwo(1);
    PowersOfTwo(USABLE_NUMERATOR);
    hide Usable;
    assert Shift(1, 63) == 2 * Shift(1, 62);
    assert Shift(USABLE_NUMERATOR, 63) == 2 * Shift(USABLE_NUMERATOR, 62);
    PowerShare(62);
    PowerShare(63);
  }

  lemma PowerNeed(overflow: uint64)
    ensures Need(0x8000_0000_0000_0000, overflow) == 5 * 0x2000_0000_0000_0000
  {
    PowersOfTwo(1);
    PowersOfTwo(5);
    ShiftIsExact(1, 63);
    ShiftIsExact(5, 63);
  }

  const HUGE_DRIVER := Holder("d", 0x4000_0000_0000_0000, 0x8000_0000_0000_0000, false)
  const HUGE_HELPERS := [Helper("w1", 0x8000_0000_0000_0000), Helper("w2", 0x8000_0000_0000_0000)]
  const HUGE_POOL := [HUGE_DRIVER] + HUGE_HELPERS

  lemma HugeLenders()
    ensures Lenders(HUGE_POOL, HUGE_DRIVER, 0) == HUGE_HELPERS
  {
    var d, w1, w2 := HUGE_DRIVER, HUGE_HELPERS[0], HUGE_HELPERS[1];
    assert "d" != "w1" && "d" != "w2";
    FilterLastTwo(d, w1, w2, CanLend(d, 0));
    assert HUGE_POOL == [d, w1, w2];
  }

  lemma FilterLastTwo(a: NodeState, b: NodeState, c: NodeState, p: NodeState -> bool)
    requires !p(a) && p(b) && p(c)
    ensures Filter([a, b, c], p) == [b, c]
  {
    FilterAppend([], a, p);
    FilterAppend([a], b, p);
    FilterAppend([a, b], c, p);
    assert [] + [a] == [a] && [a] + [b] == [a, b] && [a, b] + [c] == [a, b, c];
  }

  lemma HugeMembers()
    ensures HUGE_DRIVER in HUGE_POOL
    ensures forall n :: n in HUGE_POOL ==> n == HUGE_DRIVER || (n.models == [] && !n.driver)
  {
  }

  lemma HugeCapacity()
    ensures Capacity(HUGE_DRIVER, HUGE_HELPERS, 0) == 0x400 * USABLE_NUMERATOR
    ensures Capacity(HUGE_DRIVER, HUGE_HELPERS, 1) == 0xC00 * USABLE_NUMERATOR
    ensures Capacity(HUGE_DRIVER, HUGE_HELPERS, 2) == 1024
    ensures Total(HUGE_DRIVER, HUGE_HELPERS) == 0x1400 * USABLE_NUMERATOR
  {
    PowerShares();
    hide Usable;
    assert SumTo(HUGE_HELPERS, 1, USABLE_OF) == 0x800 * USABLE_NUMERATOR;
  }

  /** Beyond 2^61 bytes the uint64 total can wrap: here the second helper takes it past 2^64
      to 1024, and the planner reports that a pool with enough memory cannot fit the model. */
  lemma HugeModelsWrap(overflow: uint64)
    ensures var need := Need(0x8000_0000_0000_0000, overflow);
            && Decides(HUGE_POOL, "m", 0, overflow, CannotFit(need, 1024, HUGE_DRIVER, 2))
            && Feasible(HUGE_POOL, "m", 0, need, HUGE_DRIVER, HUGE_HELPERS)
  {
    var size := 0x8000_0000_0000_0000;
    HugeMembers();
    SingleSize(HUGE_POOL, HUGE_DRIVER, size);
    PowerShares();
    PowerNeed(overflow);
    hide Usable;
    HugeOutcome(Need(size, overflow), overflow);
    HugePoolFits(Need(size, overflow));
  }

  lemma HugeOutcome(need: uint64, overflow: uint64)
    requires need == Need(0x8000_0000_0000_0000, overflow)
    requires 0xC00 * USABLE_NUMERATOR < need
    requires LargestSize(HUGE_POOL, "m", 0) == 0x8000_0000_0000_0000 && Serves(HUGE_DRIVER, "m", 0)
    ensures Decides(HUGE_POOL, "m", 0, overflow, CannotFit(need, 1024, HUGE_DRIVER, 2))
  {
    hide Need;
    hide Usable;
    hide LargestSize;
    hide Lenders;
    hide Capacity;
    hide Decides;
    assert ChosenDriver(HUGE_DRIVER, HUGE_POOL, "m", 0) by {
      HugeMembers();
    }
    assert AllRecruited(HUGE_POOL, 0, HUGE_DRIVER, HUGE_HELPERS, need, 1024, 2) by {
      HugeLenders();
      HugeCapacity();
    }
    forall n | n in HUGE_POOL && Serves(n, "m", 0)
      ensures Usable(n.memAvailable) < need
    {
      HugeMembers();
      PowerShares();
    }
    FallsShort(HUGE_POOL, overflow, 0x8000_0000_0000_0000, need, HUGE_DRIVER, HUGE_HELPERS, 1024);
  }

  lemma HugePoolFits(need: uint64)
    requires need < 0x1400 * USABLE_NUMERATOR && Serves(HUGE_DRIVER, "m", 0)
    ensures Feasible(HUGE_POOL, "m", 0, need, HUGE_DRIVER, HUGE_HELPERS)
  {
    hide Usable;
    HugeMembers();
    HugeLenders();
    HugeCapacity();
  }

  const MORE_HELPERS := [HUGE_HELPERS[0], HUGE_HELPERS[1],
                         Helper("w3", 0x8000_0000_0000_0000), Helper("w4", 0x8000_0000_0000_0000)]
  const BIGGER_POOL := [HUGE_DRIVER] + MORE_HELPERS

  lemma BiggerMembers()
    ensures HUGE_DRIVER in BIGGER_POOL
    ensures forall n :: n in BIGGER_POOL ==> n == HUGE_DRIVER || (n.models == [] && !n.driver)
  {
  }

  /** Dropping the first of several nodes. */
  lemma {:induction false} FilterFirstOut(a: NodeState, s: seq<NodeState>, p: NodeState -> bool)
    requires !p(a)
    ensures Filter([a] + s, p) == Filter(s, p)
  {
    if s == [] {
      FilterAppend([], a, p);
      assert [a] + s == [] + [a];
    } else {
      var init, last := s[..|s| - 1], s[|s| - 1];
      FilterFirstOut(a, init, p);
      FilterAppend([a] + init, last, p);
      FilterAppend(init, last, p);
      assert [a] + s == ([a] + init) + [last] && s == init + [last];
    }
  }

  lemma BiggerLenders()
    ensures Lenders(BIGGER_POOL, HUGE_DRIVER, 0) == MORE_HELPERS
  {
    var p := CanLend(HUGE_DRIVER, 0);
    assert "d" != "w1" && "d" != "w2" && "d" != "w3" && "d" != "w4";
    FilterFirstOut(HUGE_DRIVER, MORE_HELPERS, p);
    FilterAll(MORE_HELPERS, p);
    hide Filter;
  }

  lemma BiggerCapacity()
    ensures Capacity(HUGE_DRIVER, MORE_HELPERS, 0) == 0x400 * USABLE_NUMERATOR
    ensures Capacity(HUGE_DRIVER, MORE_HELPERS, 1) == 0xC00 * USABLE_NUMERATOR
    ensures Capacity(HUGE_DRIVER, MORE_HELPERS, 2) == 1024
    ensures Capacity(HUGE_DRIVER, MORE_HELPERS, 3) == 1024 + 0x800 * USABLE_NUMERATOR
    ensures Capacity(HUGE_DRIVER, MORE_HELPERS, 4) == 1024 + 0x1000 * USABLE_NUMERATOR
  {
    PowerShares();
    hide Usable;
  }

  /** The pieces of a plan. */
  lemma Succeeds(nodes: seq<NodeState>, overflow: uint64, size: uint64, plan: Plan)
    requires LargestSize(nodes, "m", 0) == size > 0 && Need(size, overflow) == plan.need && plan.modelSize == size
    requires forall n :: n in nodes && Serves(n, "m", 0) ==> Usable(n.memAvailable) < plan.need
    requires ChosenDriver(plan.driver, nodes, "m", 0)
    requires Top(plan.workers, Lenders(nodes, plan.driver, 0), MORE_MEMORY)
    requires ShortBefore(plan.driver, plan.workers, plan.need)
    requires Capacity(plan.driver, plan.workers, |plan.workers|) >= plan.need
    ensures Decides(nodes, "m", 0, overflow, Split(plan))
  {
    hide Need;
    hide Usable;
    hide Capacity;
    hide LargestSize;
  }

  lemma BiggerShort(need: uint64)
    requires 0xC00 * USABLE_NUMERATOR < need
    ensures ShortBefore(HUGE_DRIVER, MORE_HELPERS, need)
  {
    BiggerCapacity();
    hide Capacity;
    forall k | 0 <= k < 4
      ensures Capacity(HUGE_DRIVER, MORE_HELPERS, k) < need
    {
      assert k == 0 || k == 1 || k == 2 || k == 3;
    }
  }

  lemma BiggerOutcome(need: uint64, overflow: uint64)
    requires need == Need(0x8000_0000_0000_0000, overflow)
    requires 0xC00 * USABLE_NUMERATOR < need < 0x1000 * USABLE_NUMERATOR
    requires LargestSize(BIGGER_POOL, "m", 0) == 0x8000_0000_0000_0000 && Serves(HUGE_DRIVER, "m", 0)
    ensures Decides(BIGGER_POOL, "m", 0, overflow, Split(Plan(HUGE_DRIVER, MORE_HELPERS, 0x8000_0000_0000_0000, need)))
  {
    hide Need;
    hide Usable;
    hide LargestSize;
    hide Lenders;
    hide Capacity;
    hide Decides;
    assert ChosenDriver(HUGE_DRIVER, BIGGER_POOL, "m", 0) by {
      BiggerMembers();
    }
    BiggerLenders();
    BiggerShort(need);
    BiggerCapacity();
    forall n | n in BIGGER_POOL && Serves(n, "m", 0)
      ensures Usable(n.memAvailable) < need
    {
      BiggerMembers();
      PowerShares();
    }
    Succeeds(BIGGER_POOL, overflow, 0x8000_0000_0000_0000,
             Plan(HUGE_DRIVER, MORE_HELPERS, 0x8000_0000_0000_0000, need));
  }

  lemma TwoWouldDo()
    ensures Total(HUGE_DRIVER, MORE_HELPERS[..2]) == 0x1400 * USABLE_NUMERATOR
  {
    assert MORE_HELPERS[..2] == HUGE_HELPERS;
    HugeCapacity();
    hide Total;
    hide Capacity;
  }

  lemma BiggerSize()
    ensures LargestSize(BIGGER_POOL, "m", 0) == 0x8000_0000_0000_0000 && Serves(HUGE_DRIVER, "m", 0)
  {
    BiggerMembers();
    SingleSize(BIGGER_POOL, HUGE_DRIVER, 0x8000_0000_0000_0000);
  }

  /** With two more helpers the same pool gets a plan: its wrapped total comes to cover the need
      again, with four workers where two would do. */
  lemma WrappedPlanHasTooManyWorkers(overflow: uint64)
    ensures var need := Need(0x8000_0000_0000_0000, overflow);
            && Decides(BIGGER_POOL, "m", 0, overflow,
                       Split(Plan(HUGE_DRIVER, MORE_HELPERS, 0x8000_0000_0000_0000, need)))
            && Total(HUGE_DRIVER, MORE_HELPERS[..2]) >= need
  {
    hide Need;
    hide Usable;
    hide Decides;
    hide LargestSize;
    hide Total;
    BiggerSize();
    PowerNeed(overflow);
    TwoWouldDo();
    BiggerOutcome(Need(0x8000_0000_0000_0000, overflow), overflow);
  }
}
