/** The memory-planning arithmetic of internal/split/split.go. */
module Sizing {
  import opened Float64

  const TWO_64: nat := 0x1_0000_0000_0000_0000
  const TWO_52: nat := 0x10_0000_0000_0000

  type uint64 = n: nat | n < TWO_64

  /** FitFactor is 1.25, which is 5/4 exactly. */
  const FIT_NUMERATOR: nat := 5
  const FIT_DENOMINATOR: nat := 4

  /** WorkerUsableFrac is 0.80; the nearest double is this numerator over 2^52. */
  const USABLE_NUMERATOR: nat := 3602879701896397

  /** The first memory size at which Usable differs from four fifths rounded down. */
  const USABLE_EXACT_BELOW: nat := 3 * 0x2_0000_0000_0000

  /** The first model size at which Need differs from five quarters rounded down. */
  const NEED_EXACT_BELOW: nat := 1801439850948199

  /** Go leaves the conversion of an out-of-range float to the platform: `overflow` is what
      this platform yields. */
  function ToUint64(v: nat, overflow: uint64): uint64 {
    if v < TWO_64 then v else overflow
  }

  function Need(modelSize: uint64, overflow: uint64): uint64 {
    ToUint64(Round(Round(modelSize) * FIT_NUMERATOR) / FIT_DENOMINATOR, overflow)
  }

  function Usable(memAvailable: uint64): uint64 {
    UsableInRange(memAvailable);
    Round(Round(memAvailable) * USABLE_NUMERATOR) / TWO_52
  }

  /** No double in [1/2, 1) is nearer to 4/5 than the one WorkerUsableFrac denotes (both
      scaled by 5 * 2^53). */
  lemma UsableNumeratorIsNearest(k: nat)
    ensures Distance(5 * (2 * USABLE_NUMERATOR), 4 * PRECISION) <= Distance(5 * k, 4 * PRECISION)
  {
  }

  lemma SmallIsExact(n: nat)
    requires n < PRECISION
    ensures Round(n) == n && Excess(n) == 0
  {
    RoundExact(n);
  }

  lemma ShiftBy12(k: nat)
    ensures Shift(k, 3) == 8 * k && Shift(k, 9) == 0x200 * k
    ensures Shift(k, 11) == 0x800 * k && Shift(k, 12) == 0x1000 * k
  {
    assert Shift(k, 1) == 2 * k;
    assert Shift(k, 2) == 4 * k;
    assert Shift(k, 4) == 16 * k;
    assert Shift(k, 6) == 64 * k;
    assert Shift(k, 8) == 256 * k;
    assert Shift(k, 10) == 1024 * k;
  }

  lemma ShiftBy48(k: nat)
    ensures Shift(k, 48) == 0x1_0000_0000_0000 * k
  {
    ShiftBy12(k);
    ShiftBy12(0x1000 * k);
    ShiftAdd(k, 12, 12);
    ShiftBy12(0x100_0000 * k);
    ShiftAdd(k, 24, 12);
    ShiftBy12(0x10_0000_0000 * k);
    ShiftAdd(k, 36, 12);
  }

  /** The powers of two that the bounds below are made of. */
  lemma PowersOfTwo(k: nat)
    ensures Shift(k, 49) == 0x2_0000_0000_0000 * k
    ensures Shift(k, 50) == 0x4_0000_0000_0000 * k
    ensures Shift(k, 63) == 0x8000_0000_0000_0000 * k
  {
    ShiftBy48(k);
    var j := Shift(k, 48);
    ShiftAdd(k, 48, 3);
    ShiftBy12(j);
    ShiftBy12(8 * j);
    ShiftAdd(k, 51, 12);
  }

  /** The conversion in Usable never leaves uint64: even all of memory stays below
      4096 * USABLE_NUMERATOR, about four fifths of 2^64. */
  lemma UsableInRange(mem: uint64)
    ensures Round(Round(mem) * USABLE_NUMERATOR) / TWO_52 <= 4096 * USABLE_NUMERATOR < TWO_64
  {
    PowersOfTwo(2);
    RoundAtMost(mem, 2, 63);
    PowersOfTwo(2 * USABLE_NUMERATOR);
    RoundAtMost(Round(mem) * USABLE_NUMERATOR, 2 * USABLE_NUMERATOR, 63);
  }

  lemma UsableMonotone(a: uint64, b: uint64)
    requires a <= b
    ensures Usable(a) <= Usable(b)
  {
    RoundMonotone(a, b);
    RoundMonotone(Round(a) * USABLE_NUMERATOR, Round(b) * USABLE_NUMERATOR);
  }

  /** Need is monotone as long as the larger product stays inside uint64. */
  lemma NeedMonotone(a: uint64, b: uint64, overflow: uint64)
    requires a <= b
    requires Round(Round(b) * FIT_NUMERATOR) / FIT_DENOMINATOR < TWO_64
    ensures Need(a, overflow) <= Need(b, overflow)
  {
    RoundMonotone(a, b);
    RoundMonotone(Round(a) * FIT_NUMERATOR, Round(b) * FIT_NUMERATOR);
  }

  /** Although 0.80 is not representable and the product is rounded before it is truncated,
      Usable is four fifths rounded down for every memory size below 3 * 2^49 (1.5 PiB). */
  lemma UsableExact(m: uint64)
    requires m < USABLE_EXACT_BELOW
    ensures Usable(m) == 4 * m / 5
  {
    SmallIsExact(m);
    var p, q := m * USABLE_NUMERATOR, 4 * m / 5;
    UsableSpacing(p, q);
    UsableSpacing(p, q + 1);
    assert 5 * p == 4 * TWO_52 * m + m;
    FloorIsNext(q * TWO_52, p, Excess(p));
    RoundStaysBelow(p, (q + 1) * TWO_52);
  }

  /** Products below 2^103 are rounded to multiples of a quarter or less (in 2^-52 units). */
  lemma UsableSpacing(p: nat, k: nat)
    requires p < USABLE_EXACT_BELOW * USABLE_NUMERATOR
    ensures Ulp(p) <= 0x4_0000_0000_0000
    ensures OnGrid(k * TWO_52, Excess(p))
  {
    PowersOfTwo(1);
    PowersOfTwo(PRECISION);
    ExcessAtMost(p, 50);
    ShiftMonotone(1, Excess(p), 50);
    PowersOfTwo(4 * k);
    ShiftOnGrid(4 * k, 50);
    CoarserGrid(k * TWO_52, Excess(p), 50);
  }

  /** The bound of UsableExact is the best possible: at 3 * 2^49 the product is a tie that
      rounds up, and Usable is one too large. */
  lemma UsableExactBoundIsTight()
    ensures Usable(USABLE_EXACT_BELOW) == 4 * USABLE_EXACT_BELOW / 5 + 1
  {
    SmallIsExact(USABLE_EXACT_BELOW);
    var p, k := USABLE_EXACT_BELOW * USABLE_NUMERATOR, 4 * (4 * USABLE_EXACT_BELOW / 5) + 3;
    PowersOfTwo(PRECISION);
    ExcessAtMost(p, 50);
    ExcessAtLeast(p, 49);
    PowersOfTwo(1);
    // The product lies exactly between two multiples of the spacing, k odd and k + 1 even.
    assert p == k * 0x4_0000_0000_0000 + 0x2_0000_0000_0000;
    PowersOfTwo(k);
    ShiftOnGrid(k, 50);
    FloorIsNext(Shift(k, 50), p, 50);
    FloorOnGrid(p, 50);
    PowersOfTwo(k + 1);
    ShiftOnGrid(k + 1, 50);
    FloorIsNext(Shift(k + 1, 50), p, 50);
  }

  /** Need is five quarters rounded down while the product fits into 53 bits. */
  lemma NeedExact(s: uint64, overflow: uint64)
    requires s < NEED_EXACT_BELOW
    ensures Need(s, overflow) == 5 * s / 4
  {
    SmallIsExact(s);
    SmallIsExact(s * FIT_NUMERATOR);
  }

  /** The bound of NeedExact is the best possible. */
  lemma NeedExactBoundIsTight(overflow: uint64)
    ensures Need(NEED_EXACT_BELOW, overflow) == 5 * NEED_EXACT_BELOW / 4 + 1
  {
    SmallIsExact(NEED_EXACT_BELOW);
    var p := NEED_EXACT_BELOW * FIT_NUMERATOR;
    assert Excess(p) == 1 && Shift(1, 1) == 2;
    assert Floor(p, 1) == p - 1 && Quotient(p, 1) % 2 == 1;
  }

  /** Up to this need, adding one more node's share to a capacity that is short of it stays
      below 2^64. */
  const MAX_NEED: nat := TWO_64 - 1 - 4096 * USABLE_NUMERATOR

  lemma RoomForOneMore(need: nat, mem: uint64)
    requires need <= MAX_NEED
    ensures need + Usable(mem) < TWO_64
  {
    UsableInRange(mem);
  }

  /** Models of at most 2^61 bytes need no more than that. */
  lemma NeedLeavesRoom(s: uint64, overflow: uint64)
    requires s <= 0x2000_0000_0000_0000
    ensures Need(s, overflow) <= MAX_NEED
  {
    ShiftBy12(TWO_52);
    RoundAtMost(s, TWO_52, 9);
    ShiftBy12(5 * 0x4_0000_0000_0000);
    RoundAtMost(Round(s) * FIT_NUMERATOR, 5 * 0x4_0000_0000_0000, 11);
  }

  /** The first model size whose rounded product does not fit into uint64. */
  const NEED_OVERFLOWS_FROM: nat := 14757395258967641088

  /** Around it Round yields these two neighbours, 2048 apart. */
  const LAST_IN_RANGE: nat := 7205759403792793 * 2048

  lemma NeighboursAt(n: nat)
    requires LAST_IN_RANGE <= n < LAST_IN_RANGE + 2048
    ensures Excess(n) == 11 && Floor(n, 11) == LAST_IN_RANGE && Quotient(n, 11) == 7205759403792793
    ensures Ulp(n) == 2048
  {
    ShiftBy12(PRECISION);
    assert Shift(PRECISION, 11) == 2 * Shift(PRECISION, 10);
    ExcessAtLeast(n, 10);
    ExcessAtMost(n, 11);
    ShiftBy12(7205759403792793);
    ShiftBy12(7205759403792794);
    ShiftBy12(1);
    ShiftOnGrid(7205759403792793, 11);
    ShiftOnGrid(7205759403792794, 11);
    FloorIsNext(LAST_IN_RANGE, n, 11);
    FloorIsNext(LAST_IN_RANGE + 2048, n, 11);
    FloorOnGrid(n, 11);
  }

  lemma LastSizeInRange()
    ensures Round(NEED_OVERFLOWS_FROM - 1) == LAST_IN_RANGE
  {
    var n := (NEED_OVERFLOWS_FROM - 1) as nat;
    NeighboursAt(n);
    RoundCases(n);
    ShiftBy12(7205759403792794);
    ShiftOnGrid(7205759403792794, 11);
    RoundStaysBelow(n, LAST_IN_RANGE + 2048);
    hide Round;
  }

  lemma FirstSizeOutOfRange()
    ensures Round(NEED_OVERFLOWS_FROM) == LAST_IN_RANGE + 2048
  {
    NeighboursAt(NEED_OVERFLOWS_FROM);
    RoundCases(NEED_OVERFLOWS_FROM);
    hide Round;
  }

  lemma LastProductInRange()
    ensures Round(LAST_IN_RANGE * FIT_NUMERATOR) < FIT_DENOMINATOR * TWO_64
  {
    var p := LAST_IN_RANGE * FIT_NUMERATOR;
    ShiftBy12(PRECISION);
    assert Shift(PRECISION, 13) == 2 * Shift(PRECISION, 12);
    ExcessAtLeast(p, 12);
    ExcessAtMost(p, 13);
    ShiftBy12(1);
    assert Shift(1, 13) == 2 * Shift(1, 12);
    ShiftOnGrid(PRECISION, 13);
    RoundStaysBelow(p, FIT_DENOMINATOR * TWO_64);
    hide Round;
  }

  lemma FirstProductOutOfRange()
    ensures Round((LAST_IN_RANGE + 2048) * FIT_NUMERATOR) >= FIT_DENOMINATOR * TWO_64
  {
    PowersOfTwo(8);
    ShiftIsExact(8, 63);
    RoundMonotone(FIT_DENOMINATOR * TWO_64, (LAST_IN_RANGE + 2048) * FIT_NUMERATOR);
    hide Round;
  }

  /** Exactly from that size on the need is whatever the platform makes of a float64 that does
      not fit into uint64; below it the platform has no say. */
  lemma NeedOverflowsExactly(s: uint64, overflow: uint64, other: uint64)
    ensures s >= NEED_OVERFLOWS_FROM ==> Need(s, overflow) == overflow
    ensures s < NEED_OVERFLOWS_FROM ==> Need(s, overflow) == Need(s, other)
  {
    if s >= NEED_OVERFLOWS_FROM {
      FirstSizeOutOfRange();
      FirstProductOutOfRange();
      RoundMonotone(NEED_OVERFLOWS_FROM, s);
      RoundMonotone((LAST_IN_RANGE + 2048) * FIT_NUMERATOR, Round(s) * FIT_NUMERATOR);
    } else {
      LastSizeInRange();
      LastProductInRange();
      RoundMonotone(s, NEED_OVERFLOWS_FROM - 1);
      RoundMonotone(Round(s) * FIT_NUMERATOR, LAST_IN_RANGE * FIT_NUMERATOR);
    }
    hide Round;
  }
}
