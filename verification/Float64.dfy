/** Rounding to IEEE 754 binary64 (round to nearest, ties to even), section 4.3.1 of
    IEEE 754-2019, on naturals. A dyadic value n / 2^k rounds to Round(n) / 2^k, so one
    function on naturals covers both conversions and products; the exponent range is
    unbounded here, which is harmless because no value in the model leaves it. */
module Float64 {

  /** 2^53: every natural below it has at most 53 significant bits. */
  const PRECISION: nat := 0x20_0000_0000_0000

  /** k * 2^e */
  function Shift(k: nat, e: nat): (v: nat)
    ensures v >= k
  {
    if e == 0 then k else 2 * Shift(k, e - 1)
  }

  /** n / 2^e, rounded down */
  function Quotient(n: nat, e: nat): nat {
    if e == 0 then n else Quotient(n / 2, e - 1)
  }

  /** The multiple of 2^e at or below n. */
  function Floor(n: nat, e: nat): (f: nat)
    ensures f <= n < f + Shift(1, e)
  {
    if e == 0 then n else 2 * Floor(n / 2, e - 1)
  }

  /** v is a multiple of 2^e. */
  predicate OnGrid(v: nat, e: nat) {
    e == 0 || (v % 2 == 0 && OnGrid(v / 2, e - 1))
  }

  /** How many low bits of n do not fit into 53 significant bits. */
  function Excess(n: nat): (e: nat)
    ensures n < Shift(PRECISION, e)
    ensures e > 0 ==> Shift(PRECISION, e - 1) <= n
  {
    if n < PRECISION then 0 else 1 + Excess(n / 2)
  }

  /** The spacing of the representable numbers around n. */
  function Ulp(n: nat): nat {
    Shift(1, Excess(n))
  }

  predicate Representable(v: nat) {
    OnGrid(v, Excess(v))
  }

  function Round(n: nat): nat {
    var low := Floor(n, Excess(n));
    var rest := n - low;
    if 2 * rest < Ulp(n) || (2 * rest == Ulp(n) && Quotient(n, Excess(n)) % 2 == 0) then low else low + Ulp(n)
  }

  function Distance(a: nat, b: nat): nat {
    if a <= b then b - a else a - b
  }

  lemma {:induction false} ShiftMonotone(k: nat, e: nat, f: nat)
    requires e <= f
    ensures Shift(k, e) <= Shift(k, f)
  {
    if e < f {
      ShiftMonotone(k, e, f - 1);
    }
  }

  lemma {:induction false} ShiftLess(k: nat, m: nat, e: nat)
    ensures k < m ==> Shift(k, e) < Shift(m, e)
    ensures k <= m ==> Shift(k, e) <= Shift(m, e)
  {
    if e > 0 {
      ShiftLess(k, m, e - 1);
    }
  }

  lemma TwiceProduct(k: nat, v: nat)
    ensures 2 * (k * v) == k * (2 * v)
  {
  }

  /** Shift is multiplication by a power of two. */
  lemma {:induction false} ShiftProduct(k: nat, m: nat, e: nat)
    ensures Shift(k * m, e) == k * Shift(m, e)
  {
    if e > 0 {
      ShiftProduct(k, m, e - 1);
      TwiceProduct(k, Shift(m, e - 1));
    }
  }

  lemma {:induction false} ShiftAdd(k: nat, e: nat, f: nat)
    ensures Shift(Shift(k, e), f) == Shift(k, e + f)
  {
    if f > 0 {
      ShiftAdd(k, e, f - 1);
    }
  }

  lemma {:induction false} ShiftOnGrid(k: nat, e: nat)
    ensures OnGrid(Shift(k, e), e)
    ensures Quotient(Shift(k, e), e) == k
  {
    if e > 0 {
      ShiftOnGrid(k, e - 1);
    }
  }

  /** Twice a number lies on the next coarser grid, with the same quotient. */
  lemma TwiceOnGrid(v: nat, e: nat)
    requires e > 0
    ensures OnGrid(2 * v, e) <==> OnGrid(v, e - 1)
    ensures Quotient(2 * v, e) == Quotient(v, e - 1)
  {
    assert 2 * v / 2 == v;
  }

  lemma {:induction false} FloorOnGrid(n: nat, e: nat)
    ensures OnGrid(Floor(n, e), e) && OnGrid(Floor(n, e) + Shift(1, e), e)
    ensures Quotient(Floor(n, e), e) == Quotient(n, e)
    ensures Quotient(Floor(n, e) + Shift(1, e), e) == Quotient(n, e) + 1
  {
    if e > 0 {
      var low, unit := Floor(n / 2, e - 1), Shift(1, e - 1);
      FloorOnGrid(n / 2, e - 1);
      assert Floor(n, e) == 2 * low && Floor(n, e) + Shift(1, e) == 2 * (low + unit);
      assert Quotient(n, e) == Quotient(n / 2, e - 1);
      hide Floor;
      hide Shift;
      TwiceOnGrid(low, e);
      TwiceOnGrid(low + unit, e);
      hide OnGrid;
      hide Quotient;
    }
  }

  /** There is no multiple of 2^e strictly between Floor(n, e) and Floor(n, e) + 2^e. */
  lemma {:induction false} FloorIsNext(v: nat, n: nat, e: nat)
    requires OnGrid(v, e)
    ensures v <= n ==> v <= Floor(n, e)
    ensures v > n ==> v >= Floor(n, e) + Shift(1, e)
  {
    if e > 0 {
      FloorIsNext(v / 2, n / 2, e - 1);
    }
  }

  /** A coarser power-of-two grid is part of a finer one. */
  lemma {:induction false} CoarserGrid(v: nat, e: nat, f: nat)
    requires e <= f && OnGrid(v, f)
    ensures OnGrid(v, e)
  {
    if e > 0 {
      CoarserGrid(v / 2, e - 1, f - 1);
    }
  }

  lemma {:induction false} ExcessAtMost(n: nat, e: nat)
    requires n < Shift(PRECISION, e)
    ensures Excess(n) <= e
  {
    if n >= PRECISION {
      ExcessAtMost(n / 2, e - 1);
    }
  }

  lemma {:induction false} ExcessAtLeast(n: nat, e: nat)
    requires Shift(PRECISION, e) <= n
    ensures Excess(n) > e
  {
    if e > 0 {
      ExcessAtLeast(n / 2, e - 1);
    }
  }

  lemma {:induction false} ExcessMonotone(a: nat, b: nat)
    requires a <= b
    ensures Excess(a) <= Excess(b)
  {
    if a >= PRECISION {
      ExcessMonotone(a / 2, b / 2);
    }
  }

  /** 2^53 * 2^(e-1) separates the numbers with fewer than e excess bits from those with
      e or more, and lies on the grids on both sides. */
  lemma Boundary(v: nat, n: nat)
    requires Excess(v) < Excess(n)
    ensures var g := Shift(PRECISION, Excess(n) - 1);
            v < g <= n && OnGrid(g, Excess(n)) && OnGrid(g, Excess(v))
  {
    var e := Excess(n);
    ShiftMonotone(PRECISION, Excess(v), e - 1);
    ShiftAdd(PRECISION / 2, 1, e - 1);
    assert Shift(PRECISION / 2, 1) == PRECISION;
    ShiftOnGrid(PRECISION / 2, e);
    CoarserGrid(Shift(PRECISION, e - 1), Excess(v), e);
  }

  /** Down or up to a multiple of the spacing, and on a tie to the even one. */
  lemma RoundCases(n: nat)
    ensures var low := Floor(n, Excess(n));
            && (Round(n) == low || Round(n) == low + Ulp(n))
            && (2 * Distance(Round(n), n) == Ulp(n) ==>
                Round(n) == if Quotient(n, Excess(n)) % 2 == 0 then low else low + Ulp(n))
  {
    hide Quotient;
    hide Shift;
    hide Excess;
  }

  lemma TieIsEven(n: nat)
    ensures OnGrid(Round(n), Excess(n))
    ensures 2 * Distance(Round(n), n) == Ulp(n) ==> Quotient(Round(n), Excess(n)) % 2 == 0
  {
    FloorOnGrid(n, Excess(n));
    RoundCases(n);
    hide Round;
    hide Floor;
    hide Excess;
    hide Shift;
    hide Quotient;
    hide OnGrid;
  }

  /** Every representable number is at or below the floor of n, or at or above the next
      multiple of n's spacing. */
  lemma NoneBetween(n: nat, v: nat)
    requires Representable(v)
    ensures v <= Floor(n, Excess(n)) || v >= Floor(n, Excess(n)) + Ulp(n)
  {
    if Excess(v) < Excess(n) {
      Boundary(v, n);
      FloorIsNext(Shift(PRECISION, Excess(n) - 1), n, Excess(n));
    } else {
      CoarserGrid(v, Excess(n), Excess(v));
      FloorIsNext(v, n, Excess(n));
    }
  }

  /** Round meets its standard's definition: no representable number is nearer than the
      result, and a tie goes to the even multiple of the spacing. */
  lemma RoundsToNearestEven(n: nat, v: nat)
    requires Representable(v)
    ensures Distance(Round(n), n) <= Distance(v, n)
    ensures Distance(Round(n), n) == Distance(v, n) && v != Round(n)
            ==> Quotient(Round(n), Excess(n)) % 2 == 0
  {
    NoneBetween(n, v);
    TieIsEven(n);
  }

  /** The result of rounding is itself representable. */
  lemma RoundIsRepresentable(n: nat)
    ensures Representable(Round(n))
  {
    var e := Excess(n);
    FloorOnGrid(n, e);
    ShiftOnGrid(PRECISION, e);
    FloorIsNext(Shift(PRECISION, e), n, e);
    if Round(n) < Shift(PRECISION, e) {
      ExcessAtMost(Round(n), e);
      CoarserGrid(Round(n), Excess(Round(n)), e);
    } else {
      assert Round(n) == Shift(PRECISION, e);
      ShiftLess(PRECISION, 2 * PRECISION, e);
      ShiftAdd(PRECISION, 1, e);
      assert Shift(PRECISION, 1) == 2 * PRECISION;
      assert Shift(PRECISION, e + 1) == 2 * Shift(PRECISION, e);
      ExcessAtMost(Round(n), e + 1);
      ExcessAtLeast(Round(n), e);
      ShiftAdd(PRECISION / 2, 1, e);
      assert Shift(PRECISION / 2, 1) == PRECISION;
      ShiftOnGrid(PRECISION / 2, e + 1);
    }
  }

  /** Rounding leaves every number alone that has at most 53 significant bits. */
  lemma RoundExact(v: nat)
    requires Representable(v)
    ensures Round(v) == v
  {
    FloorIsNext(v, v, Excess(v));
  }

  /** Two numbers with the same spacing share their floor, and then its parity, or their
      floors are at least one spacing apart. */
  lemma FloorMonotone(a: nat, b: nat, e: nat)
    requires a <= b
    ensures (Floor(a, e) == Floor(b, e) && Quotient(a, e) == Quotient(b, e))
            || Floor(a, e) + Shift(1, e) <= Floor(b, e)
  {
  }

  lemma RoundMonotone(a: nat, b: nat)
    requires a <= b
    ensures Round(a) <= Round(b)
  {
    ExcessMonotone(a, b);
    var e := Excess(a);
    if e < Excess(b) {
      var g := Shift(PRECISION, Excess(b) - 1);
      Boundary(a, b);
      FloorIsNext(g, a, e);
      FloorIsNext(g, b, Excess(b));
    } else {
      FloorMonotone(a, b, e);
    }
  }

  /** A power-of-two multiple of a 53-bit number is representable. */
  lemma ShiftIsExact(k: nat, e: nat)
    requires k < PRECISION
    ensures Round(Shift(k, e)) == Shift(k, e)
  {
    var v := Shift(k, e);
    ShiftLess(k, PRECISION, e);
    ExcessAtMost(v, e);
    ShiftOnGrid(k, e);
    CoarserGrid(v, Excess(v), e);
    RoundExact(v);
  }

  /** Rounding does not cross a representable bound. */
  lemma RoundAtMost(n: nat, k: nat, e: nat)
    requires k < PRECISION && n <= Shift(k, e)
    ensures Round(n) <= Shift(k, e)
  {
    ShiftIsExact(k, e);
    RoundMonotone(n, Shift(k, e));
  }

  /** A number more than half a spacing below a multiple of the spacing stays below it. */
  lemma RoundStaysBelow(n: nat, bound: nat)
    requires n < bound && OnGrid(bound, Excess(n)) && 2 * (bound - n) > Ulp(n)
    ensures Round(n) < bound
  {
    FloorIsNext(bound, n, Excess(n));
  }
}
