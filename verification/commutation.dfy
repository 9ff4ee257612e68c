/** The commutation-table builder: from a mortality schedule (qx by age, ages 0, 1, 2, ...)
    and a discount rate it derives survivorship (lx), discounted survivorship (Dx) and
    cumulative discounted survivorship (Nx). All quantities are exact reals. */
module Commutation {

  datatype Option<T> = None | Some(value: T)

  /** One row of the table, keyed by integer age. */
  datatype CommutationRow = CommutationRow(age: nat, qx: real, px: real, lx: real, dx: real, nx: real)

  /** b raised to a natural power. */
  function Pow(b: real, n: nat): real
  {
    if n == 0 then 1.0 else b * Pow(b, n - 1)
  }

  /** The loader caps every death probability at 1.0 before the schedule is used. */
  function ClipQx(raw: seq<real>): (qx: seq<real>)
    ensures |qx| == |raw|
    ensures forall a :: 0 <= a < |raw| ==>
      qx[a] <= 1.0 && qx[a] <= raw[a] && (qx[a] == raw[a] || qx[a] == 1.0)
  {
    seq(|raw|, a requires 0 <= a < |raw| => if raw[a] > 1.0 then 1.0 else raw[a])
  }

  /** v = 1 / (1 + i), the one-year discount factor. */
  function Discount(i: real): (v: real)
    requires 1.0 + i != 0.0
    ensures v * (1.0 + i) == 1.0
    ensures i >= 0.0 ==> 0.0 < v <= 1.0
  {
    1.0 / (1.0 + i)
  }

  /** Dx for a row: its survivors discounted back to age 0 over a years. */
  function Discounted(l: real, v: real, a: nat): real
  {
    l * Pow(v, a)
  }

  /** Of l lives, those expected to survive a year with death probability q. */
  function Survive(l: real, q: real): real
  {
    l * (1.0 - q)
  }

  /** Survivors to age a out of l0 lives at age 0, year by year: the specification of the
      forward scan. */
  function Survivors(qx: seq<real>, l0: real, a: nat): real
    requires a <= |qx|
  {
    if a == 0 then l0 else Survive(Survivors(qx, l0, a - 1), qx[a - 1])
  }

  /** The probability of surviving from age 0 to age a: px(0)·px(1)·…·px(a-1). */
  function SurvivalProbability(qx: seq<real>, a: nat): real
    requires a <= |qx|
  {
    if a == 0 then 1.0 else SurvivalProbability(qx, a - 1) * (1.0 - qx[a - 1])
  }

  /** The year-by-year survivors are the radix times the probability of surviving to age a. */
  lemma {:induction false} SurvivorsProduct(qx: seq<real>, l0: real, a: nat)
    requires a <= |qx|
    ensures Survivors(qx, l0, a) == l0 * SurvivalProbability(qx, a)
  {
    if a > 0 {
      SurvivorsProduct(qx, l0, a - 1);
      var p := SurvivalProbability(qx, a - 1);
      calc {
        Survivors(qx, l0, a);
        (l0 * p) * (1.0 - qx[a - 1]);
        l0 * (p * (1.0 - qx[a - 1]));
      }
    }
  }

  /** d[a] + d[a+1] + ... + d[|d|-1]. */
  function SuffixSum(d: seq<real>, a: nat): real
    requires a <= |d|
    decreases |d| - a
  {
    if a == |d| then 0.0 else d[a] + SuffixSum(d, a + 1)
  }

  /** The Dx column of a table, by position. */
  function DxColumn(t: seq<CommutationRow>): (d: seq<real>)
    ensures |d| == |t| && forall a :: 0 <= a < |t| ==> d[a] == t[a].dx
  {
    seq(|t|, a requires 0 <= a < |t| => t[a].dx)
  }

  /** Row a carries age a, the schedule's qx at a and px = 1 - qx. */
  ghost predicate ScheduleColumns(t: seq<CommutationRow>, qx: seq<real>)
  {
    |t| == |qx| && forall a :: 0 <= a < |t| ==> t[a].age == a && t[a].qx == qx[a] && t[a].px == 1.0 - qx[a]
  }

  /** The lx column: at every age, the survivors of l0 lives. */
  ghost predicate SurvivorshipColumn(t: seq<CommutationRow>, qx: seq<real>, l0: real)
  {
    |t| <= |qx| && forall a :: 0 <= a < |t| ==> t[a].lx == Survivors(qx, l0, a)
  }

  /** Dx = lx * v^age with v = 1 / (1 + i). */
  ghost predicate DiscountedColumn(t: seq<CommutationRow>, i: real)
  {
    1.0 + i != 0.0 && forall a :: 0 <= a < |t| ==> t[a].dx == Discounted(t[a].lx, Discount(i), a)
  }

  /** Nx = Dx + D(x+1) + ... up to the terminal age. */
  ghost predicate CumulativeColumn(t: seq<CommutationRow>)
  {
    forall a :: 0 <= a < |t| ==> t[a].nx == SuffixSum(DxColumn(t), a)
  }

  /** t is the commutation table of schedule qx at rate i with radix l0. */
  ghost predicate IsCommutationTable(t: seq<CommutationRow>, qx: seq<real>, i: real, l0: real)
  {
    ScheduleColumns(t, qx) && SurvivorshipColumn(t, qx, l0) && DiscountedColumn(t, i) && CumulativeColumn(t)
  }

  /** The builder. A missing schedule (or one without a qx column) gives the empty table.
      lx is filled by a forward scan and Nx by a backward scan, both over arrays. */
  method BuildCommutationTable(schedule: Option<seq<real>>, i: real, l0: real)
    returns (table: seq<CommutationRow>)
    requires schedule.Some? ==> |schedule.value| > 0
    requires 1.0 + i != 0.0
    ensures schedule.None? ==> table == []
    ensures schedule.Some? ==> IsCommutationTable(table, schedule.value, i, l0)
  {
    if schedule.None? {
      return [];
    }
    var qx := schedule.value;
    var n := |qx|;
    var px := seq(n, a requires 0 <= a < n => 1.0 - qx[a]);
    var lx := SurvivorsScan(qx, l0);
    var v := Discount(i);
    var dx := seq(n, a requires 0 <= a < n => Discounted(lx[a], v, a));
    var nx := CumulativeScan(dx);
    table := seq(n, a requires 0 <= a < n => CommutationRow(a, qx[a], px[a], lx[a], dx[a], nx[a]));
    assert DxColumn(table) == dx;
    assert ScheduleColumns(table, qx);
    assert SurvivorshipColumn(table, qx, l0);
    assert DiscountedColumn(table, i);
    assert CumulativeColumn(table);
  }

  /** The forward scan: lx[0] = l0 and lx[a] = lx[a-1] * (1 - qx[a-1]). */
  method SurvivorsScan(qx: seq<real>, l0: real) returns (column: seq<real>)
    requires |qx| > 0
    ensures |column| == |qx|
    ensures forall a :: 0 <= a < |qx| ==> column[a] == Survivors(qx, l0, a)
  {
    var n := |qx|;
    var lx := new real[n];
    lx[0] := l0;
    for a := 1 to n
      invariant forall j :: 0 <= j < a ==> lx[j] == Survivors(qx, l0, j)
    {
      lx[a] := Survive(lx[a - 1], qx[a - 1]);
    }
    column := lx[..];
  }

  /** The backward scan: Nx[last] = Dx[last] and Nx[a] = Nx[a+1] + Dx[a]. */
  method CumulativeScan(dx: seq<real>) returns (column: seq<real>)
    requires |dx| > 0
    ensures |column| == |dx|
    ensures forall a :: 0 <= a < |dx| ==> column[a] == SuffixSum(dx, a)
  {
    var n := |dx|;
    var nx := new real[n];
    var last := n - 1;
    nx[last] := dx[last];
    var a := last;
    while a > 0
      invariant 0 <= a <= last
      invariant forall j :: a <= j < n ==> nx[j] == SuffixSum(dx, j)
    {
      a := a - 1;
      nx[a] := nx[a + 1] + dx[a];
    }
    column := nx[..];
  }

  // ---------------------------------------------------------------------------
  // Properties of the columns

  /** Survivors never go negative once every qx is at most 1 (which the clip guarantees). */
  lemma {:induction false} SurvivorsNonNegative(qx: seq<real>, l0: real, a: nat)
    requires l0 >= 0.0
    requires forall j :: 0 <= j < |qx| ==> qx[j] <= 1.0
    requires a <= |qx|
    ensures Survivors(qx, l0, a) >= 0.0
  {
    if a > 0 {
      SurvivorsNonNegative(qx, l0, a - 1);
      var prev := Survivors(qx, l0, a - 1);
      assert Survive(prev, qx[a - 1]) == prev * (1.0 - qx[a - 1]) >= 0.0;
    }
  }

  /** With every qx a probability, survivors never increase with age. */
  lemma {:induction false} SurvivorsNonIncreasing(qx: seq<real>, l0: real, a: nat, b: nat)
    requires l0 >= 0.0
    requires forall j :: 0 <= j < |qx| ==> 0.0 <= qx[j] <= 1.0
    requires a <= b <= |qx|
    ensures Survivors(qx, l0, b) <= Survivors(qx, l0, a)
  {
    if a < b {
      SurvivorsNonIncreasing(qx, l0, a, b - 1);
      SurvivorsNonNegative(qx, l0, b - 1);
      var prev := Survivors(qx, l0, b - 1);
      assert Survive(prev, qx[b - 1]) == prev * (1.0 - qx[b - 1]) <= prev;
    }
  }

  lemma {:induction false} PowNonNegative(v: real, n: nat)
    requires v >= 0.0
    ensures Pow(v, n) >= 0.0
  {
    if n > 0 {
      PowNonNegative(v, n - 1);
      assert v * Pow(v, n - 1) >= 0.0;
    }
  }

  /** Discounting over more years never gives a larger factor when 0 <= v <= 1. */
  lemma {:induction false} PowBounds(v: real, m: nat, n: nat)
    requires 0.0 <= v <= 1.0
    requires m <= n
    ensures 0.0 <= Pow(v, n) <= Pow(v, m)
    decreases n
  {
    PowNonNegative(v, n);
    if m < n {
      PowBounds(v, m, n - 1);
      assert v * Pow(v, n - 1) <= Pow(v, n - 1);
    }
  }

  /** Non-negative suffix sums shrink as the starting age grows and dominate their first term. */
  lemma {:induction false} SuffixSumNonIncreasing(d: seq<real>, a: nat, b: nat)
    requires forall j :: 0 <= j < |d| ==> d[j] >= 0.0
    requires a <= b <= |d|
    ensures 0.0 <= SuffixSum(d, b) <= SuffixSum(d, a)
    ensures a < |d| ==> d[a] <= SuffixSum(d, a)
    decreases |d| - a
  {
    if a < |d| {
      SuffixSumNonIncreasing(d, a + 1, if b == a then a + 1 else b);
    }
  }

  /** A cumulative column satisfies the recurrences the builder runs:
      Nx at the terminal age equals Dx there, and each Nx is the next Nx plus its own Dx. */
  lemma {:induction false} CumulativeRecurrence(t: seq<CommutationRow>)
    requires CumulativeColumn(t)
    requires |t| > 0
    ensures t[|t| - 1].nx == t[|t| - 1].dx
    ensures forall a :: 0 <= a < |t| - 1 ==> t[a].nx == t[a + 1].nx + t[a].dx
  {
    var d := DxColumn(t);
    assert t[|t| - 1].nx == SuffixSum(d, |t| - 1) == d[|t| - 1] + SuffixSum(d, |t|);
    forall a | 0 <= a < |t| - 1
      ensures t[a].nx == t[a + 1].nx + t[a].dx
    {
      assert t[a].nx == SuffixSum(d, a) == d[a] + SuffixSum(d, a + 1);
      assert t[a + 1].nx == SuffixSum(d, a + 1);
    }
  }

  /** The survivorship column satisfies the forward recurrence of the builder. */
  lemma {:induction false} SurvivorshipRecurrence(t: seq<CommutationRow>, qx: seq<real>, l0: real)
    requires ScheduleColumns(t, qx) && SurvivorshipColumn(t, qx, l0)
    requires |t| > 0
    ensures t[0].lx == l0
    ensures forall a :: 1 <= a < |t| ==> t[a].lx == t[a - 1].lx * t[a - 1].px
  {
  }

  /** With qx in [0,1] and l0 >= 0, lx is non-negative and non-increasing in age. */
  lemma SurvivorshipBounds(t: seq<CommutationRow>, qx: seq<real>, l0: real)
    requires SurvivorshipColumn(t, qx, l0)
    requires l0 >= 0.0
    requires forall j :: 0 <= j < |qx| ==> 0.0 <= qx[j] <= 1.0
    ensures forall a :: 0 <= a < |t| ==> 0.0 <= t[a].lx
    ensures forall a, b :: 0 <= a <= b < |t| ==> t[b].lx <= t[a].lx
  {
    forall a | 0 <= a < |t|
      ensures 0.0 <= t[a].lx
    {
      SurvivorsNonNegative(qx, l0, a);
    }
    forall a, b | 0 <= a <= b < |t|
      ensures t[b].lx <= t[a].lx
    {
      SurvivorsNonIncreasing(qx, l0, a, b);
    }
  }

  /** With i >= 0 and a non-negative, non-increasing lx, Dx is non-negative and non-increasing. */
  lemma DiscountedBounds(t: seq<CommutationRow>, i: real)
    requires DiscountedColumn(t, i)
    requires i >= 0.0
    requires forall a :: 0 <= a < |t| ==> 0.0 <= t[a].lx
    requires forall a, b :: 0 <= a <= b < |t| ==> t[b].lx <= t[a].lx
    ensures forall a :: 0 <= a < |t| ==> 0.0 <= t[a].dx
    ensures forall a, b :: 0 <= a <= b < |t| ==> t[b].dx <= t[a].dx
  {
    var v := Discount(i);
    forall a | 0 <= a < |t|
      ensures 0.0 <= t[a].dx
    {
      PowBounds(v, 0, a);
      ScaleMonotone(0.0, t[a].lx, 0.0, Pow(v, a));
      assert t[a].dx == Discounted(t[a].lx, v, a);
    }
    forall a, b | 0 <= a <= b < |t|
      ensures t[b].dx <= t[a].dx
    {
      PowBounds(v, a, b);
      ScaleMonotone(t[b].lx, t[a].lx, Pow(v, b), Pow(v, a));
      assert t[b].dx == Discounted(t[b].lx, v, b);
      assert t[a].dx == Discounted(t[a].lx, v, a);
    }
  }

  /** With Dx >= 0, Nx is non-negative, non-increasing in age and at least Dx. */
  lemma CumulativeBounds(t: seq<CommutationRow>)
    requires CumulativeColumn(t)
    requires forall a :: 0 <= a < |t| ==> 0.0 <= t[a].dx
    ensures forall a :: 0 <= a < |t| ==> 0.0 <= t[a].dx <= t[a].nx
    ensures forall a, b :: 0 <= a <= b < |t| ==> t[b].nx <= t[a].nx
  {
    var d := DxColumn(t);
    forall a | 0 <= a < |t|
      ensures t[a].dx <= t[a].nx
    {
      SuffixSumNonIncreasing(d, a, a);
    }
    forall a, b | 0 <= a <= b < |t|
      ensures t[b].nx <= t[a].nx
    {
      SuffixSumNonIncreasing(d, a, b);
    }
  }

  /** With probabilities in [0,1], a radix l0 >= 0 and a rate i >= 0, the table has
      non-negative, non-increasing lx, Dx and Nx columns, and Nx dominates Dx. */
  lemma CommutationTableBounds(t: seq<CommutationRow>, qx: seq<real>, i: real, l0: real)
    requires IsCommutationTable(t, qx, i, l0)
    requires l0 >= 0.0 && i >= 0.0
    requires forall j :: 0 <= j < |qx| ==> 0.0 <= qx[j] <= 1.0
    ensures forall a :: 0 <= a < |t| ==> 0.0 <= t[a].lx && 0.0 <= t[a].dx <= t[a].nx
    ensures forall a, b :: 0 <= a <= b < |t| ==>
      t[b].lx <= t[a].lx && t[b].dx <= t[a].dx && t[b].nx <= t[a].nx
  {
    SurvivorshipBounds(t, qx, l0);
    DiscountedBounds(t, i);
    CumulativeBounds(t);
  }

  /** x1 * y1 <= x2 * y2 for non-negative factors that grow. */
  lemma ScaleMonotone(x1: real, x2: real, y1: real, y2: real)
    requires 0.0 <= x1 <= x2 && 0.0 <= y1 <= y2
    ensures x1 * y1 <= x2 * y2
  {
  }
}
