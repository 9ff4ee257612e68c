/** The valuation engine: from a commutation table and the plan parameters (entry age e,
    valuation age x, retirement age r, rate i, accrual rate k, starting salary Se, salary
    growth s) it projects the benefit, values it at entry and at every age of service, and
    allocates it by two funding methods, Entry Age Normal (EAN) and Attained Age Normal (AAN). */
module Valuation {
  import opened Commutation

  /** Which commutation column a lookup reads. */
  datatype Column = D | N

  datatype CostMethod = EAN | AAN

  /** One row of the per-age series: normal cost and accrued liability under each method,
      and the present value of future benefits at that age. */
  datatype ActuarialRow = ActuarialRow(age: nat, ncEan: real, ncAan: real, alEan: real, alAan: real, pvfb: real)

  /** The quantities fixed before the per-age loop starts. */
  datatype Anchor = Anchor(
    dEntry: real, nEntry: real, dRetire: real, nRetire: real,
    salary: real, benefit: real, pvfbEntry: real, ncEan: real)

  /** The scalar metrics map. */
  datatype Metrics = Metrics(
    salaryBeforeRetirement: real, benefit: real, pvfbEntry: real, pvfbNow: real,
    ncEanNow: real, alEanNow: real, alAanNow: real, ncAanNow: real,
    naEan: real, naAan: real,
    naEanFirst: real, naEanSecond: real, naEanLast: real,
    naAanFirst: real, naAanSecond: real, naAanLast: real)

  /** NoTable stands for the empty metrics map and the empty series. */
  datatype Valuation = NoTable | Valued(metrics: Metrics, rows: seq<ActuarialRow>)

  function Field(row: CommutationRow, c: Column): real
  {
    match c
    case D => row.dx
    case N => row.nx
  }

  /** A lookup in the age-keyed dictionary built from the table (0 for an absent age). */
  function Lookup(t: seq<CommutationRow>, age: nat, c: Column): real
    decreases |t|
  {
    if |t| == 0 then 0.0
    else if t[|t| - 1].age == age then Field(t[|t| - 1], c)
    else Lookup(t[..|t| - 1], age, c)
  }

  /** Dictionary semantics of the lookup: an age no row carries reads as 0, and when several
      rows carry the age, the last one wins. */
  lemma {:induction false} LookupLastMatch(t: seq<CommutationRow>, age: nat, c: Column, j: nat)
    ensures (forall k :: 0 <= k < |t| ==> t[k].age != age) ==> Lookup(t, age, c) == 0.0
    ensures j < |t| && t[j].age == age && (forall k :: j < k < |t| ==> t[k].age != age) ==>
      Lookup(t, age, c) == Field(t[j], c)
    decreases |t|
  {
    if |t| > 0 {
      var init := t[..|t| - 1];
      assert forall k :: 0 <= k < |init| ==> init[k] == t[k];
      LookupLastMatch(init, age, c, j);
    }
  }

  /** In a table whose row a carries age a, as the builder makes it, a lookup is plain
      indexing, with 0 past the terminal age. */
  lemma LookupByAge(t: seq<CommutationRow>, age: nat, c: Column)
    requires forall j :: 0 <= j < |t| ==> t[j].age == j
    ensures Lookup(t, age, c) == if age < |t| then Field(t[age], c) else 0.0
  {
  }

  /** S(r-1) = (1+s)^(r-e-1) * Se: the salary in the last year before retirement. */
  function ProjectedSalary(se: real, s: real, e: nat, r: nat): (salary: real)
    requires e < r
    ensures r == e + 1 ==> salary == se
  {
    Pow(1.0 + s, r - e - 1) * se
  }

  /** Every extra year of service grows the final salary by the factor (1+s). */
  lemma ProjectedSalaryStep(se: real, s: real, e: nat, r: nat)
    requires e < r
    ensures ProjectedSalary(se, s, e, r + 1) == (1.0 + s) * ProjectedSalary(se, s, e, r)
  {
  }

  /** B(r) = k * (r - e) * S(r-1): the accrual rate times the years of service times the final salary. */
  function Benefit(k: real, e: nat, r: nat, salary: real): (b: real)
    requires e <= r
    ensures r == e ==> b == 0.0
  {
    k * ((r - e) as real) * salary
  }

  /** Each further year of service adds k * S(r-1) to the benefit. */
  lemma BenefitAccrues(k: real, e: nat, r: nat, salary: real)
    requires e <= r
    ensures Benefit(k, e, r + 1, salary) == Benefit(k, e, r, salary) + k * salary
  {
  }

  /** The value at an age with discounted survivorship dx of the benefit payable from
      retirement: B(r) * D(r) / D(x); 0 when there are no discounted survivors at that age. */
  function Pvfb(benefit: real, dRetire: real, dx: real): (pv: real)
    ensures dx > 0.0 ==> pv * dx == benefit * dRetire
    ensures dx <= 0.0 ==> pv == 0.0
  {
    if dx > 0.0 then benefit * (dRetire / dx) else 0.0
  }

  /** The temporary annuity from an age to retirement, (N(x) - N(r)) / D(x); 0 when D(x) <= 0. */
  function Annuity(nx: real, nRetire: real, dx: real): (a: real)
    ensures dx > 0.0 ==> a * dx == nx - nRetire
    ensures dx <= 0.0 ==> a == 0.0
  {
    if dx > 0.0 then (nx - nRetire) / dx else 0.0
  }

  /** The level cost that the annuity turns into the present value; 0 for a non-positive annuity. */
  function LevelCost(pv: real, annuity: real): (nc: real)
    ensures annuity > 0.0 ==> nc * annuity == pv
    ensures annuity <= 0.0 ==> nc == 0.0
  {
    if annuity > 0.0 then pv / annuity else 0.0
  }

  /** The EAN normal cost, computed once at entry with the guards nested as the engine nests
      them; it is the level cost over the annuity at entry. */
  function EanLevelCost(pvfbEntry: real, dEntry: real, nEntry: real, nRetire: real): (nc: real)
    ensures nc == LevelCost(pvfbEntry, Annuity(nEntry, nRetire, dEntry))
  {
    if dEntry > 0.0 then
      var annuity := (nEntry - nRetire) / dEntry;
      if annuity > 0.0 then pvfbEntry / annuity else 0.0
    else
      0.0
  }

  /** The EAN accrued liability by the ratio method: the share (N(e) - N(x)) / (N(e) - N(r))
      of the current PVFB, or 0 when N(e) = N(r). It is 0 at entry and the whole PVFB at retirement. */
  function EanAccruedLiability(pv: real, nEntry: real, nx: real, nRetire: real): (al: real)
    ensures nEntry != nRetire ==> al * (nEntry - nRetire) == pv * (nEntry - nx)
    ensures nEntry == nRetire || nx == nEntry ==> al == 0.0
    ensures nEntry != nRetire && nx == nRetire ==> al == pv
  {
    if nEntry - nRetire != 0.0 then pv * ((nEntry - nx) / (nEntry - nRetire)) else 0.0
  }

  /** The level cost over the annuity from an age with survivorship columns d and n: spread
      over N(x) - N(r), it recovers the present value carried by D(x); it is 0 unless both
      D(x) and N(x) - N(r) are positive. */
  lemma AnnuityCost(pv: real, n: real, nRetire: real, d: real)
    ensures d > 0.0 && n - nRetire > 0.0 ==>
              LevelCost(pv, Annuity(n, nRetire, d)) * (n - nRetire) == pv * d
    ensures !(d > 0.0 && n - nRetire > 0.0) ==> LevelCost(pv, Annuity(n, nRetire, d)) == 0.0
  {
  }

  /** Everything the engine fixes before the loop. */
  function AnchorOf(t: seq<CommutationRow>, e: nat, r: nat, k: real, se: real, s: real): Anchor
    requires e < r
  {
    var dEntry := Lookup(t, e, D);
    var nEntry := Lookup(t, e, N);
    var dRetire := Lookup(t, r, D);
    var nRetire := Lookup(t, r, N);
    var salary := ProjectedSalary(se, s, e, r);
    var benefit := Benefit(k, e, r, salary);
    var pvfbEntry := Pvfb(benefit, dRetire, dEntry);
    Anchor(dEntry, nEntry, dRetire, nRetire, salary, benefit, pvfbEntry,
           EanLevelCost(pvfbEntry, dEntry, nEntry, nRetire))
  }

  /** The anchor: the commutation values at entry and at retirement as the age-keyed lookups
      read them, the projected salary and its benefit, the entry PVFB with PVFB_e * D(e) =
      B * D(r), and the EAN level cost with NC * (N(e) - N(r)) = PVFB_e * D(e); PVFB_e and NC
      are 0 where the guards on D(e) and on the entry annuity fail. */
  lemma AnchorValues(t: seq<CommutationRow>, e: nat, r: nat, k: real, se: real, s: real)
    requires e < r
    ensures var anc := AnchorOf(t, e, r, k, se, s);
      && anc.dEntry == Lookup(t, e, D) && anc.nEntry == Lookup(t, e, N)
      && anc.dRetire == Lookup(t, r, D) && anc.nRetire == Lookup(t, r, N)
      && anc.salary == ProjectedSalary(se, s, e, r)
      && anc.benefit == Benefit(k, e, r, anc.salary)
      && (anc.dEntry > 0.0 ==> anc.pvfbEntry * anc.dEntry == anc.benefit * anc.dRetire)
      && (anc.dEntry <= 0.0 ==> anc.pvfbEntry == 0.0)
      && (anc.dEntry > 0.0 && anc.nEntry - anc.nRetire > 0.0 ==>
            anc.ncEan * (anc.nEntry - anc.nRetire) == anc.pvfbEntry * anc.dEntry)
      && (!(anc.dEntry > 0.0 && anc.nEntry - anc.nRetire > 0.0) ==> anc.ncEan == 0.0)
  {
  }

  /** The row for age a, with D(a) and N(a) read from the table: the EAN cost is the level
      cost fixed at entry; PVFB_a * D(a) = B * D(r); the AAN cost spreads PVFB_e over the
      remaining annuity, NC_AAN * (N(a) - N(r)) = PVFB_e * D(a); the EAN liability is the share
      (N(e) - N(a)) / (N(e) - N(r)) of PVFB_a; the AAN liability is the growth of the PVFB since
      entry. Each guarded value is 0 where its guard fails. */
  function RowAt(t: seq<CommutationRow>, anc: Anchor, a: nat): (row: ActuarialRow)
    ensures row.age == a && row.ncEan == anc.ncEan
    ensures Lookup(t, a, D) > 0.0 ==> row.pvfb * Lookup(t, a, D) == anc.benefit * anc.dRetire
    ensures Lookup(t, a, D) <= 0.0 ==> row.pvfb == 0.0
    ensures Lookup(t, a, D) > 0.0 && Lookup(t, a, N) - anc.nRetire > 0.0 ==>
              row.ncAan * (Lookup(t, a, N) - anc.nRetire) == anc.pvfbEntry * Lookup(t, a, D)
    ensures !(Lookup(t, a, D) > 0.0 && Lookup(t, a, N) - anc.nRetire > 0.0) ==> row.ncAan == 0.0
    ensures anc.nEntry != anc.nRetire ==>
              row.alEan * (anc.nEntry - anc.nRetire) == row.pvfb * (anc.nEntry - Lookup(t, a, N))
    ensures anc.nEntry == anc.nRetire ==> row.alEan == 0.0
    ensures row.alAan == row.pvfb - anc.pvfbEntry
  {
    var dx := Lookup(t, a, D);
    var nx := Lookup(t, a, N);
    var pv := Pvfb(anc.benefit, anc.dRetire, dx);
    ActuarialRow(
      a,
      anc.ncEan,
      LevelCost(anc.pvfbEntry, Annuity(nx, anc.nRetire, dx)),
      EanAccruedLiability(pv, anc.nEntry, nx, anc.nRetire),
      pv - anc.pvfbEntry,
      pv)
  }

  /** The rows for ages lo, lo+1, ..., hi-1: one per age, ascending, EAN cost level throughout. */
  function Series(t: seq<CommutationRow>, anc: Anchor, lo: nat, hi: nat): (rows: seq<ActuarialRow>)
    requires lo <= hi
    ensures |rows| == hi - lo
    ensures forall j :: 0 <= j < |rows| ==> rows[j].age == lo + j && rows[j].ncEan == anc.ncEan
  {
    var rows := seq(hi - lo, j requires 0 <= j < hi - lo => RowAt(t, anc, lo + j));
    assert forall j :: 0 <= j < |rows| ==> rows[j] == RowAt(t, anc, lo + j);
    rows
  }

  lemma SeriesSnoc(t: seq<CommutationRow>, anc: Anchor, lo: nat, hi: nat)
    requires lo <= hi
    ensures Series(t, anc, lo, hi + 1) == Series(t, anc, lo, hi) + [RowAt(t, anc, hi)]
  {
  }

  /** At entry age the AAN liability and the EAN liability are both 0, the PVFB is the anchor
      value, and the AAN normal cost equals the EAN level cost. */
  lemma EntryRow(t: seq<CommutationRow>, e: nat, r: nat, k: real, se: real, s: real)
    requires e < r
    ensures var anc := AnchorOf(t, e, r, k, se, s);
      var row := Series(t, anc, e, r)[0];
      && row.age == e
      && row.alAan == 0.0
      && row.alEan == 0.0
      && row.ncAan == row.ncEan == anc.ncEan
      && row.pvfb == anc.pvfbEntry
  {
    var anc := AnchorOf(t, e, r, k, se, s);
    assert Series(t, anc, e, r)[0] == RowAt(t, anc, e);
  }

  /** With a non-negative entry PVFB, a shorter remaining annuity never lowers the AAN cost. */
  lemma AanCostRises(pv: real, longer: real, shorter: real)
    requires pv >= 0.0
    requires 0.0 < shorter <= longer
    ensures LevelCost(pv, longer) <= LevelCost(pv, shorter)
  {
  }

  /** The first row whose age is x, as a filter on the age column picks it. */
  function RowForAge(rows: seq<ActuarialRow>, x: nat): (found: Option<ActuarialRow>)
    ensures found.None? <==> forall j :: 0 <= j < |rows| ==> rows[j].age != x
    ensures forall j :: 0 <= j < |rows| && rows[j].age == x && (forall k :: 0 <= k < j ==> rows[k].age != x) ==>
      found == Some(rows[j])
    decreases |rows|
  {
    if |rows| == 0 then None
    else if rows[0].age == x then Some(rows[0])
    else RowForAge(rows[1..], x)
  }

  /** In rows of consecutive ages from lo the row for x is found exactly when x is one of those
      ages, and it is the row at position x - lo. */
  lemma ConsecutiveRowForAge(rows: seq<ActuarialRow>, lo: nat, x: nat)
    requires forall j :: 0 <= j < |rows| ==> rows[j].age == lo + j
    ensures RowForAge(rows, x) == if lo <= x < lo + |rows| then Some(rows[x - lo]) else None
  {
  }

  function NormalCost(row: ActuarialRow, m: CostMethod): real
  {
    match m
    case EAN => row.ncEan
    case AAN => row.ncAan
  }

  /** A contribution carried forward at rate i for the given number of years. */
  function FutureValue(amount: real, i: real, years: nat): real
  {
    amount * Pow(1.0 + i, years)
  }

  /** The accumulation loop over the series, in row order: every row before retirement adds
      its normal cost carried forward to retirement. */
  function Accumulated(rows: seq<ActuarialRow>, r: nat, i: real, m: CostMethod): real
    decreases |rows|
  {
    if |rows| == 0 then 0.0
    else
      var row := rows[|rows| - 1];
      Accumulated(rows[..|rows| - 1], r, i, m)
        + (if row.age < r then FutureValue(NormalCost(row, m), i, r - row.age) else 0.0)
  }

  /** Reference definition by age: the sum over ages e..a-1 of NC(age) * (1+i)^(r-age). */
  function ServiceSum(t: seq<CommutationRow>, anc: Anchor, e: nat, a: nat, r: nat, i: real, m: CostMethod): real
    requires e <= a <= r
    decreases a
  {
    if a == e then 0.0
    else ServiceSum(t, anc, e, a - 1, r, i, m) + FutureValue(NormalCost(RowAt(t, anc, a - 1), m), i, r - (a - 1))
  }

  /** The accumulation loop over the series adds every age of service exactly once. */
  lemma {:induction false} AccumulatedOverService(
    t: seq<CommutationRow>, anc: Anchor, e: nat, a: nat, r: nat, i: real, m: CostMethod)
    requires e <= a <= r
    ensures Accumulated(Series(t, anc, e, a), r, i, m) == ServiceSum(t, anc, e, a, r, i, m)
    decreases a
  {
    if a > e {
      var rows := Series(t, anc, e, a);
      assert rows[..|rows| - 1] == Series(t, anc, e, a - 1);
      AccumulatedOverService(t, anc, e, a - 1, r, i, m);
    }
  }

  /** (1+i) + (1+i)^2 + ... + (1+i)^n: a level payment of 1 at the start of each of n years,
      accumulated to the end of the last. */
  function AccumulationFactor(i: real, n: nat): real
  {
    if n == 0 then 0.0 else AccumulationFactor(i, n - 1) + Pow(1.0 + i, n)
  }

  /** Closed form of the accumulation factor: i * factor = (1+i) * ((1+i)^n - 1). */
  lemma {:induction false} AccumulationFactorClosedForm(i: real, n: nat)
    ensures i * AccumulationFactor(i, n) == (1.0 + i) * (Pow(1.0 + i, n) - 1.0)
  {
    if n > 0 {
      AccumulationFactorClosedForm(i, n - 1);
      var p := Pow(1.0 + i, n - 1);
      assert Pow(1.0 + i, n) == (1.0 + i) * p;
      assert i * AccumulationFactor(i, n) == (1.0 + i) * (p - 1.0) + i * ((1.0 + i) * p);
    }
  }

  /** w(1) + w(2) + ... + w(n). */
  function Total(w: nat -> real, n: nat): real
  {
    if n == 0 then 0.0 else Total(w, n - 1) + w(n)
  }

  /** The growth factors k |-> (1+i)^k. */
  function Powers(i: real): nat -> real
  {
    (k: nat) => Pow(1.0 + i, k)
  }

  /** A cost c carried forward k years, as a function of k. */
  function Contributions(c: real, i: real): nat -> real
  {
    (k: nat) => FutureValue(c, i, k)
  }

  /** Scaling every term scales the total. */
  lemma {:induction false} TotalScaled(c: real, w: nat -> real, cw: nat -> real, n: nat)
    requires forall k :: cw(k) == c * w(k)
    ensures Total(cw, n) == c * Total(w, n)
  {
    if n > 0 {
      TotalScaled(c, w, cw, n - 1);
    }
  }

  /** The accumulation factor is the total of the growth factors 1..n. */
  lemma {:induction false} FactorIsTotal(i: real, n: nat)
    ensures AccumulationFactor(i, n) == Total(Powers(i), n)
  {
    if n > 0 {
      FactorIsTotal(i, n - 1);
    }
  }

  /** Rows of consecutive ages from e that all carry the cost c accumulate to the
      contributions carried forward r-e, r-e-1, ..., down to r-e-|rows|+1 years. */
  lemma {:induction false} LevelRowsAccumulation(rows: seq<ActuarialRow>, c: real, e: nat, r: nat, i: real)
    requires e + |rows| <= r
    requires forall j :: 0 <= j < |rows| ==> rows[j].age == e + j && rows[j].ncEan == c
    ensures Accumulated(rows, r, i, EAN)
      == Total(Contributions(c, i), r - e) - Total(Contributions(c, i), r - e - |rows|)
    decreases |rows|
  {
    if |rows| > 0 {
      LevelRowsAccumulation(rows[..|rows| - 1], c, e, r, i);
    }
  }

  /** Because the EAN cost is level, NA(EAN) is that cost times the accumulation factor over
      the r - e years of service. */
  lemma LevelAccumulation(t: seq<CommutationRow>, anc: Anchor, e: nat, r: nat, i: real)
    requires e <= r
    ensures Accumulated(Series(t, anc, e, r), r, i, EAN) == anc.ncEan * AccumulationFactor(i, r - e)
  {
    LevelRowsAccumulation(Series(t, anc, e, r), anc.ncEan, e, r, i);
    FactorIsTotal(i, r - e);
    TotalScaled(anc.ncEan, Powers(i), Contributions(anc.ncEan, i), r - e);
  }

  /** One year of service: NA(EAN) = NC(EAN) * (1+i). */
  lemma SingleYearAccumulation(t: seq<CommutationRow>, anc: Anchor, e: nat, i: real)
    ensures Accumulated(Series(t, anc, e, e + 1), e + 1, i, EAN) == anc.ncEan * (1.0 + i)
  {
    LevelAccumulation(t, anc, e, e + 1, i);
    assert AccumulationFactor(i, 1) == Pow(1.0 + i, 1) == 1.0 + i;
  }

  /** The per-age loop: one row for each age e, e+1, ..., r-1, appended in ascending order. */
  method ServiceRows(t: seq<CommutationRow>, anc: Anchor, e: nat, r: nat) returns (rows: seq<ActuarialRow>)
    requires e <= r
    ensures rows == Series(t, anc, e, r)
  {
    rows := [];
    for a := e to r
      invariant rows == Series(t, anc, e, a)
    {
      var dx := Lookup(t, a, D);
      var nx := Lookup(t, a, N);
      var pv := Pvfb(anc.benefit, anc.dRetire, dx);
      var annuity := Annuity(nx, anc.nRetire, dx);
      var ncAan := LevelCost(anc.pvfbEntry, annuity);
      var alEan := EanAccruedLiability(pv, anc.nEntry, nx, anc.nRetire);
      var row := ActuarialRow(a, anc.ncEan, ncAan, alEan, pv - anc.pvfbEntry, pv);
      SeriesSnoc(t, anc, e, a);
      rows := rows + [row];
    }
  }

  /** The accumulation loop: each row before retirement adds its normal cost carried forward
      to retirement, for both methods at once. */
  method AccumulateContributions(rows: seq<ActuarialRow>, r: nat, i: real) returns (naEan: real, naAan: real)
    ensures naEan == Accumulated(rows, r, i, EAN)
    ensures naAan == Accumulated(rows, r, i, AAN)
  {
    naEan, naAan := 0.0, 0.0;
    for j := 0 to |rows|
      invariant naEan == Accumulated(rows[..j], r, i, EAN)
      invariant naAan == Accumulated(rows[..j], r, i, AAN)
    {
      var row := rows[j];
      assert rows[..j + 1][..j] == rows[..j];
      if row.age < r {
        naEan := naEan + FutureValue(row.ncEan, i, r - row.age);
        naAan := naAan + FutureValue(row.ncAan, i, r - row.age);
      }
    }
    assert rows[..|rows|] == rows;
  }

  /** first, second and last are the first, second (when there is one) and last summands
      that the accumulation of rows adds up. */
  predicate AreSummands(rows: seq<ActuarialRow>, r: nat, i: real, m: CostMethod, first: real, second: real, last: real)
    requires |rows| > 0
  {
    && first == Accumulated(rows[..1], r, i, m)
    && (|rows| > 1 ==> second == Accumulated(rows[..2], r, i, m) - Accumulated(rows[..1], r, i, m))
    && last == Accumulated(rows, r, i, m) - Accumulated(rows[..|rows| - 1], r, i, m)
  }

  /** Over consecutive ages e..r-1, the display formulas (the first and second rows carried
      forward from their own ages, the last carried one year) are the first, second and last
      summands of the accumulation. */
  lemma EndTermsAreSummands(rows: seq<ActuarialRow>, e: nat, r: nat, i: real, m: CostMethod)
    requires e < r && |rows| == r - e
    requires forall j :: 0 <= j < |rows| ==> rows[j].age == e + j
    ensures AreSummands(rows, r, i, m,
                        FutureValue(NormalCost(rows[0], m), i, r - e),
                        if |rows| > 1 then FutureValue(NormalCost(rows[1], m), i, r - e - 1) else 0.0,
                        FutureValue(NormalCost(rows[|rows| - 1], m), i, 1))
  {
  }

  /** The first, second and last terms of an accumulation over the ages e..r-1, each carried
      forward from its own age (the last one year); the second is 0 for a single year. */
  method EndTerms(rows: seq<ActuarialRow>, e: nat, r: nat, i: real, m: CostMethod)
    returns (first: real, second: real, last: real)
    requires e < r && |rows| == r - e
    requires forall j :: 0 <= j < |rows| ==> rows[j].age == e + j
    ensures first == FutureValue(NormalCost(rows[0], m), i, r - e)
    ensures second == if |rows| > 1 then FutureValue(NormalCost(rows[1], m), i, r - e - 1) else 0.0
    ensures last == FutureValue(NormalCost(rows[|rows| - 1], m), i, 1)
    ensures AreSummands(rows, r, i, m, first, second, last)
  {
    first := FutureValue(NormalCost(rows[0], m), i, r - rows[0].age);
    last := FutureValue(NormalCost(rows[|rows| - 1], m), i, 1);
    second := 0.0;
    if |rows| > 1 {
      second := FutureValue(NormalCost(rows[1], m), i, r - rows[1].age);
    }
  }

  /** Everything the engine reports that depends only on the series: the valuation-age row
      (zeros when no row has age x), both accumulations and their display terms. */
  method Summarize(rows: seq<ActuarialRow>, e: nat, x: nat, r: nat, i: real,
                   salary: real, benefit: real, pvfbEntry: real, pvfbNow: real) returns (m: Metrics)
    requires e < r && |rows| == r - e
    requires forall j :: 0 <= j < |rows| ==> rows[j].age == e + j
    ensures m.salaryBeforeRetirement == salary && m.benefit == benefit
    ensures m.pvfbEntry == pvfbEntry && m.pvfbNow == pvfbNow
    ensures e <= x < r ==>
              && m.ncEanNow == rows[x - e].ncEan
              && m.alEanNow == rows[x - e].alEan
              && m.alAanNow == rows[x - e].alAan
              && m.ncAanNow == rows[x - e].ncAan
    ensures !(e <= x < r) ==> m.ncEanNow == m.alEanNow == m.alAanNow == m.ncAanNow == 0.0
    ensures m.naEan == Accumulated(rows, r, i, EAN) && m.naAan == Accumulated(rows, r, i, AAN)
    ensures m.naEanFirst == FutureValue(NormalCost(rows[0], EAN), i, r - e)
    ensures m.naAanFirst == FutureValue(NormalCost(rows[0], AAN), i, r - e)
    ensures m.naEanLast == FutureValue(NormalCost(rows[|rows| - 1], EAN), i, 1)
    ensures m.naAanLast == FutureValue(NormalCost(rows[|rows| - 1], AAN), i, 1)
    ensures m.naEanSecond == if |rows| > 1 then FutureValue(NormalCost(rows[1], EAN), i, r - e - 1) else 0.0
    ensures m.naAanSecond == if |rows| > 1 then FutureValue(NormalCost(rows[1], AAN), i, r - e - 1) else 0.0
  {
    var ncEanNow, alEanNow, alAanNow, ncAanNow := 0.0, 0.0, 0.0, 0.0;
    ConsecutiveRowForAge(rows, e, x);
    var now := RowForAge(rows, x);
    if now.Some? {
      ncEanNow, alEanNow, alAanNow, ncAanNow := now.value.ncEan, now.value.alEan, now.value.alAan, now.value.ncAan;
    }
    var naEan, naAan := AccumulateContributions(rows, r, i);
    var naEanFirst, naEanSecond, naEanLast := EndTerms(rows, e, r, i, EAN);
    var naAanFirst, naAanSecond, naAanLast := EndTerms(rows, e, r, i, AAN);
    m := Metrics(salary, benefit, pvfbEntry, pvfbNow, ncEanNow, alEanNow, alAanNow, ncAanNow,
                 naEan, naAan, naEanFirst, naEanSecond, naEanLast, naAanFirst, naAanSecond, naAanLast);
  }

  /** The engine. An empty table gives the empty result; otherwise the anchor values, one
      row per age of service, the valuation-age row (zeros when there is none) and the
      contributions of each method accumulated to retirement. */
  method Valuate(t: seq<CommutationRow>, e: nat, x: nat, r: nat, i: real, k: real, se: real, s: real)
    returns (v: Valuation)
    requires |t| > 0 ==> e < r
    requires |t| > 0 && r == e + 1 ==> s != -1.0
    ensures |t| == 0 <==> v == NoTable
    ensures |t| > 0 ==> v.Valued?
    ensures v.Valued? ==>
              var anc := AnchorOf(t, e, r, k, se, s);
              var rows := v.rows;
              var m := v.metrics;
              && rows == Series(t, anc, e, r)
              && m.salaryBeforeRetirement == anc.salary
              && m.benefit == anc.benefit
              && m.pvfbEntry == anc.pvfbEntry
              && m.pvfbNow == Pvfb(anc.benefit, anc.dRetire, Lookup(t, x, D))
              && (e <= x < r ==>
                   && m.pvfbNow == rows[x - e].pvfb
                   && m.ncEanNow == rows[x - e].ncEan
                   && m.alEanNow == rows[x - e].alEan
                   && m.alAanNow == rows[x - e].alAan
                   && m.ncAanNow == rows[x - e].ncAan)
              && (!(e <= x < r) ==> m.ncEanNow == m.alEanNow == m.alAanNow == m.ncAanNow == 0.0)
              && m.naEan == Accumulated(rows, r, i, EAN) == anc.ncEan * AccumulationFactor(i, r - e)
              && m.naAan == Accumulated(rows, r, i, AAN) == ServiceSum(t, anc, e, r, r, i, AAN)
              && m.naEanFirst == FutureValue(NormalCost(rows[0], EAN), i, r - e)
              && m.naAanFirst == FutureValue(NormalCost(rows[0], AAN), i, r - e)
              && m.naEanLast == FutureValue(NormalCost(rows[|rows| - 1], EAN), i, 1)
              && m.naAanLast == FutureValue(NormalCost(rows[|rows| - 1], AAN), i, 1)
              && m.naEanSecond == (if |rows| > 1 then FutureValue(NormalCost(rows[1], EAN), i, r - e - 1) else 0.0)
              && m.naAanSecond == (if |rows| > 1 then FutureValue(NormalCost(rows[1], AAN), i, r - e - 1) else 0.0)
  {
    if |t| == 0 {
      return NoTable;
    }
    ghost var anc := AnchorOf(t, e, r, k, se, s);

    var dEntry := Lookup(t, e, D);
    var nEntry := Lookup(t, e, N);
    var dRetire := Lookup(t, r, D);
    var nRetire := Lookup(t, r, N);

    var salary := ProjectedSalary(se, s, e, r);
    var benefit := Benefit(k, e, r, salary);
    var pvfbEntry := Pvfb(benefit, dRetire, dEntry);
    var ncEanFixed := EanLevelCost(pvfbEntry, dEntry, nEntry, nRetire);
    assert anc == Anchor(dEntry, nEntry, dRetire, nRetire, salary, benefit, pvfbEntry, ncEanFixed);

    var rows := ServiceRows(t, Anchor(dEntry, nEntry, dRetire, nRetire, salary, benefit, pvfbEntry, ncEanFixed), e, r);

    var pvfbNow := Pvfb(benefit, dRetire, Lookup(t, x, D));
    if e <= x < r {
      assert rows[x - e] == RowAt(t, anc, x);
    }
    var m := Summarize(rows, e, x, r, i, salary, benefit, pvfbEntry, pvfbNow);
    LevelAccumulation(t, anc, e, r, i);
    AccumulatedOverService(t, anc, e, r, r, i, AAN);
    v := Valued(m, rows);
  }
}
