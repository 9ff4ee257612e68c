# Defined-benefit pension valuation: commutation table and EAN/AAN engine

This project models the numeric core of a defined-benefit pension calculator. It covers two parts, both with exact real arithmetic:

- **The mortality-table loader's cap.** When a table is loaded, every death probability qx is capped at 1 (`ClipQx`).
- **The commutation-table builder.** From a schedule of qx (the builder does not cap it itself), it builds:
  - the survivorship column lx, from a radix l0 by a forward scan;
  - the discounted survivorship Dx = lx·v^x, with v = 1/(1+i);
  - the cumulative column Nx = Dx + D(x+1) + …, by a backward scan.
- **The valuation engine.** It takes the table and the plan parameters: entry age e, valuation age x, retirement age r, interest i, accrual rate k, starting salary Se and salary growth s. From these it:
  - projects the final salary S(r−1) = (1+s)^(r−e−1)·Se and the benefit B(r) = k·(r−e)·S(r−1);
  - values that benefit at entry (PVFB_e = B·D(r)/D(e)) and at every age of service;
  - computes, for each age e … r−1, the normal cost and accrued liability under Entry Age Normal (EAN) and Attained Age Normal (AAN);
  - reports the row for the valuation age;
  - accumulates each method's normal costs to retirement, NA = Σ NC·(1+i)^(r−age), together with the first, second and last terms of that sum.

Files:

- `commutation.dfy` (module `Commutation`): the builder as a method over arrays (`BuildCommutationTable`, `SurvivorsScan`, `CumulativeScan`). Each is proved against recursive specification functions (`Survivors`, `SuffixSum`). Lemmas give the recurrences and the bounds of the columns, and put the survivors in product form, l0·px(0)·…·px(a−1).
- `valuation.dfy` (module `Valuation`): the engine.
  - The per-age formulas are guarded functions. The guards match the source: `> 0` on D and on the annuity, and `!= 0` on N(e) − N(r).
  - The per-age series is a specification function `Series`. The source's two loops are methods (`ServiceRows`, `AccumulateContributions`) proved against `Series` and `Accumulated`.
  - The engine is the method `Valuate`.
  - The lemmas relate the accumulation loop to a sum over ages of service, and prove that the level EAN cost accumulates to NC·s̈(r−e), where s̈(n) = (1+i) + … + (1+i)^n.

## Model

| member | source | states |
|---|---|---|
| Commutation.ClipQx | danapensiun-app.py:277-278 | every death probability is at most 1; none is raised; each is either unchanged or exactly 1; the table length is kept |
| Commutation.Discount | danapensiun-app.py:303 | v·(1+i) = 1, and for a non-negative rate 0 < v ≤ 1 |
| Commutation.BuildCommutationTable | danapensiun-app.py:287-316 | a missing table (or one without qx) gives the empty table. Otherwise row a has age a, the schedule's qx, px = 1 − qx, lx = survivors of l0 to age a, Dx = lx·v^a and Nx = Dx(a) + … + Dx(last) |
| Commutation.SurvivorsScan | danapensiun-app.py:295-301 | the forward scan leaves at every age the survivors of l0 lives, year by year |
| Commutation.SurvivorsProduct | danapensiun-app.py:295-301 | the survivors to age a are l0 times the probability of surviving to a, px(0)·px(1)·…·px(a−1) |
| Commutation.CumulativeScan | danapensiun-app.py:308-314 | the backward scan leaves the suffix sum of Dx at every age |
| Commutation.SurvivorshipRecurrence | danapensiun-app.py:295-301 | a survivorship column starts at l0 and satisfies lx(a) = lx(a−1)·px(a−1) |
| Commutation.CumulativeRecurrence | danapensiun-app.py:309-314 | a cumulative column has Nx = Dx at the terminal age and Nx(a) = Nx(a+1) + Dx(a) below it |
| Commutation.SurvivorsNonNegative | danapensiun-app.py:293-301 | with qx ≤ 1 (what the clip guarantees) and l0 ≥ 0, survivors are never negative |
| Commutation.SurvivorsNonIncreasing | danapensiun-app.py:293-301 | with qx in [0,1], survivors never increase with age |
| Commutation.PowNonNegative | danapensiun-app.py:305 | a non-negative discount factor has non-negative powers |
| Commutation.PowBounds | danapensiun-app.py:305-306 | for 0 ≤ v ≤ 1, v^n lies in [0, v^m] whenever m ≤ n |
| Commutation.SuffixSumNonIncreasing | danapensiun-app.py:308-314 | non-negative suffix sums are non-negative, shrink as the start grows and dominate their first term |
| Commutation.SurvivorshipBounds | danapensiun-app.py:293-301 | the lx column is non-negative and non-increasing |
| Commutation.DiscountedBounds | danapensiun-app.py:303-306 | with i ≥ 0, the Dx column is non-negative and non-increasing |
| Commutation.CumulativeBounds | danapensiun-app.py:308-314 | with Dx ≥ 0, Nx ≥ Dx ≥ 0 and Nx is non-increasing |
| Commutation.CommutationTableBounds | danapensiun-app.py:287-316 | a built table with probabilities in [0,1], l0 ≥ 0 and i ≥ 0 has non-negative, non-increasing lx, Dx and Nx, with Nx ≥ Dx |
| Valuation.LookupLastMatch | danapensiun-app.py:335-339 | the age-keyed lookup reads 0 for an age no row carries; when several rows carry it, the last one wins |
| Valuation.LookupByAge | danapensiun-app.py:335-339 | in a table whose row a has age a, the lookup is indexing, with 0 past the terminal age |
| Valuation.ProjectedSalary | danapensiun-app.py:351-352 | with a single year of service the final salary is the starting salary |
| Valuation.ProjectedSalaryStep | danapensiun-app.py:351-352 | each extra year before retirement multiplies the final salary by (1+s) |
| Valuation.Benefit | danapensiun-app.py:356 | with no years of service the benefit is 0 |
| Valuation.BenefitAccrues | danapensiun-app.py:356 | each further year of service adds k·S(r−1) to the benefit, so B = k·(r−e)·S(r−1) is the accrual over the service years |
| Valuation.Pvfb | danapensiun-app.py:361-364 | PVFB·D(x) = B·D(r) when D(x) > 0, and PVFB = 0 otherwise |
| Valuation.Annuity | danapensiun-app.py:387-392 | annuity·D(x) = N(x) − N(r) when D(x) > 0, and 0 otherwise |
| Valuation.LevelCost | danapensiun-app.py:412-415 | NC·annuity = PVFB_e for a positive annuity, and 0 otherwise |
| Valuation.EanLevelCost | danapensiun-app.py:368-378 | the nested entry-age guards give the level cost of PVFB_e over the entry annuity |
| Valuation.EanAccruedLiability | danapensiun-app.py:400-405 | AL·(N(e) − N(r)) = PVFB·(N(e) − N(x)) when N(e) ≠ N(r). AL is 0 when N(e) = N(r) or at N(x) = N(e), and the whole PVFB at N(x) = N(r) |
| Valuation.AnnuityCost | danapensiun-app.py:368-378 | the level cost over an annuity from an age recovers the present value: NC·(N(x) − N(r)) = PV·D(x) when D(x) and N(x) − N(r) are positive, and NC = 0 otherwise |
| Valuation.AnchorValues | danapensiun-app.py:345-378 | the anchor holds D and N at entry and at retirement as the dictionary lookups read them, the projected salary, its benefit, PVFB_e with PVFB_e·D(e) = B·D(r), and NC_EAN with NC·(N(e) − N(r)) = PVFB_e·D(e); PVFB_e and NC are 0 where the guards fail |
| Valuation.RowAt | danapensiun-app.py:383-429 | the row for age a carries a and the level EAN cost; PVFB_a·D(a) = B·D(r); NC_AAN·(N(a) − N(r)) = PVFB_e·D(a); AL_EAN·(N(e) − N(r)) = PVFB_a·(N(e) − N(a)); AL_AAN = PVFB_a − PVFB_e; each guarded value is 0 where its guard fails |
| Valuation.Series | danapensiun-app.py:381-429 | one row per age e … r−1 in ascending order, each carrying the same EAN cost |
| Valuation.ServiceRows | danapensiun-app.py:380-429 | the per-age loop builds exactly the series |
| Valuation.EntryRow | danapensiun-app.py:397-419 | at entry age both liabilities are 0, the PVFB is PVFB_e, and the AAN cost equals the EAN cost |
| Valuation.AanCostRises | danapensiun-app.py:410-415 | with PVFB_e ≥ 0, a shorter positive remaining annuity never lowers the AAN cost |
| Valuation.RowForAge | danapensiun-app.py:436-449 | the result is absent exactly when no row has age x; otherwise it is the first such row |
| Valuation.ConsecutiveRowForAge | danapensiun-app.py:436-449 | in a series starting at e, the valuation-age row exists exactly when e ≤ x < e + length, and it is the row at x − e |
| Valuation.AccumulateContributions | danapensiun-app.py:451-464 | the accumulation loop yields, for both methods, the sum of NC·(1+i)^(r−age) over the rows with age < r |
| Valuation.AccumulatedOverService | danapensiun-app.py:451-464 | accumulating the series adds the contribution of every age of service exactly once |
| Valuation.AccumulationFactorClosedForm | danapensiun-app.py:455-461 | i·s̈(n) = (1+i)·((1+i)^n − 1) |
| Valuation.LevelRowsAccumulation | danapensiun-app.py:455-461 | rows of consecutive ages sharing one cost accumulate to a difference of totals of that cost carried forward |
| Valuation.LevelAccumulation | danapensiun-app.py:452-464 | NA(EAN) = NC(EAN)·s̈(r−e) |
| Valuation.SingleYearAccumulation | danapensiun-app.py:452-464 | with one year of service, NA(EAN) = NC(EAN)·(1+i) |
| Valuation.EndTermsAreSummands | danapensiun-app.py:466-486 | over consecutive ages, the first row carried forward r−e years, the second carried r−e−1 years and the last carried one year are the first, second and last summands of the accumulation NA (NA of the first row; NA of two rows minus NA of one; NA of all rows minus NA of all but the last) |
| Valuation.EndTerms | danapensiun-app.py:466-486 | the display terms are the first, second (0 for a single year) and last summands of NA, carried forward r−e, r−e−1 and 1 years |
| Valuation.Summarize | danapensiun-app.py:433-486 | the metrics are: the valuation-age row's figures (zeros when x is outside e … r−1), both accumulations and their display terms, which by EndTermsAreSummands are the first, second and last summands of each accumulation |
| Valuation.Valuate | danapensiun-app.py:319-488 | an empty table gives the empty result, and only then. Otherwise the result holds the series for e … r−1 and the anchor values. It also holds the valuation-age PVFB, which equals that row's PVFB when x is in service, and the valuation-age figures. NA(EAN) = NC(EAN)·s̈(r−e); NA(AAN) is the sum over ages of service. The display terms are the end rows carried forward, which EndTermsAreSummands identifies as the summands of NA |

## Left out

- The web interface, charts, number formatting, the caching of results and the CSV text of the embedded mortality tables are not modelled. The schedule is a parameter: the sequence of qx for ages 0, 1, 2, …, as in the embedded tables.
- Numbers are exact reals, so rounding is not modelled. In the source, qx, px and lx are binary floats; v^x, Dx and Nx are 28-digit decimals, as are the engine's figures.
- BuildCommutationTable: requires a non-empty schedule. On an empty frame that has a qx column, the source's assignment to age 0 would add a row of its own; that case is not modelled.
- BuildCommutationTable: requires 1 + i ≠ 0, where the source's decimal division would fail.
- BuildCommutationTable: ages are assumed to be 0 … n−1 without gaps. The source's forward scan takes the previous and current ages by position, so across a gap it still multiplies lx by the preceding row's px. Its backward scan skips an age when that age or the next one is missing.
- Valuate: for a non-empty table, requires e < r. With e ≥ r the series is empty, and the source's filter on its missing age column raises an uncaught error.
- Valuate: for a non-empty table, requires s ≠ −1 when r = e + 1, where the source would evaluate the decimal 0 to the power 0 and fail.
- Valuate: the rows the engine returns are a sequence of records and the metrics a record of named fields, in place of a data frame and a dictionary. Ages are natural numbers.
- The source's catch-all handler around the display terms never fires once e < r. It is therefore not modelled.
