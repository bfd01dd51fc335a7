# Real-estate portfolio optimizer — a Dafny model

This project models `calculatePortfolio`, the optimizer of a real-estate portfolio
application. The user gives a budget in billions of VND, a loan-to-value ratio, an
annual loan rate, a loan term in years, and a constraint per project (`auto`,
`exclude`, `force`). The optimizer then runs these steps:

1. It values an interest-only loan of budget × LTV. The value is the principal minus
   the present value of the monthly interest (an ordinary annuity) and of the
   principal repaid at maturity, discounted at the annual market rate.
2. In catalog order, it buys one unit of each forced project whose cost fits the
   budget left at its turn; a forced project that does not fit is skipped.
3. It turns every non-excluded project of positive cost into identical unit-slots:
   one slot for each unit it may still gain under the cap of three.
4. It sorts the slots by efficiency (NPV / cost), best first.
5. It runs a depth-first branch-and-bound 0/1 knapsack over the slots, on the budget
   left. The search is meant to be exact, but as written it is not (see Findings). The search prunes with the fractional-relaxation (Dantzig) bound
   `getBound`.
6. It merges the selected slots into the unit map. It then lists, in catalog order,
   every project holding units, and recomputes cost, operational profit and grand
   total NPV from that list.

The model is parametric in the catalog, the unit cap and the discount rate
(`Optimizer.Config`). `Optimizer.Shipped` instantiates it with the 26 projects and
the constants the application ships with.

Modules:

- `Catalog` holds the project records, the constraints, and the shipped catalog
  and constants.
- `Financing` holds the loan valuation, with `Pow` over exact reals.
- `Items` holds slots, index selections and their weight and value.
- `Sorting` holds the efficiency sort.
- `Bound` holds the greedy fractional fill and `getBound`.
- `Knapsack` holds the branch-and-bound solver, threading the incumbent through the
  recursion.
- `Preallocation` holds the forced pre-purchase and slot generation.
- `Optimizer` holds the merge, the totals, the whole pipeline and its guarantees.

Money is `int` (VND). Ratios, the bound and the financing values are `real`. The
bound's give-up test at `services/optimizer.ts:99` compares with `>=`, and that is a
defect (see Findings). The model therefore takes a `Bound.Cutoff`:

- `AtBudget` is the code as written.
- `OverBudget` is the evidently intended rule.

Every guarantee says which rule it holds for.

## Model

| member | source | states |
|---|---|---|
| Catalog.ShippedIds | constants.ts:5-32 | The shipped catalog has 26 entries with ids 1..26 in order, so ids are distinct and ascending and catalog order is id order. |
| Catalog.ShippedCostsAndValuesPositive | constants.ts:6-31 | Every shipped entry has cost > 0 and NPV > 0. So the positive-cost filter of slot generation drops nothing, and every slot value is nonnegative, as the bound's soundness needs. |
| Catalog.ShippedConstants | constants.ts:34-37 | The unit cap is 3, and the discount rate is positive, so the monthly discount rate the annuity formula divides by is not zero. |
| Optimizer.Shipped | constants.ts:5-37 | The shipped configuration uses the shipped catalog (distinct, ascending ids; nonnegative NPVs), a cap of 3 and a discount rate the financing formula can evaluate. |
| Financing.Pow | services/optimizer.ts:29-30 | The growth factor `(1 + d)^n` is positive for a positive base, and above 1 for a base above 1 and n > 0. |
| Financing.AnnuityFormula | services/optimizer.ts:29 | The source's ordinary-annuity closed form equals the month-by-month sum of the payment discounted 1..n times. |
| Financing.NetFinancingValue | services/optimizer.ts:18-35 | The net financing value of lines 18-35. It is 0 without a positive loan and for a term of zero years. `Financing.NetFinancingIsNetPresentValue` characterizes it in full. |
| Financing.NetFinancingIsNetPresentValue | services/optimizer.ts:18-35 | The net financing value is the principal minus the discounted sum of the loan's actual cash flows: 12·years monthly interest payments and the principal at maturity. With no positive loan it is 0. |
| Financing.NetFinancingClosedForm | services/optimizer.ts:22-35 | For a positive loan, the value equals loan × (1 − 1/g) × (1 − loanRate/discountRate), where g is the growth factor over the whole term. |
| Financing.NoLoanNoValue | services/optimizer.ts:18-22 | When budget × LTV ≤ 0 (for instance LTV = 0), the net financing value is exactly 0. |
| Financing.ZeroTermNoValue | services/optimizer.ts:23-34 | A term of 0 years gives a net financing value of 0. |
| Financing.EqualRatesNoValue | services/optimizer.ts:23-34 | Borrowing at the discount rate itself gives a net financing value of 0. |
| Financing.FinancingSign | services/optimizer.ts:23-34 | For a positive loan, term and discount rate, the financing adds value iff the loan rate is below the discount rate, is 0 iff they are equal, and costs value iff the loan rate is above it. |
| Preallocation.PrePurchase | services/optimizer.ts:39-60 | After the forced pass, cost bought + budget left = the budget. A nonnegative budget stays nonnegative. Only forced projects of the catalog get units, one each. |
| Preallocation.PrePurchaseTurn | services/optimizer.ts:50-60 | For a catalog with distinct ids, a project gets exactly one unit in the forced pass iff it is forced and its cost fits the budget left after the projects before it. Otherwise it gets none. |
| Optimizer.ForcedProjectHeld | services/optimizer.ts:50-60 | For a catalog with distinct ids, a forced project whose cost fits the budget left at its turn appears in the final portfolio with at least one unit. |
| Optimizer.PrePurchaseTotals | services/optimizer.ts:50-60 | For a catalog with distinct ids, the holdings bought by the forced pass cost exactly the pass's baseline cost and earn exactly its baseline NPV. |
| Preallocation.SlotsFor | services/optimizer.ts:70-88 | One project's slots. Their number is the project's allowance: 0 if excluded or of non-positive cost, else the cap minus the units already bought, never below 0. |
| Preallocation.BuildSlots | services/optimizer.ts:65-89 | The slots of the whole catalog, project by project. It has no contract of its own; `Preallocation.SlotCounts` and `Preallocation.SlotsComeFromCatalog` characterize it. |
| Preallocation.SlotCounts | services/optimizer.ts:67-89 | For a catalog with distinct ids, slot generation gives each catalog project exactly its allowance of slots: none if excluded or of non-positive cost, else the cap minus the units already bought (never below 0). An id outside the catalog gets none. |
| Preallocation.SlotsComeFromCatalog | services/optimizer.ts:67-89 | Every slot carries the id, cost, NPV and NPV/cost ratio of a non-excluded catalog entry of positive cost. |
| Preallocation.SlotsWellFormed | services/optimizer.ts:79-87 | With nonnegative NPVs, every slot has positive weight, nonnegative value, and ratio = value / weight. |
| Sorting.Insert | services/optimizer.ts:92 | Inserting a slot into a sequence sorted by non-increasing ratio keeps it sorted and adds exactly that slot (multiset). |
| Sorting.SortByRatio | services/optimizer.ts:91-92 | The sorted slots are a permutation (same multiset) of the input, in non-increasing ratio order. |
| Sorting.SortCount | services/optimizer.ts:92 | Sorting keeps the number of slots of every project. |
| Optimizer.SlotStageReady | services/optimizer.ts:65-92 | With nonnegative NPVs, the sorted slots the search receives are well formed and sorted, which is what the bound's soundness needs. |
| Bound.GetBound | services/optimizer.ts:98-116 | The bound is 0 whenever the give-up rule fires (as written: the weight used has reached the budget). |
| Bound.Greedy | services/optimizer.ts:101-114 | The greedy fractional fill inside `getBound`. It has no contract of its own; `Bound.GreedyDominates` characterizes it. |
| Bound.GreedyDominates | services/optimizer.ts:101-114 | For well-formed, sorted slots, the greedy fractional fill of a capacity is at least the value of every selection of the remaining slots that fits in it. |
| Bound.BoundSound | services/optimizer.ts:98-116 | When the bound does not give up, it is at least curValue plus the value of every completion from `items[index..]` that fits in the remaining budget. |
| Knapsack.Solve | services/optimizer.ts:119-144 | The solver returns an incumbent that is never worse than the one it was given. The incumbent's selection is strictly increasing indices, its value is the selection's value and ≥ 0, and it fits the budget unless empty. |
| Knapsack.Include | services/optimizer.ts:135-140 | The include branch returns an incumbent that keeps the invariant above and is never worse than the one it was given. `Knapsack.IncludeAtLeast` states what it finds below it. |
| Knapsack.IncludeAtLeast | services/optimizer.ts:135-140 | When slot `index` fits, the include branch is worth at least the path plus that slot plus any completion the give-up rule does not discard. |
| Knapsack.Search | services/optimizer.ts:94-147 | The search from the incumbent (0, []) returns an incumbent as above. With a nonnegative budget its selection's weight is within the budget; with a negative budget it is (0, []). |
| Knapsack.SolveDominates | services/optimizer.ts:119-147 | A node's result matches every completion of its path that the give-up rule does not discard: include-first descent plus pruning by a sound bound loses nothing else. |
| Knapsack.SearchOptimal | services/optimizer.ts:94-147 | With the corrected give-up rule, the search is exact: no selection within the budget is worth more than the result. |
| Knapsack.SearchAsWrittenNearOptimal | services/optimizer.ts:99-131 | As written, the result beats every selection whose weight is strictly below the budget. |
| Knapsack.AsWrittenMissesFullBudget | services/optimizer.ts:99-131 | As written, for slots (100e9, 50e9) and (200e9, 10e9) and a budget of 100e9, the search returns (0, []), although the first slot alone weighs exactly 100e9 and is worth 50e9. |
| Knapsack.CorrectedTakesFullBudget | services/optimizer.ts:119-147 | With the corrected rule, the same search returns (50e9, [0]). |
| Optimizer.Bump | services/optimizer.ts:154 | Recording a selected slot adds one unit to its project and leaves every other project unchanged. |
| Optimizer.MergeSelection | services/optimizer.ts:152-155 | Adds one unit per selected slot to its project. It has no contract of its own; `Optimizer.MergeUnits` and `Optimizer.MergeTotals` characterize it. |
| Optimizer.MergeUnits | services/optimizer.ts:152-155 | After the merge, every project's units are its previous units plus the number of selected slots of that project. |
| Optimizer.FinalUnitsSplit | services/optimizer.ts:151-155 | A project's final units are what the forced pass bought plus the number of its slots the search selected. |
| Optimizer.UnitsWithinAllowance | services/optimizer.ts:73-89 | For a catalog with distinct ids, a catalog project ends with at least its forced units and at most those plus its slot allowance. |
| Optimizer.UnitCap | services/optimizer.ts:67-89 | With distinct ids and a cap ≥ 1, every project ends with between 0 and the cap units. An excluded project and an id outside the catalog end with none. |
| Optimizer.ShippedUnitCap | services/optimizer.ts:67-89 | For the shipped settings, no project holds more than 3 units and an excluded project holds none. |
| Optimizer.Holdings | services/optimizer.ts:161-171 | The portfolio list. It has no contract of its own; `Optimizer.HoldingsMembers` and `Optimizer.HoldingsInCatalogOrder` characterize it. |
| Optimizer.TotalCost | services/optimizer.ts:168 | Σ units·cost over the portfolio. It has no contract of its own; `Optimizer.PortfolioTotals` characterizes it. |
| Optimizer.TotalNpv | services/optimizer.ts:169 | Σ units·NPV over the portfolio. It has no contract of its own; `Optimizer.PortfolioTotals` characterizes it. |
| Optimizer.DuplicateIdCountedTwice | services/optimizer.ts:161-171 | The totals go by catalog entry and the units by id, so a duplicated id is counted twice: three units at 10 each are reported as costing 60. This is why the totals are stated for distinct ids. |
| Optimizer.HoldingsMembers | services/optimizer.ts:161-171 | The portfolio list contains exactly the catalog projects holding units, each with its number of units. |
| Optimizer.PortfolioMembers | services/optimizer.ts:157-171 | The returned portfolio contains exactly the catalog projects whose final units are positive, with those units. |
| Optimizer.HoldingsInCatalogOrder | services/optimizer.ts:161-171 | Over a catalog in ascending id order, the portfolio lists projects in strictly ascending id order, so catalog order is kept. |
| Optimizer.MergeTotals | services/optimizer.ts:151-171 | Merging a selection of catalog slots adds the selection's weight to the portfolio's Σ units·cost and its value to its Σ units·NPV. |
| Optimizer.CalculatePortfolio | services/optimizer.ts:12-183 | The budget limit is the full budget, the loan is budget × LTV, the financing value is that of the loan, and the grand total is operational profit plus financing value. |
| Optimizer.PortfolioTotals | services/optimizer.ts:157-173 | For a catalog with distinct ids, the recomputed investment cost (Σ units·cost) is the forced purchases' cost plus the search selection's weight. The operational profit (Σ units·NPV) is the forced purchases' NPV plus the search's best value. |
| Optimizer.WithinBudget | services/optimizer.ts:157-171 | For a catalog with distinct ids and a nonnegative budget, the portfolio costs at most the budget, under either give-up rule. |
| Optimizer.ShippedWithinBudget | services/optimizer.ts:157-171 | For the shipped settings and a nonnegative budget, the portfolio costs at most the budget and lists projects in id order. |
| Optimizer.PortfolioOptimal | services/optimizer.ts:62-147 | For a catalog with distinct ids, with the corrected rule and nonnegative NPVs, no way of spending what the forced purchases leave on the available slots earns more operational profit than the portfolio. |
| Optimizer.ShippedOptimal | services/optimizer.ts:62-147 | The same optimality holds for the shipped settings. |
| Optimizer.PortfolioAsWrittenNearOptimal | services/optimizer.ts:98-147 | As written, the portfolio beats every way of spending strictly less than what the forced purchases leave. |
| Optimizer.EfficiencyIsNotGreed | services/optimizer.ts:91-147 | Take A (100e9 cost, 50e9 NPV) and the more efficient B (60e9, 45e9), a cap of 1 and a budget of 100e9. Under either rule the portfolio is A alone: profit 50e9, cost 100e9. Here the search finds the optimum A, not the more efficient B: it is not greedy by efficiency. |
| Optimizer.BudgetNotMonotone | services/optimizer.ts:50-147 | Take a forced F (100e9 cost, 1e9 NPV) listed before G (98e9, 1000e9), with a cap of 1. Under either rule, a budget of 99 billion earns 1000e9, but 100 billion earns only 1e9: F now fits, is bought first, and leaves nothing for G. |
| Optimizer.AsWrittenEmptyPortfolio | services/optimizer.ts:99-131 | As written, A (100e9, 50e9) and B (200e9, 10e9) with a cap of 1 and a budget of 100 billion give an empty portfolio with profit 0, although A costs exactly the budget and earns 50e9. |
| Optimizer.CorrectedFullPortfolio | services/optimizer.ts:119-183 | With the corrected rule, the same inputs give the portfolio of A alone: profit 50e9, cost 100e9. |

## Left out

- `formatCurrency` and `formatBillions` (`services/optimizer.ts:186-192`) are left out. They only format numbers for display.
- The React components, the CSV export, the saved scenarios and the `parseFloat` handling of the form are left out. They are user-interface plumbing outside the optimizer.
- IEEE-754 rounding is left out. The ratio, the bound and the financing formula are computed over exact reals, so a tie or a prune decided by a rounding error in the source is not reproduced.
- `Math.pow` with a non-integral exponent is left out. The loan term is a whole number of years (`nat`), so every power is a natural power.
- The budget is modelled as whole billions (an `int` times 10^9), as the input form's step of 1 produces. Fractional billions typed by hand are not modelled.
- The descriptive catalog fields are left out. The optimizer never reads the name, address, distance, rent or the present values behind the NPV.
- Running time and recursion depth of the exponential search are not bounded.
- Financing.NetFinancingValue: requires a nonzero discount rate above −12. The source has no guard: with a zero rate, `Math.pow(1, -months)` is 1, so line 29 computes (payment · 0) / 0, which is NaN.
- Optimizer.CalculatePortfolio: inherits that requirement on the configured discount rate. The shipped rate, 0.047, meets it.
- Optimizer.UnitCap: is stated for a cap of at least 1 and distinct catalog ids. Both hold for the shipped settings (`Optimizer.ShippedUnitCap`).
- Optimizer.PortfolioOptimal: is stated over the slot selections the search sees, after the forced purchases. The source does not revisit forced purchases, so the portfolio need not be optimal over all portfolios. Optimality needs nonnegative NPVs; the shipped catalog has them.
- Optimizer.ForcedProjectHeld: is stated per turn, against the budget the earlier forced projects leave. An earlier forced project can use up the budget first, so a forced project whose cost fits the full budget may still get no unit.

## Findings

| source | as written | input that shows it | evidently intended | confidence | as-written member | corrected member |
|---|---|---|---|---|---|---|
| services/optimizer.ts:99 and :131 | `getBound` returns 0 once `curWeight >= currentBudget`, and `solve` prunes any node with `bound <= bestValue`. A non-leaf node whose path spends exactly the remaining budget is therefore dropped before reaching its leaf. | Slots sorted as (cost 100e9, NPV 50e9) and (200e9, 10e9), cap 1, budget 100 billion: the search returns the empty selection and the portfolio is empty, although the first project alone fits exactly and earns 50e9. | Give up only when `curWeight > currentBudget`, so the search is exact, as the "Exact Branch & Bound" comment at line 62 says. | not executed | Optimizer.AsWrittenEmptyPortfolio | Optimizer.CorrectedFullPortfolio |
